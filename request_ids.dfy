/**
 * How the conversation endpoints turn the identifiers a client sends as
 * strings into the numeric ids the service takes. `chat` and `voiceChat`
 * apply the same two rules, written once here.
 */
module RequestIds {
  import opened Common
  import opened Text

  const DefaultConversationSentinel: string := "default"
  const LocalSessionPrefix: string := "s_"
  const DefaultCharacterId: int := 1

  /**
   * The conversation id: absent when not sent, when it is the client's
   * "default" thread or a local `s_` session id, or when it is not a `long`.
   */
  function ResolveConversationId(raw: Option<string>): (r: Option<int>)
    ensures r.Some? <==> raw.Some? && raw.value != DefaultConversationSentinel
                         && !StartsWith(raw.value, LocalSessionPrefix) && ParseLong(raw.value).Some?
    ensures r.Some? ==> r == ParseLong(raw.value)
  {
    if raw.Some? && raw.value != DefaultConversationSentinel && !StartsWith(raw.value, LocalSessionPrefix) then
      ParseLong(raw.value)
    else None
  }

  /** The legacy names of the preset characters; anything else is the default character. */
  function CharacterAlias(name: string): (id: int)
    ensures id == 3 <==> name in {"preset-hp", "harry-potter"}
    ensures id == 4 <==> name in {"preset-shakespeare", "shakespeare"}
    ensures id == 2 <==> name in {"preset-socrates", "socrates"}
    ensures id == 1 <==> name !in {"preset-hp", "harry-potter", "preset-shakespeare", "shakespeare", "preset-socrates", "socrates"}
  {
    if name == "preset-hp" || name == "harry-potter" then 3
    else if name == "preset-shakespeare" || name == "shakespeare" then 4
    else if name == "preset-socrates" || name == "socrates" then 2
    else if name == "ai-xiaozhi" || name == "xiaozhi" then 1
    else DefaultCharacterId
  }

  /**
   * The character id: 1 when absent or blank; otherwise the parsed `long`,
   * or, when parsing fails, the alias of the string as sent (untrimmed).
   */
  function ResolveCharacterId(raw: Option<string>): (r: int)
    ensures LongMin <= r <= LongMax
    ensures raw.None? || IsBlank(raw.value) ==> r == DefaultCharacterId
    ensures raw.Some? && !IsBlank(raw.value) && ParseLong(raw.value).Some? ==> r == ParseLong(raw.value).value
    ensures raw.Some? && !IsBlank(raw.value) && ParseLong(raw.value).None? ==> r == CharacterAlias(raw.value)
  {
    if raw.None? || IsBlank(raw.value) then DefaultCharacterId
    else match ParseLong(raw.value)
      case Some(n) => n
      case None => CharacterAlias(raw.value)
  }

  /** The sentinel tests never change the outcome: neither "default" nor an `s_` id parses as a `long`. */
  lemma SentinelsAreRedundant(raw: Option<string>)
    ensures ResolveConversationId(raw) == if raw.Some? then ParseLong(raw.value) else None
  {
    if raw.Some? && ParseLong(raw.value).Some? {
      var s := raw.value;
      assert IsDigit(s[0]) || s[0] == '-' || s[0] == '+';
      assert s != DefaultConversationSentinel by { assert DefaultConversationSentinel[0] == 'd'; }
      assert !StartsWith(s, LocalSessionPrefix) by {
        assert |s| >= 2 ==> s[..2][0] == s[0];
      }
    }
  }

  /** `Long.toString(n)` starts with a digit or a minus sign. */
  lemma LongStringHead(n: int)
    ensures LongToString(n) != [] && (IsDigit(LongToString(n)[0]) || LongToString(n)[0] == '-')
  {
    if n >= 0 {
      assert IsDigit(NatToDecimal(n)[0]);
    }
  }

  /** A conversation id the server issued comes back unchanged. */
  lemma ConversationIdRoundTrip(n: int)
    requires LongMin <= n <= LongMax
    ensures ResolveConversationId(Some(LongToString(n))) == Some(n)
  {
    LongRoundTrip(n);
    SentinelsAreRedundant(Some(LongToString(n)));
  }

  /** A numeric character id comes back unchanged. */
  lemma CharacterIdRoundTrip(n: int)
    requires LongMin <= n <= LongMax
    ensures ResolveCharacterId(Some(LongToString(n))) == n
  {
    LongRoundTrip(n);
    LongStringHead(n);
    var s := LongToString(n);
    assert !IsBlank(s) by {
      BlankIffAllJavaSpace(s);
      assert s[0] > ' ';
    }
  }

  /** A name that is neither blank nor a number resolves through the alias table. */
  lemma AliasLookup(name: string)
    requires name != [] && name[0] > ' ' && !IsDigit(name[0]) && name[0] != '-' && name[0] != '+'
    ensures ResolveCharacterId(Some(name)) == CharacterAlias(name)
  {
    BlankIffAllJavaSpace(name);
  }

  /** The blank test trims but the parse does not: " 3" is not a number and falls back to character 1. */
  lemma UntrimmedCharacterId()
    ensures ResolveCharacterId(Some(" 3")) == 1
    ensures ResolveCharacterId(Some("3")) == 3
  {
    assert ParseLong(" 3") == None by { assert !IsDigit(' '); }
    assert !IsBlank(" 3") by { BlankIffAllJavaSpace(" 3"); assert " 3"[1] > ' '; }
    CharacterIdRoundTrip(3);
    assert LongToString(3) == "3";
  }

  lemma ConversationIdExamples()
    ensures ResolveConversationId(Some("default")) == None
    ensures ResolveConversationId(Some("s_1712")) == None
    ensures ResolveConversationId(Some("abc")) == None
    ensures ResolveConversationId(None) == None
  {
    assert StartsWith("s_1712", LocalSessionPrefix);
    assert ParseLong("abc") == None by { assert !IsDigit('a'); }
  }
}
