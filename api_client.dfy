/**
 * The frontend's HTTP client helpers: where the access token comes from, the
 * Authorization header the request interceptor adds, the uniform error shape,
 * the test for that shape, and the query string builder with the
 * URLSearchParams semantics it relies on.
 */
module ApiClient {
  import opened Common
  import opened Text
  import AuthSession
  import AuthFilter

  // ------------------------------------------------------------ the token

  /** `getAccessToken`: the store's token when truthy, else the persisted one, else ''. */
  function GetAccessToken(storeToken: string, stored: Option<string>): (r: string)
    ensures storeToken != "" ==> r == storeToken
    ensures r == "" <==> storeToken == "" && (stored.None? || stored.value == "")
    ensures r != storeToken ==> stored == Some(r)
  {
    if storeToken != "" then storeToken
    else if stored.Some? then stored.value
    else ""
  }

  /** The Authorization header value for a token: present only for a non-empty token. */
  function AuthorizationHeader(token: string): (r: Option<string>)
    ensures r.Some? <==> token != ""
    ensures r.Some? ==> AuthFilter.BearerToken(r) == Some(token)
  {
    if token == "" then None
    else
      var header := AuthFilter.BearerPrefix + token;
      assert header[..7] == AuthFilter.BearerPrefix && header[7..] == token;
      Some(header)
  }

  const Authorization: string := "Authorization"

  /** The request interceptor: the headers with Authorization set when there is a token, else untouched. */
  function InterceptRequest(headers: map<string, string>, token: string): (r: map<string, string>)
    ensures forall name | name != Authorization :: (name in r <==> name in headers)
    ensures forall name | name != Authorization && name in headers :: r[name] == headers[name]
    ensures token == "" ==> r == headers
    ensures token != "" ==> Authorization in r && AuthFilter.BearerToken(Some(r[Authorization])) == Some(token)
  {
    match AuthorizationHeader(token)
    case None => headers
    case Some(value) => headers[Authorization := value]
  }

  /**
   * A request sent while the auth store holds a token reaches the backend
   * filter with exactly that token; after signing out a request carries no
   * header unless one was supplied by the caller.
   */
  lemma {:induction false} SignedInRequestsCarryToken<U>(st: AuthSession.AuthState<U>, user: Option<U>, token: string, headers: map<string, string>)
    requires token != ""
    ensures var signedIn := AuthSession.SetSession(st, user, Some(token));
            var sent := InterceptRequest(headers, GetAccessToken(signedIn.accessToken, signedIn.stored));
            AuthFilter.BearerToken(Some(sent[Authorization])) == Some(token)
    ensures var out := AuthSession.ClearSession(st);
            InterceptRequest(headers, GetAccessToken(out.accessToken, out.stored)) == headers
  {
    var signedIn := AuthSession.SetSession(st, user, Some(token));
    assert signedIn.accessToken == token;
    assert GetAccessToken(signedIn.accessToken, signedIn.stored) == token;
  }

  // ------------------------------------------------------------ errors

  /** The body of an error response, as far as it is read. */
  datatype ErrorBody = ErrorBody(message: Option<string>, code: Option<string>)

  /** An HTTP error response: its status (absent or 0 when there is none) and body. */
  datatype HttpResponse = HttpResponse(status: Option<int>, data: Option<ErrorBody>)

  /** What the HTTP library rejects with: possibly a response, and its own message. */
  datatype HttpError = HttpError(response: Option<HttpResponse>, message: Option<string>)

  /** The uniform error shape. */
  datatype ApiError = ApiError(status: int, message: string, code: string, raw: Option<HttpError>)

  const NetworkError: string := "Network Error"
  const UnknownError: string := "UNKNOWN_ERROR"

  /** `a || b` for strings that may be absent. */
  function OrElse(a: Option<string>, b: string): (r: string)
    ensures a.Some? && a.value != "" ==> r == a.value
    ensures (a.None? || a.value == "") ==> r == b
  {
    if a.Some? && a.value != "" then a.value else b
  }

  function ResponseOf(error: Option<HttpError>): Option<HttpResponse> {
    if error.Some? then error.value.response else None
  }

  function BodyOf(error: Option<HttpError>): Option<ErrorBody> {
    var response := ResponseOf(error);
    if response.Some? then response.value.data else None
  }

  /**
   * `normalizeError`: the status defaults to 0; the message is the body's,
   * else the error's own, else "Network Error"; the code defaults to
   * "UNKNOWN_ERROR"; the original error is kept.
   */
  function NormalizeError(error: Option<HttpError>): (r: ApiError)
    ensures r.status == 0 <==>
      (ResponseOf(error).None? || ResponseOf(error).value.status.None? || ResponseOf(error).value.status.value == 0)
    ensures r.status != 0 ==> r.status == ResponseOf(error).value.status.value
    ensures r.message != "" && r.code != ""
    ensures BodyOf(error).Some? && BodyOf(error).value.message.Some? && BodyOf(error).value.message.value != ""
            ==> r.message == BodyOf(error).value.message.value
    ensures (BodyOf(error).None? || BodyOf(error).value.message.None? || BodyOf(error).value.message.value == "")
            ==> r.message == if error.Some? then OrElse(error.value.message, NetworkError) else NetworkError
    ensures r.code == if BodyOf(error).Some? then OrElse(BodyOf(error).value.code, UnknownError) else UnknownError
    ensures r.raw == error
  {
    var response := ResponseOf(error);
    var status := if response.Some? && response.value.status.Some? then response.value.status.value else 0;
    var body := BodyOf(error);
    var own := if error.Some? then OrElse(error.value.message, NetworkError) else NetworkError;
    var message := if body.Some? then OrElse(body.value.message, own) else own;
    var code := if body.Some? then OrElse(body.value.code, UnknownError) else UnknownError;
    ApiError(status, message, code, error)
  }

  /** A thrown JavaScript value, as far as `isApiError` can tell values apart. */
  datatype JsValue =
    | Undefined
    | Null
    | Boolean(b: bool)
    | Number(n: int)
    | Text(s: string)
    | Function
    | Object(keys: set<string>)

  predicate Truthy(v: JsValue) {
    match v
    case Undefined => false
    case Null => false
    case Boolean(b) => b
    case Number(n) => n != 0
    case Text(s) => s != ""
    case Function => true
    case Object(_) => true
  }

  /** `typeof`. */
  function TypeOf(v: JsValue): string {
    match v
    case Undefined => "undefined"
    case Null => "object"
    case Boolean(_) => "boolean"
    case Number(_) => "number"
    case Text(_) => "string"
    case Function => "function"
    case Object(_) => "object"
  }

  /** `isApiError`: a truthy object with both a status and a message key. */
  predicate IsApiError(e: JsValue)
    ensures IsApiError(e) <==> e.Object? && "status" in e.keys && "message" in e.keys
  {
    Truthy(e) && TypeOf(e) == "object" && "status" in e.keys && "message" in e.keys
  }

  /** An `ApiError` as the object it is thrown as. */
  function AsValue(e: ApiError): JsValue {
    Object({"status", "message", "code", "raw"})
  }

  /** Whatever went wrong, the normalized error passes the check the pages make. */
  lemma NormalizedIsApiError(error: Option<HttpError>)
    ensures IsApiError(AsValue(NormalizeError(error)))
  {
  }

  /**
   * The response interceptor's state change: a 401 signs the user out; any
   * other failure leaves the auth store as it was. The rejection carries the
   * normalized error either way.
   */
  function OnResponseError<U>(st: AuthSession.AuthState<U>, error: Option<HttpError>): (r: (AuthSession.AuthState<U>, ApiError))
    ensures r.1 == NormalizeError(error)
    ensures r.1.status == 401 ==> !AuthSession.IsAuthenticated(r.0) && r.0.stored.None? && r.0.user.None?
    ensures r.1.status != 401 ==> r.0 == st
  {
    var norm := NormalizeError(error);
    if norm.status == 401 then (AuthSession.ClearSession(st), norm) else (st, norm)
  }

  // ------------------------------------------------------------ query strings

  /** A parameter value: null or undefined, a single value (its `String(v)`), or an array (each element's `String(vi)`). */
  datatype QueryValue = Missing | Single(text: string) | Many(items: seq<string>)

  type Entry = (string, QueryValue)
  type Pair = (string, string)

  function Keys(ps: seq<Pair>): set<string> {
    set p | p in ps :: p.0
  }

  /** The pairs whose name is not `k`, in order. */
  function Without(ps: seq<Pair>, k: string): seq<Pair> {
    if ps == [] then [] else (if ps[0].0 == k then [] else [ps[0]]) + Without(ps[1..], k)
  }

  /** The values of the pairs named `k`, in order. */
  function ValuesOf(ps: seq<Pair>, k: string): seq<string> {
    if ps == [] then [] else (if ps[0].0 == k then [ps[0].1] else []) + ValuesOf(ps[1..], k)
  }

  /** The first pair named `k` takes the value `v` (once `seen` is false); later ones are dropped. */
  function ReplaceFirst(ps: seq<Pair>, k: string, v: string, seen: bool): (r: seq<Pair>)
    ensures Without(r, k) == Without(ps, k)
    ensures ValuesOf(r, k) == if !seen && k in Keys(ps) then [v] else []
  {
    if ps == [] then []
    else
      var rest := ReplaceFirst(ps[1..], k, v, seen || ps[0].0 == k);
      assert Keys(ps) == {ps[0].0} + Keys(ps[1..]);
      if ps[0].0 != k then
        assert ([ps[0]] + rest)[1..] == rest;
        [ps[0]] + rest
      else if seen then rest
      else
        assert ([(k, v)] + rest)[1..] == rest;
        [(k, v)] + rest
  }

  /**
   * `URLSearchParams.set`: the first pair named `k` takes the value `v` and
   * the other pairs named `k` are removed, or the pair is appended when there
   * is none. Every other pair stays, in order.
   */
  function SetPair(ps: seq<Pair>, k: string, v: string): (r: seq<Pair>)
    ensures Without(r, k) == Without(ps, k)
    ensures ValuesOf(r, k) == [v]
    ensures k !in Keys(ps) ==> r == ps + [(k, v)]
  {
    if k in Keys(ps) then ReplaceFirst(ps, k, v, false)
    else
      AppendWithout(ps, (k, v), k);
      AppendValues(ps, (k, v), k);
      NoValuesWithout(ps, k);
      ps + [(k, v)]
  }

  lemma {:induction false} AppendWithout(ps: seq<Pair>, p: Pair, k: string)
    ensures Without(ps + [p], k) == Without(ps, k) + (if p.0 == k then [] else [p])
  {
    if ps != [] {
      assert (ps + [p])[1..] == ps[1..] + [p];
      AppendWithout(ps[1..], p, k);
    }
  }

  lemma {:induction false} AppendValues(ps: seq<Pair>, p: Pair, k: string)
    ensures ValuesOf(ps + [p], k) == ValuesOf(ps, k) + (if p.0 == k then [p.1] else [])
  {
    if ps != [] {
      assert (ps + [p])[1..] == ps[1..] + [p];
      AppendValues(ps[1..], p, k);
    }
  }

  lemma {:induction false} NoValuesWithout(ps: seq<Pair>, k: string)
    requires k !in Keys(ps)
    ensures ValuesOf(ps, k) == []
  {
    if ps != [] {
      assert ps[0] in ps;
      assert Keys(ps[1..]) <= Keys(ps) by {
        forall x | x in Keys(ps[1..]) ensures x in Keys(ps) {
          var p :| p in ps[1..] && p.0 == x;
          assert p in ps;
        }
      }
      NoValuesWithout(ps[1..], k);
    }
  }

  /** One pair per element of an array value, in order. */
  function ItemPairs(k: string, items: seq<string>): (r: seq<Pair>)
    ensures |r| == |items| && forall i | 0 <= i < |items| :: r[i] == (k, items[i])
  {
    seq(|items|, i requires 0 <= i < |items| => (k, items[i]))
  }

  /** The builder after one entry of the `forEach`. */
  function AddEntry(ps: seq<Pair>, e: Entry): seq<Pair> {
    match e.1
    case Missing => ps
    case Many(items) => ps + ItemPairs(e.0, items)
    case Single(text) => SetPair(ps, e.0, text)
  }

  /** The builder after the `forEach` over the entries, in `Object.entries` order. */
  function Pairs(entries: seq<Entry>): seq<Pair> {
    if entries == [] then []
    else AddEntry(Pairs(entries[..|entries| - 1]), entries[|entries| - 1])
  }

  // ------------------------------------------------------------ form encoding

  /** An upper-case hexadecimal digit. */
  predicate IsHex(c: char) {
    ('0' <= c <= '9') || ('A' <= c <= 'F')
  }

  function HexDigit(d: nat): (c: char)
    requires d < 16
    ensures IsHex(c)
    ensures d < 10 <==> c <= '9'
  {
    if d < 10 then ('0' as int + d) as char else ('A' as int + d - 10) as char
  }

  /** The UTF-8 bytes of a Unicode scalar value. */
  function Utf8(c: char): (r: seq<nat>)
    ensures 1 <= |r| <= 4
    ensures forall i | 0 <= i < |r| :: r[i] < 256
    ensures |r| == 1 <==> (c as int) < 0x80
    ensures |r| == 1 ==> r[0] == c as int
  {
    var cp := c as int;
    if cp < 0x80 then [cp]
    else if cp < 0x800 then [0xC0 + cp / 64, 0x80 + cp % 64]
    else if cp < 0x10000 then [0xE0 + cp / 4096, 0x80 + cp / 64 % 64, 0x80 + cp % 64]
    else [0xF0 + cp / 262144, 0x80 + cp / 4096 % 64, 0x80 + cp / 64 % 64, 0x80 + cp % 64]
  }

  function PercentBytes(bytes: seq<nat>): (r: string)
    requires forall i | 0 <= i < |bytes| :: bytes[i] < 256
    ensures |r| == 3 * |bytes|
    ensures forall i | 0 <= i < |r| :: r[i] == '%' || IsHex(r[i])
  {
    if bytes == [] then []
    else ['%', HexDigit(bytes[0] / 16), HexDigit(bytes[0] % 16)] + PercentBytes(bytes[1..])
  }

  /** Byte `i` becomes the three characters from `3 * i` on: '%', then its high and low hex digit. */
  lemma {:induction false} PercentBytesDigits(bytes: seq<nat>, i: nat)
    requires forall k | 0 <= k < |bytes| :: bytes[k] < 256
    requires i < |bytes|
    ensures PercentBytes(bytes)[3 * i..3 * i + 3] == ['%', HexDigit(bytes[i] / 16), HexDigit(bytes[i] % 16)]
  {
    var head := ['%', HexDigit(bytes[0] / 16), HexDigit(bytes[0] % 16)];
    var rest := PercentBytes(bytes[1..]);
    assert PercentBytes(bytes) == head + rest;
    if i > 0 {
      PercentBytesDigits(bytes[1..], i - 1);
      assert (head + rest)[3 * i..3 * i + 3] == rest[3 * (i - 1)..3 * (i - 1) + 3];
    }
  }

  /** The characters the form serializer leaves as they are. */
  predicate Unreserved(c: char) {
    ('a' <= c <= 'z') || ('A' <= c <= 'Z') || ('0' <= c <= '9') || c == '*' || c == '-' || c == '.' || c == '_'
  }

  /** What the serializer's output is made of: unreserved characters, '+' and '%'. */
  predicate FormSafe(c: char) {
    Unreserved(c) || c == '+' || c == '%'
  }

  /** The application/x-www-form-urlencoded serialization of one character. */
  function EncodeChar(c: char): (r: string)
    ensures r != []
    ensures forall x | x in r :: FormSafe(x)
    ensures Unreserved(c) ==> r == [c]
    ensures c == ' ' ==> r == "+"
    ensures !Unreserved(c) && c != ' ' ==> r == PercentBytes(Utf8(c))
  {
    if Unreserved(c) then [c]
    else if c == ' ' then "+"
    else
      var r := PercentBytes(Utf8(c));
      assert forall i | 0 <= i < |r| :: FormSafe(r[i]);
      r
  }

  /** The serializer applied to a name or a value. */
  function Encode(s: string): (r: string)
    ensures forall x | x in r :: FormSafe(x)
    ensures '&' !in r && '=' !in r
  {
    if s == [] then [] else EncodeChar(s[0]) + Encode(s[1..])
  }

  function EncodePair(p: Pair): (r: string)
    ensures '&' !in r
  {
    Encode(p.0) + "=" + Encode(p.1)
  }

  /** `URLSearchParams.toString()`: the encoded pairs joined by '&'. */
  function Serialize(ps: seq<Pair>): (r: string)
    ensures r == [] <==> ps == []
  {
    if ps == [] then []
    else if |ps| == 1 then EncodePair(ps[0])
    else EncodePair(ps[0]) + "&" + Serialize(ps[1..])
  }

  /** The result of `toQuery`: '' for absent parameters or no pairs, else '?' and the serialized pairs. */
  function QueryString(params: Option<seq<Entry>>): string {
    if params.None? then ""
    else
      var s := Serialize(Pairs(params.value));
      if s != "" then "?" + s else ""
  }

  /** `toQuery`: the loop over the entries, adding each to the builder. */
  method ToQuery(params: Option<seq<Entry>>) returns (r: string)
    ensures r == QueryString(params)
  {
    if params.None? {
      return "";
    }
    var entries := params.value;
    var usp: seq<Pair> := [];
    var i := 0;
    while i < |entries|
      invariant 0 <= i <= |entries|
      invariant usp == Pairs(entries[..i])
    {
      assert entries[..i + 1][..i] == entries[..i];
      var (k, v) := entries[i];
      match v {
      case Missing =>
      case Many(items) =>
        var j := 0;
        while j < |items|
          invariant 0 <= j <= |items|
          invariant usp == Pairs(entries[..i]) + ItemPairs(k, items[..j])
        {
          assert ItemPairs(k, items[..j + 1]) == ItemPairs(k, items[..j]) + [(k, items[j])];
          usp := usp + [(k, items[j])];
          j := j + 1;
        }
        assert items[..|items|] == items;
      case Single(text) =>
        usp := SetPair(usp, k, text);
      }
      i := i + 1;
    }
    assert entries[..|entries|] == entries;
    var s := Serialize(usp);
    r := if s != "" then "?" + s else "";
  }

  // ------------------------------------------------------------ what the builder holds

  /** The pairs an entry contributes on its own. */
  function EntryPairs(e: Entry): seq<Pair> {
    match e.1
    case Missing => []
    case Single(text) => [(e.0, text)]
    case Many(items) => ItemPairs(e.0, items)
  }

  /** Each entry's pairs, one entry after the other. */
  function Concat(entries: seq<Entry>): seq<Pair> {
    if entries == [] then [] else Concat(entries[..|entries| - 1]) + EntryPairs(entries[|entries| - 1])
  }

  /** The keys of an object are distinct. */
  predicate DistinctKeys(entries: seq<Entry>) {
    forall i, j | 0 <= i < j < |entries| :: entries[i].0 != entries[j].0
  }

  /** Every name in the builder is the key of an entry added so far. */
  lemma {:induction false} PairNames(entries: seq<Entry>)
    ensures forall p | p in Pairs(entries) :: exists i | 0 <= i < |entries| :: entries[i].0 == p.0
  {
    if entries != [] {
      var init, e := entries[..|entries| - 1], entries[|entries| - 1];
      PairNames(init);
      var ps := Pairs(init);
      forall p | p in Pairs(entries) ensures exists i | 0 <= i < |entries| :: entries[i].0 == p.0 {
        if p.0 != e.0 {
          assert p in ps by {
            match e.1
            case Missing =>
            case Many(items) =>
              var m :| 0 <= m < |ps + ItemPairs(e.0, items)| && (ps + ItemPairs(e.0, items))[m] == p;
            case Single(text) =>
              WithoutMembers(SetPair(ps, e.0, text), e.0, p);
              WithoutMembers(ps, e.0, p);
          }
          var i :| 0 <= i < |init| && init[i].0 == p.0;
          assert entries[i] == init[i];
        } else {
          assert entries[|entries| - 1].0 == p.0;
        }
      }
    }
  }

  /** A pair not named `k` is in the sequence exactly when it survives `Without`. */
  lemma {:induction false} WithoutMembers(ps: seq<Pair>, k: string, p: Pair)
    requires p.0 != k
    ensures p in ps <==> p in Without(ps, k)
  {
    if ps != [] {
      WithoutMembers(ps[1..], k, p);
      assert ps == [ps[0]] + ps[1..];
    }
  }

  /**
   * Because an object's keys are distinct, `set` never meets an earlier pair
   * of its name: the query holds every non-null entry's pairs, entry by entry
   * and, for arrays, element by element.
   */
  lemma {:induction false} DistinctKeysConcat(entries: seq<Entry>)
    requires DistinctKeys(entries)
    ensures Pairs(entries) == Concat(entries)
  {
    if entries != [] {
      var init, e := entries[..|entries| - 1], entries[|entries| - 1];
      assert DistinctKeys(init);
      DistinctKeysConcat(init);
      if e.1.Single? {
        PairNames(init);
        forall p | p in Pairs(init) ensures p.0 != e.0 {
          var i :| 0 <= i < |init| && init[i].0 == p.0;
          assert entries[i] == init[i];
        }
      }
    }
  }

  /** The query string is empty exactly when the parameters are absent or no entry contributes a pair. */
  lemma {:induction false} EmptyQuery(params: Option<seq<Entry>>)
    ensures QueryString(params) == "" <==>
      params.None? || forall i | 0 <= i < |params.value| :: EntryPairs(params.value[i]) == []
  {
    if params.Some? {
      NoPairs(params.value);
    }
  }

  lemma {:induction false} NoPairs(entries: seq<Entry>)
    ensures Pairs(entries) == [] <==> forall i | 0 <= i < |entries| :: EntryPairs(entries[i]) == []
  {
    if entries != [] {
      var init, e := entries[..|entries| - 1], entries[|entries| - 1];
      NoPairs(init);
      var ps := Pairs(init);
      assert Pairs(entries) == [] <==> ps == [] && EntryPairs(e) == [] by {
        match e.1
        case Missing =>
        case Many(items) =>
        case Single(text) =>
          assert ValuesOf(SetPair(ps, e.0, text), e.0) == [text];
      }
      assert forall i | 0 <= i < |init| :: init[i] == entries[i];
    }
  }

  // ------------------------------------------------------------ reading the query back

  /** Splits `s` at every `sep`, as `String.prototype.split` does. */
  function Split(s: string, sep: char): (r: seq<string>)
    ensures |r| >= 1
  {
    if s == [] then [[]]
    else
      var rest := Split(s[1..], sep);
      if s[0] == sep then [[]] + rest else [[s[0]] + rest[0]] + rest[1..]
  }

  lemma {:induction false} SplitNoSeparator(s: string, sep: char)
    requires sep !in s
    ensures Split(s, sep) == [s]
  {
    if s != [] {
      SplitNoSeparator(s[1..], sep);
      assert [s[0]] + s[1..] == s;
    }
  }

  lemma {:induction false} SplitAtSeparator(a: string, sep: char, b: string)
    requires sep !in a
    ensures Split(a + [sep] + b, sep) == [a] + Split(b, sep)
  {
    if a == [] {
      assert a + [sep] + b == [sep] + b;
      assert ([sep] + b)[1..] == b;
    } else {
      SplitAtSeparator(a[1..], sep, b);
      assert (a + [sep] + b)[1..] == a[1..] + [sep] + b;
      assert [a[0]] + a[1..] == a;
    }
  }

  /** An encoded pair splits at '=' into its encoded name and value. */
  lemma EncodedPairSplits(p: Pair)
    ensures Split(EncodePair(p), '=') == [Encode(p.0), Encode(p.1)]
  {
    SplitAtSeparator(Encode(p.0), '=', Encode(p.1));
    SplitNoSeparator(Encode(p.1), '=');
  }

  /** The encoded pairs, in order. */
  function EncodedPairs(ps: seq<Pair>): (r: seq<string>)
    ensures |r| == |ps| && forall i | 0 <= i < |ps| :: r[i] == EncodePair(ps[i])
  {
    if ps == [] then [] else [EncodePair(ps[0])] + EncodedPairs(ps[1..])
  }

  /** The serialized query splits back at '&' into the encoded pairs, in order. */
  lemma {:induction false} SerializeSplits(ps: seq<Pair>)
    requires ps != []
    ensures Split(Serialize(ps), '&') == EncodedPairs(ps)
  {
    if |ps| == 1 {
      SplitNoSeparator(EncodePair(ps[0]), '&');
    } else {
      SerializeSplits(ps[1..]);
      var head, tail := EncodePair(ps[0]), Serialize(ps[1..]);
      assert Serialize(ps) == head + ['&'] + tail;
      SplitAtSeparator(head, '&', tail);
    }
  }

  // ------------------------------------------------------------ decoding

  /**
   * A strict application/x-www-form-urlencoded decoder, the reference the
   * serializer is checked against: '+' is a space, "%XY" runs are the UTF-8
   * bytes of one character, anything else stands for itself. A broken
   * escape or byte sequence is `None`.
   */

  /** The value of a hexadecimal digit of either case. */
  function HexValue(c: char): (r: Option<nat>)
    ensures r.Some? ==> r.value < 16
    ensures IsHex(c) ==> r.Some?
  {
    if '0' <= c <= '9' then Some(c as int - '0' as int)
    else if 'A' <= c <= 'F' then Some(c as int - 'A' as int + 10)
    else if 'a' <= c <= 'f' then Some(c as int - 'a' as int + 10)
    else None
  }

  lemma HexRoundTrip(d: nat)
    requires d < 16
    ensures HexValue(HexDigit(d)) == Some(d)
  {
  }

  /** The first `n` "%XY" escapes of `e` as byte values. */
  function PercentRun(e: string, n: nat): (r: Option<seq<nat>>)
    ensures r.Some? ==> |r.value| == n && 3 * n <= |e|
    ensures r.Some? ==> forall i | 0 <= i < n :: r.value[i] < 256
  {
    if n == 0 then Some([])
    else if |e| < 3 || e[0] != '%' || HexValue(e[1]).None? || HexValue(e[2]).None? then None
    else
      match PercentRun(e[3..], n - 1)
      case None => None
      case Some(rest) => Some([HexValue(e[1]).value * 16 + HexValue(e[2]).value] + rest)
  }

  /** The length of a UTF-8 sequence its lead byte announces; 0 for a byte no sequence starts with. */
  function Utf8Length(lead: nat): (n: nat)
    ensures n <= 4
  {
    if lead < 0x80 then 1
    else if 0xC0 <= lead < 0xE0 then 2
    else if 0xE0 <= lead < 0xF0 then 3
    else if 0xF0 <= lead < 0xF8 then 4
    else 0
  }

  /** The smallest scalar value a sequence of `n` bytes may encode: shorter forms are refused. */
  function MinCodePoint(n: nat): int {
    if n <= 1 then 0 else if n == 2 then 0x80 else if n == 3 then 0x800 else 0x1_0000
  }

  /** Every byte after the lead is a continuation byte `10xxxxxx`. */
  predicate Continuations(bytes: seq<nat>) {
    forall i | 1 <= i < |bytes| :: 0x80 <= bytes[i] < 0xC0
  }

  /** The scalar value the payload bits of one to four bytes spell. */
  function CodePoint(bytes: seq<nat>): int
    requires 1 <= |bytes| <= 4
  {
    if |bytes| == 1 then bytes[0]
    else if |bytes| == 2 then (bytes[0] as int - 0xC0) * 64 + (bytes[1] as int - 0x80)
    else if |bytes| == 3 then (bytes[0] as int - 0xE0) * 4096 + (bytes[1] as int - 0x80) * 64 + (bytes[2] as int - 0x80)
    else (bytes[0] as int - 0xF0) * 262144 + (bytes[1] as int - 0x80) * 4096 + (bytes[2] as int - 0x80) * 64 + (bytes[3] as int - 0x80)
  }

  /** The character a complete UTF-8 sequence encodes, or `None` for a malformed one. */
  function Utf8Decode(bytes: seq<nat>): (r: Option<char>)
    ensures r.Some? ==> 1 <= |bytes| <= 4 && Continuations(bytes)
  {
    if bytes == [] || |bytes| != Utf8Length(bytes[0]) || !Continuations(bytes) then None
    else
      var cp := CodePoint(bytes);
      if cp < MinCodePoint(|bytes|) || (0xD800 <= cp < 0xE000) || cp >= 0x11_0000 then None
      else Some(cp as char)
  }

  function Prepend(c: char, rest: Option<string>): (r: Option<string>)
    ensures r.Some? <==> rest.Some?
    ensures r.Some? ==> r.value == [c] + rest.value
  {
    if rest.Some? then Some([c] + rest.value) else None
  }

  /** Decodes one encoded name or value. */
  function DecodeForm(e: string): (r: Option<string>)
    decreases |e|
  {
    if e == [] then Some([])
    else if e[0] == '+' then Prepend(' ', DecodeForm(e[1..]))
    else if e[0] != '%' then Prepend(e[0], DecodeForm(e[1..]))
    else
      match PercentRun(e, 1)
      case None => None
      case Some(lead) =>
        var n := Utf8Length(lead[0]);
        if n == 0 then None
        else
          match PercentRun(e, n)
          case None => None
          case Some(bytes) =>
            match Utf8Decode(bytes)
            case None => None
            case Some(c) => Prepend(c, DecodeForm(e[3 * n..]))
  }

  /** Every scalar value survives its UTF-8 encoding, whose lead byte announces its length. */
  lemma Utf8RoundTrip(c: char)
    ensures Utf8Length(Utf8(c)[0]) == |Utf8(c)|
    ensures Utf8Decode(Utf8(c)) == Some(c)
  {
    var cp := c as int;
    if 0x80 <= cp < 0x800 {
      TwoBytes(cp);
    } else if 0x800 <= cp < 0x1_0000 {
      ThreeBytes(cp);
    } else if 0x1_0000 <= cp {
      FourBytes(cp);
    }
  }

  lemma TwoBytes(cp: int)
    requires 0x80 <= cp < 0x800
    ensures var b := [0xC0 + cp / 64, 0x80 + cp % 64];
            Utf8Length(b[0]) == 2 && Continuations(b) && CodePoint(b) == cp
  {
  }

  lemma ThreeBytes(cp: int)
    requires 0x800 <= cp < 0x1_0000
    ensures var b := [0xE0 + cp / 4096, 0x80 + cp / 64 % 64, 0x80 + cp % 64];
            Utf8Length(b[0]) == 3 && Continuations(b) && CodePoint(b) == cp
  {
    var q, r := cp / 64, cp % 64;
    assert cp == q * 64 + r;
    assert q / 64 == cp / 4096;
    assert q == q / 64 * 64 + q % 64;
  }

  lemma FourBytes(cp: int)
    requires 0x1_0000 <= cp < 0x11_0000
    ensures var b := [0xF0 + cp / 262144, 0x80 + cp / 4096 % 64, 0x80 + cp / 64 % 64, 0x80 + cp % 64];
            Utf8Length(b[0]) == 4 && Continuations(b) && CodePoint(b) == cp
  {
    var q, r := cp / 64, cp % 64;
    var q2 := q / 64;
    assert cp == q * 64 + r;
    assert q == q2 * 64 + q % 64;
    assert q2 == cp / 4096;
    assert q2 == q2 / 64 * 64 + q2 % 64;
    assert q2 / 64 == cp / 262144;
  }

  /** The escapes of a byte sequence read back as its first `n` bytes. */
  lemma {:induction false} PercentRunOf(bytes: seq<nat>, rest: string, n: nat)
    requires forall i | 0 <= i < |bytes| :: bytes[i] < 256
    requires n <= |bytes|
    ensures PercentRun(PercentBytes(bytes) + rest, n) == Some(bytes[..n])
  {
    if n > 0 {
      var e := PercentBytes(bytes) + rest;
      var b := bytes[0];
      HexRoundTrip(b / 16);
      HexRoundTrip(b % 16);
      assert e[0] == '%' && e[1] == HexDigit(b / 16) && e[2] == HexDigit(b % 16);
      assert e[3..] == PercentBytes(bytes[1..]) + rest;
      PercentRunOf(bytes[1..], rest, n - 1);
      assert [b] + bytes[1..][..n - 1] == bytes[..n];
    }
  }

  /** Decoding an encoded character followed by more text yields the character, then the decoded rest. */
  lemma DecodeEncodeChar(c: char, rest: string)
    ensures DecodeForm(EncodeChar(c) + rest) == Prepend(c, DecodeForm(rest))
  {
    var e := EncodeChar(c) + rest;
    if Unreserved(c) || c == ' ' {
      assert e[1..] == rest;
    } else {
      var bytes := Utf8(c);
      Utf8RoundTrip(c);
      PercentRunOf(bytes, rest, 1);
      PercentRunOf(bytes, rest, |bytes|);
      assert bytes[..|bytes|] == bytes;
      assert e[3 * |bytes|..] == rest;
    }
  }

  /** Decoding undoes the serializer on every name and value. */
  lemma {:induction false} DecodeEncode(s: string)
    ensures DecodeForm(Encode(s)) == Some(s)
  {
    if s != [] {
      DecodeEncode(s[1..]);
      DecodeEncodeChar(s[0], Encode(s[1..]));
      assert [s[0]] + s[1..] == s;
    }
  }

  /** The text before the first `sep` and the text after it; the whole text and "" when there is none. */
  function SplitFirst(s: string, sep: char): (r: (string, string))
    ensures sep !in r.0
    ensures sep in s ==> r.0 + [sep] + r.1 == s
    ensures sep !in s ==> r == (s, [])
  {
    if s == [] then ([], [])
    else if s[0] == sep then ([], s[1..])
    else
      var rest := SplitFirst(s[1..], sep);
      assert s == [s[0]] + s[1..];
      assert sep in s[1..] ==> [s[0]] + rest.0 + [sep] + rest.1 == s;
      ([s[0]] + rest.0, rest.1)
  }

  /** A name that holds no separator splits off at the separator that follows it. */
  lemma {:induction false} SplitFirstAt(a: string, sep: char, b: string)
    requires sep !in a
    ensures SplitFirst(a + [sep] + b, sep) == (a, b)
  {
    if a == [] {
      assert a + [sep] + b == [sep] + b;
      assert ([sep] + b)[1..] == b;
    } else {
      SplitFirstAt(a[1..], sep, b);
      assert (a + [sep] + b)[1..] == a[1..] + [sep] + b;
      assert [a[0]] + a[1..] == a;
    }
  }

  /** One `name=value` item: split at its first '=' (a missing '=' gives an empty value), both halves decoded. */
  function DecodePair(item: string): Option<Pair> {
    var (name, value) := SplitFirst(item, '=');
    match (DecodeForm(name), DecodeForm(value))
    case (Some(n), Some(v)) => Some((n, v))
    case _ => None
  }

  /** The items in order, empty items skipped. */
  function DecodePairs(items: seq<string>): (r: Option<seq<Pair>>)
  {
    if items == [] then Some([])
    else if items[0] == [] then DecodePairs(items[1..])
    else
      match (DecodePair(items[0]), DecodePairs(items[1..]))
      case (Some(p), Some(ps)) => Some([p] + ps)
      case _ => None
  }

  /** Reads a serialized query back into its pairs. */
  function ParseQuery(q: string): Option<seq<Pair>> {
    DecodePairs(Split(q, '&'))
  }

  /** Every pair survives its encoding. */
  lemma DecodeEncodePair(p: Pair)
    ensures EncodePair(p) != []
    ensures DecodePair(EncodePair(p)) == Some(p)
  {
    SplitFirstAt(Encode(p.0), '=', Encode(p.1));
    DecodeEncode(p.0);
    DecodeEncode(p.1);
  }

  /** The encoded pairs, read back one by one, are the pairs. */
  lemma {:induction false} DecodeEncodedPairs(ps: seq<Pair>)
    ensures DecodePairs(EncodedPairs(ps)) == Some(ps)
  {
    if ps != [] {
      DecodeEncodePair(ps[0]);
      DecodeEncodedPairs(ps[1..]);
      var items := EncodedPairs(ps);
      assert items[0] == EncodePair(ps[0]) && items[1..] == EncodedPairs(ps[1..]);
      assert [ps[0]] + ps[1..] == ps;
    }
  }

  /** The serialized query parses back into exactly the pairs, in order, duplicates included. */
  lemma ParseSerialize(ps: seq<Pair>)
    ensures ParseQuery(Serialize(ps)) == Some(ps)
  {
    if ps == [] {
      assert Split([], '&') == [[]];
    } else {
      SerializeSplits(ps);
      DecodeEncodedPairs(ps);
    }
  }
}
