/**
 * The sidebar's session list and its rename handlers: the list is the
 * sessions newest first, without hidden ones, whose title contains the
 * search keyword regardless of case; renaming trims the new title and never
 * stores a blank one.
 */
module Sidebar {
  import opened Common
  import opened Text
  import opened Sorting
  import opened ChatModel

  const NewSessionTitle: string := "新会话"

  /** `updatedAt || 0`. */
  function UpdatedOrZero(s: Session): int {
    if s.updatedAt.Some? then s.updatedAt.value else 0
  }

  /** The comparator `(b.updatedAt || 0) - (a.updatedAt || 0)` as an ascending key. */
  function NewestFirst(s: Session): int {
    -UpdatedOrZero(s)
  }

  predicate Visible(s: Session) {
    !s.hidden
  }

  /** `title || ''`. */
  function TitleOrEmpty(s: Session): string {
    if s.title.Some? then s.title.value else ""
  }

  /** The title contains the keyword, both lower-cased. */
  predicate TitleMatches(keyword: string, s: Session) {
    Contains(AsciiLower(TitleOrEmpty(s)), AsciiLower(keyword))
  }

  function Matching(keyword: string): Session -> bool {
    s => TitleMatches(keyword, s)
  }

  /** Listed: not hidden, and the title matches. */
  predicate Shown(keyword: string, s: Session) {
    Visible(s) && TitleMatches(keyword, s)
  }

  /** `filtered`: a sorted copy, then the two filters. */
  function Filtered(sessions: seq<Session>, keyword: string): (r: seq<Session>)
    ensures forall s :: s in r <==> s in sessions && Shown(keyword, s)
    ensures forall i, j | 0 <= i < j < |r| :: UpdatedOrZero(r[i]) >= UpdatedOrZero(r[j])
    ensures multiset(r) <= multiset(sessions)
  {
    var sorted := SortBy(sessions, NewestFirst);
    var visible := Filter(sorted, Visible);
    var r := Filter(visible, Matching(keyword));
    FilteredFacts(sessions, keyword);
    r
  }

  lemma {:induction false} FilteredFacts(sessions: seq<Session>, keyword: string)
    ensures var r := Filter(Filter(SortBy(sessions, NewestFirst), Visible), Matching(keyword));
            && (forall s :: s in r <==> s in sessions && Shown(keyword, s))
            && SortedBy(r, NewestFirst)
  {
    var sorted := SortBy(sessions, NewestFirst);
    var visible := Filter(sorted, Visible);
    FilterMembers(sorted, Visible);
    FilterMembers(visible, Matching(keyword));
    MultisetMembers(sorted, sessions);
    MultisetMembers(sessions, sorted);
    FilterSorted(sorted, Visible, NewestFirst);
    FilterSorted(visible, Matching(keyword), NewestFirst);
  }

  /** Filtering keeps a sequence sorted. */
  lemma {:induction false} FilterSorted<T>(s: seq<T>, keep: T -> bool, key: T -> int)
    requires SortedBy(s, key)
    ensures SortedBy(Filter(s, keep), key)
  {
    if s != [] {
      FilterSorted(s[1..], keep, key);
      assert forall i | 0 <= i < |s[1..]| :: s[1..][i] == s[i + 1];
      FilterBound(s[1..], keep, key, key(s[0]));
    }
  }

  /** A lower bound on every key survives filtering. */
  lemma {:induction false} FilterBound<T>(s: seq<T>, keep: T -> bool, key: T -> int, lo: int)
    requires forall i | 0 <= i < |s| :: lo <= key(s[i])
    ensures forall i | 0 <= i < |Filter(s, keep)| :: lo <= key(Filter(s, keep)[i])
  {
    if s != [] {
      assert forall i | 0 <= i < |s[1..]| :: s[1..][i] == s[i + 1];
      FilterBound(s[1..], keep, key, lo);
    }
  }

  /** Selecting by key and filtering commute. */
  lemma {:induction false} WithKeyFilter<T>(s: seq<T>, keep: T -> bool, key: T -> int, k: int)
    ensures WithKey(Filter(s, keep), key, k) == Filter(WithKey(s, key, k), keep)
  {
    if s != [] {
      WithKeyFilter(s[1..], keep, key, k);
      var head := if keep(s[0]) then [s[0]] else [];
      WithKeyAppend(head, Filter(s[1..], keep), key, k);
      var sel := if key(s[0]) == k then [s[0]] else [];
      FilterAppend(sel, WithKey(s[1..], key, k), keep);
    }
  }

  lemma {:induction false} WithKeyAppend<T>(a: seq<T>, b: seq<T>, key: T -> int, k: int)
    ensures WithKey(a + b, key, k) == WithKey(a, key, k) + WithKey(b, key, k)
  {
    if a != [] {
      assert (a + b)[1..] == a[1..] + b;
      WithKeyAppend(a[1..], b, key, k);
    } else {
      assert a + b == b;
    }
  }

  /**
   * Sessions with the same time keep their order in the store: those listed
   * with a given time are, in order, the store's sessions with that time that
   * are shown.
   */
  lemma {:induction false} FilteredStable(sessions: seq<Session>, keyword: string, k: int)
    ensures WithKey(Filtered(sessions, keyword), NewestFirst, k)
         == Filter(Filter(WithKey(sessions, NewestFirst, k), Visible), Matching(keyword))
  {
    var sorted := SortBy(sessions, NewestFirst);
    var visible := Filter(sorted, Visible);
    SortStable(sessions, NewestFirst);
    assert WithKey(sorted, NewestFirst, k) == WithKey(sessions, NewestFirst, k);
    WithKeyFilter(sorted, Visible, NewestFirst, k);
    WithKeyFilter(visible, Matching(keyword), NewestFirst, k);
  }

  /** With an empty keyword the list holds exactly the sessions that are not hidden. */
  lemma EmptyKeywordListsAllVisible(sessions: seq<Session>)
    ensures forall s :: s in Filtered(sessions, "") <==> s in sessions && !s.hidden
  {
    var r := Filtered(sessions, "");
    forall s | s in sessions && !s.hidden ensures s in r {
      ContainsEmpty(AsciiLower(TitleOrEmpty(s)));
    }
    forall s | s in r ensures s in sessions {
      assert s in multiset(r);
    }
  }

  lemma {:induction false} LowerIdempotent(s: string)
    ensures AsciiLower(AsciiLower(s)) == AsciiLower(s)
  {
    var once := AsciiLower(s);
    assert forall i | 0 <= i < |s| :: LowerChar(LowerChar(s[i])) == LowerChar(s[i]);
    assert AsciiLower(once) == once;
  }

  /** The search ignores the keyword's case: a lower-cased keyword lists the same sessions. */
  lemma {:induction false} KeywordCaseIgnored(sessions: seq<Session>, keyword: string)
    ensures Filtered(sessions, AsciiLower(keyword)) == Filtered(sessions, keyword)
  {
    LowerIdempotent(keyword);
    var visible := Filter(SortBy(sessions, NewestFirst), Visible);
    FilterCongruent(visible, Matching(AsciiLower(keyword)), Matching(keyword));
  }

  /** `onRename`: the prompt's answer, trimmed, when it is neither cancelled nor blank. */
  function OnRename(answer: Option<string>): (r: Option<string>)
    ensures r.Some? <==> answer.Some? && !AllSpace(answer.value, IsJsSpace)
    ensures r.Some? ==> r.value != "" && r.value == JsTrim(answer.value) && JsTrim(r.value) == r.value
  {
    if answer.Some? && answer.value != "" && JsTrim(answer.value) != "" then
      TrimIdempotent(answer.value, IsJsSpace);
      Some(JsTrim(answer.value))
    else None
  }

  /** The store after the rename prompt. */
  function PromptRename(st: ChatState, id: string, answer: Option<string>): (r: ChatState)
    ensures |r.sessions| == |st.sessions|
    ensures forall i | 0 <= i < |st.sessions| ::
      if st.sessions[i].id == id && OnRename(answer).Some? then
        r.sessions[i] == st.sessions[i].(title := r.sessions[i].title)
        && r.sessions[i].title.Some? && r.sessions[i].title.value != ""
        && JsTrim(r.sessions[i].title.value) == r.sessions[i].title.value
      else r.sessions[i] == st.sessions[i]
  {
    match OnRename(answer)
    case None => st
    case Some(title) => RenameSession(st, id, title)
  }

  /** `EditableTitle.commit`: the trimmed input, or the default title when that is blank. */
  function CommitTitle(value: Option<string>): (r: string)
    ensures r != ""
    ensures (value.None? || AllSpace(value.value, IsJsSpace)) ==> r == NewSessionTitle
    ensures value.Some? && !AllSpace(value.value, IsJsSpace) ==> r == JsTrim(value.value) && JsTrim(r) == r
  {
    var t := JsTrim(if value.Some? then value.value else "");
    if value.Some? then TrimIdempotent(value.value, IsJsSpace); (if t != "" then t else NewSessionTitle)
    else NewSessionTitle
  }

  /** The title the row shows and the editor starts from: `title || '新会话'`. */
  function DisplayTitle(s: Session): string {
    if s.title.Some? && s.title.value != "" then s.title.value else NewSessionTitle
  }

  /** Committing an unedited title writes back a trimmed stored title as it was, and an untitled session gets the default. */
  lemma CommitUnedited(s: Session)
    ensures s.title.Some? && s.title.value != "" && JsTrim(s.title.value) == s.title.value
            ==> CommitTitle(Some(DisplayTitle(s))) == s.title.value
    ensures (s.title.None? || s.title.value == "") ==> DisplayTitle(s) == NewSessionTitle
  {
  }

  /** `onNewSession`: a session titled '新会话'; it stays out of the list, being hidden, until it is first used. */
  lemma {:induction false} NewSessionNotListed(st: ChatState, now: int, keyword: string)
    ensures var (after, id) := CreateSession(st, Some(NewSessionTitle), None, None, now);
            && after.sessions[0].id == id && after.sessions[0].title == Some(NewSessionTitle)
            && after.sessions[0] !in Filtered(after.sessions, keyword)
  {
    var (after, id) := CreateSession(st, Some(NewSessionTitle), None, None, now);
    assert !Shown(keyword, after.sessions[0]);
  }
}
