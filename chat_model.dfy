/**
 * The chat store's state and its synchronous actions, as functions from the
 * state before to the state after: the active thread id, the messages of each
 * thread, the session list and the loading flag. A JavaScript value that can
 * be missing, `null`, `undefined` or falsy where only its truthiness matters
 * is an `Option`.
 */
module ChatModel {
  import opened Common
  import opened Text
  import opened Sorting

  /** A JavaScript id: a string or a number. */
  datatype Ident = StrId(s: string) | NumId(n: int)

  /** `''` and `0` are the falsy ids. */
  predicate Truthy(id: Ident) {
    id != StrId("") && id != NumId(0)
  }

  /** A message's `status`: 'sent', 'sending' or 'error'. */
  datatype Status = Sent | Sending | Failed

  /** Which request a failed answer repeats: none, the text it carries, or the recorded audio. */
  datatype Retry = NoRetry | RetryText(content: string) | RetryAudio(blob: nat)

  /** A message of a thread. */
  datatype ChatMessage = ChatMessage(
    id: Ident,
    role: string,
    kind: string,
    content: Option<string>,
    url: Option<string>,
    ts: int,
    status: Option<Status>,
    retry: Retry,
    refUserId: Option<Ident>,
    error: Option<string>)

  /**
   * The keys an object spread `{ ...m, ...patch }` overrides: `None` leaves a
   * field alone; `Some(None)` sets it to `undefined`.
   */
  datatype Patch = Patch(
    id: Option<Ident>,
    role: Option<string>,
    kind: Option<string>,
    content: Option<Option<string>>,
    ts: Option<int>,
    status: Option<Status>,
    error: Option<Option<string>>)

  function Merge(m: ChatMessage, p: Patch): (r: ChatMessage)
    ensures r.url == m.url && r.retry == m.retry && r.refUserId == m.refUserId
    ensures p.status.Some? ==> r.status == p.status
    ensures p.status.None? ==> r.status == m.status
    ensures p.role.None? ==> r.role == m.role
  {
    m.(id := p.id.GetOr(m.id), role := p.role.GetOr(m.role), kind := p.kind.GetOr(m.kind),
       content := p.content.GetOr(m.content), ts := p.ts.GetOr(m.ts), status := if p.status.Some? then p.status else m.status,
       error := p.error.GetOr(m.error))
  }

  /** A patch that only sets the status. */
  function StatusPatch(s: Status): Patch {
    Patch(None, None, None, None, None, Some(s), None)
  }

  /** An assistant answer that failed and can be retried. */
  predicate Retryable(m: ChatMessage) {
    m.role == "assistant" && m.status == Some(Failed)
  }

  /** A session of the sidebar. */
  datatype Session = Session(
    id: string,
    title: Option<string>,
    characterId: Option<Ident>,
    characterName: Option<string>,
    updatedAt: Option<int>,
    hidden: bool)

  datatype ChatState = ChatState(
    active: string,
    messages: map<string, seq<ChatMessage>>,
    sessions: seq<Session>,
    loading: bool)

  const DefaultThread: string := "default"

  /** The initial state of the store. */
  const Initial: ChatState := ChatState(DefaultThread, map[], [], false)

  // ------------------------------------------------------------- threads

  /** `threadId || activeThreadId`. */
  function ThreadOr(st: ChatState, threadId: Option<string>): string {
    if threadId.Some? && threadId.value != "" then threadId.value else st.active
  }

  /** `messagesByThread[id] || []`. */
  function Thread(st: ChatState, id: string): seq<ChatMessage> {
    if id in st.messages then st.messages[id] else []
  }

  /** `st'` differs from `st` at most in the messages of thread `id`. */
  predicate OnlyThreadChanged(st: ChatState, st': ChatState, id: string) {
    st'.(messages := st'.messages - {id}) == st.(messages := st.messages - {id})
  }

  /** Two states whose messages agree outside thread `id` show the same messages in every other thread. */
  lemma ThreadsAgree(st: ChatState, st': ChatState, id: string, t: string)
    requires st'.messages - {id} == st.messages - {id} && t != id
    ensures Thread(st', t) == Thread(st, t)
  {
    assert t in st.messages <==> t in st.messages - {id};
    assert t in st'.messages <==> t in st'.messages - {id};
    if t in st.messages {
      assert (st.messages - {id})[t] == st.messages[t];
      assert (st'.messages - {id})[t] == st'.messages[t];
    }
  }

  /** `getMessages`. */
  function GetMessages(st: ChatState, threadId: Option<string>): seq<ChatMessage> {
    Thread(st, ThreadOr(st, threadId))
  }

  /** `setMessages`: the thread now holds exactly the given messages; nothing else changes. */
  function SetMessages(st: ChatState, threadId: Option<string>, messages: seq<ChatMessage>): (r: ChatState)
    ensures Thread(r, ThreadOr(st, threadId)) == messages
    ensures OnlyThreadChanged(st, r, ThreadOr(st, threadId))
  {
    st.(messages := st.messages[ThreadOr(st, threadId) := messages])
  }

  /**
   * `appendMessage`: the message goes at the end of the thread, under the id
   * it carries when it has one, otherwise under the fresh id; the id is
   * returned. Earlier messages, other threads and the rest of the state are
   * unchanged.
   */
  function AppendMessage(st: ChatState, threadId: Option<string>, message: ChatMessage, idSupplied: bool, freshId: Ident)
    : (r: (ChatState, Ident))
    ensures r.1 == if idSupplied then message.id else freshId
    ensures var id := ThreadOr(st, threadId);
            && |Thread(r.0, id)| == |Thread(st, id)| + 1
            && Thread(r.0, id)[..|Thread(st, id)|] == Thread(st, id)
            && Thread(r.0, id)[|Thread(st, id)|] == message.(id := r.1)
            && OnlyThreadChanged(st, r.0, id)
  {
    var id := ThreadOr(st, threadId);
    var msgId := if idSupplied then message.id else freshId;
    (st.(messages := st.messages[id := Thread(st, id) + [message.(id := msgId)]]), msgId)
  }

  /** Every message whose id is `targetId` merged with the patch; the others kept. */
  function MergeWhere(s: seq<ChatMessage>, targetId: Ident, patch: Patch): (r: seq<ChatMessage>)
    ensures |r| == |s|
    ensures forall i | 0 <= i < |s| :: r[i] == if s[i].id == targetId then Merge(s[i], patch) else s[i]
  {
    seq(|s|, i requires 0 <= i < |s| => if s[i].id == targetId then Merge(s[i], patch) else s[i])
  }

  /** `replaceMessage`: the thread keeps its length and only the messages with the target id are merged. */
  function ReplaceMessage(st: ChatState, threadId: Option<string>, targetId: Ident, patch: Patch): (r: ChatState)
    ensures var id := ThreadOr(st, threadId);
            && Thread(r, id) == MergeWhere(Thread(st, id), targetId, patch)
            && OnlyThreadChanged(st, r, id)
  {
    var id := ThreadOr(st, threadId);
    st.(messages := st.messages[id := MergeWhere(Thread(st, id), targetId, patch)])
  }

  /** The first message with the given id, as `find` returns it. */
  function FindMessage(s: seq<ChatMessage>, id: Ident): (r: Option<nat>)
    ensures r.None? <==> forall i | 0 <= i < |s| :: s[i].id != id
    ensures r.Some? ==> r.value < |s| && s[r.value].id == id && forall i | 0 <= i < r.value :: s[i].id != id
  {
    if s == [] then None
    else if s[0].id == id then Some(0)
    else
      match FindMessage(s[1..], id)
      case None => None
      case Some(k) => Some(k + 1)
  }

  /** The index of the last retryable message (`[...cur].reverse().findIndex(...)` turned back into an index). */
  function LastRetryable(s: seq<ChatMessage>): (r: Option<nat>)
    ensures r.None? <==> forall i | 0 <= i < |s| :: !Retryable(s[i])
    ensures r.Some? ==> r.value < |s| && Retryable(s[r.value])
    ensures r.Some? ==> forall i | r.value < i < |s| :: !Retryable(s[i])
  {
    if s == [] then None
    else if Retryable(s[|s| - 1]) then Some(|s| - 1)
    else LastRetryable(s[..|s| - 1])
  }

  /** Number of retryable messages. */
  function CountRetryable(s: seq<ChatMessage>): nat {
    if s == [] then 0
    else CountRetryable(s[..|s| - 1]) + (if Retryable(s[|s| - 1]) then 1 else 0)
  }

  /** The invariant the failure paths keep: at most one answer can be retried. */
  predicate AtMostOneRetryable(s: seq<ChatMessage>) {
    CountRetryable(s) <= 1
  }

  lemma {:induction false} CountZero(s: seq<ChatMessage>)
    ensures CountRetryable(s) == 0 <==> forall i | 0 <= i < |s| :: !Retryable(s[i])
  {
    if s != [] {
      CountZero(s[..|s| - 1]);
      assert forall i | 0 <= i < |s| - 1 :: s[..|s| - 1][i] == s[i];
    }
  }

  /** Two distinct retryable messages make the count at least two. */
  lemma {:induction false} CountTwo(s: seq<ChatMessage>, i: nat, j: nat)
    requires i < j < |s| && Retryable(s[i]) && Retryable(s[j])
    ensures CountRetryable(s) >= 2
  {
    var init := s[..|s| - 1];
    if j < |s| - 1 {
      assert init[i] == s[i] && init[j] == s[j];
      CountTwo(init, i, j);
    } else {
      assert init[i] == s[i];
      CountZero(init);
    }
  }

  lemma CountAppend(s: seq<ChatMessage>, m: ChatMessage)
    ensures CountRetryable(s + [m]) == CountRetryable(s) + (if Retryable(m) then 1 else 0)
  {
    assert (s + [m])[..|s|] == s;
  }

  // ------------------------------------------------------------ sessions

  /** Every session with the given id changed by `f`; the others kept. */
  function UpdateSessions(sessions: seq<Session>, id: string, f: Session -> Session): (r: seq<Session>)
    ensures |r| == |sessions|
    ensures forall i | 0 <= i < |sessions| :: r[i] == if sessions[i].id == id then f(sessions[i]) else sessions[i]
  {
    seq(|sessions|, i requires 0 <= i < |sessions| => if sessions[i].id == id then f(sessions[i]) else sessions[i])
  }

  /** `renameSession`: only the titles of the sessions with that id change. */
  function RenameSession(st: ChatState, id: string, title: string): (r: ChatState)
    ensures r.active == st.active && r.messages == st.messages && r.loading == st.loading
    ensures |r.sessions| == |st.sessions|
    ensures forall i | 0 <= i < |st.sessions| ::
      r.sessions[i] == if st.sessions[i].id == id then st.sessions[i].(title := Some(title)) else st.sessions[i]
  {
    st.(sessions := UpdateSessions(st.sessions, id, (s: Session) => s.(title := Some(title))))
  }

  /** The sessions with that id stamped with the time and shown in the list. */
  function Reveal(st: ChatState, id: string, now: int): (r: ChatState)
    ensures r.active == st.active && r.messages == st.messages && r.loading == st.loading
    ensures |r.sessions| == |st.sessions|
    ensures forall i | 0 <= i < |st.sessions| ::
      r.sessions[i] == if st.sessions[i].id == id then st.sessions[i].(updatedAt := Some(now), hidden := false) else st.sessions[i]
  {
    st.(sessions := UpdateSessions(st.sessions, id, (s: Session) => s.(updatedAt := Some(now), hidden := false)))
  }

  /** `a || b` on strings that may be missing. */
  function Or(a: Option<string>, b: Option<string>): Option<string> {
    if a.Some? && a.value != "" then a else b
  }

  /**
   * `createSession`: a hidden session with id "s_" followed by the time is
   * put first and made active with an empty thread; its title is the title,
   * else the character name, else ''.
   */
  function CreateSession(st: ChatState, title: Option<string>, characterId: Option<Ident>, characterName: Option<string>, now: int)
    : (r: (ChatState, string))
    ensures r.1 == "s_" + LongToString(now)
    ensures r.0.active == r.1 && Thread(r.0, r.1) == [] && OnlyThreadChanged(st.(active := r.1, sessions := r.0.sessions), r.0, r.1)
    ensures |r.0.sessions| == |st.sessions| + 1 && r.0.sessions[1..] == st.sessions
    ensures var s := r.0.sessions[0];
            && s.id == r.1 && s.hidden && s.updatedAt == Some(now)
            && s.title == Some(Or(title, characterName).GetOr(""))
  {
    var id := "s_" + LongToString(now);
    var session := Session(id, Some(Or(title, characterName).GetOr("")),
                           if characterId.Some? && Truthy(characterId.value) then characterId else None,
                           Or(characterName, None), Some(now), true);
    (st.(sessions := [session] + st.sessions, active := id, messages := st.messages[id := []]), id)
  }

  /** The active id after deleting the active session: the first remaining session's id, else 'default'. */
  function FirstSessionOr(sessions: seq<Session>): string {
    if |sessions| > 0 && sessions[0].id != "" then sessions[0].id else DefaultThread
  }

  /** The filter `deleteSession` keeps sessions by. */
  function OtherThan(id: string): Session -> bool {
    (s: Session) => s.id != id
  }

  /**
   * `deleteSession`: the session and its thread go; the active id moves only
   * when the deleted session was active.
   */
  function DeleteSession(st: ChatState, id: string): (r: ChatState)
    ensures r.sessions == Filter(st.sessions, OtherThan(id))
    ensures forall s | s in r.sessions :: s.id != id && s in st.sessions
    ensures forall s | s in st.sessions && s.id != id :: s in r.sessions
    ensures id !in r.messages && r.messages == st.messages - {id}
    ensures r.active == if st.active == id then FirstSessionOr(r.sessions) else st.active
    ensures r.loading == st.loading
  {
    var rest := Filter(st.sessions, OtherThan(id));
    FilterMembers(st.sessions, OtherThan(id));
    ChatState(if st.active == id then FirstSessionOr(rest) else st.active, st.messages - {id}, rest, st.loading)
  }

  /**
   * `hydrateFromStorage`: the caches replace the messages and sessions, and
   * the first cached session becomes active ('default' when there is none).
   */
  function HydrateFromStorage(st: ChatState, messageCache: map<string, seq<ChatMessage>>, sessionCache: seq<Session>): (r: ChatState)
    ensures r.messages == messageCache && r.sessions == sessionCache && r.loading == st.loading
    ensures r.active != ""
    ensures r.active == DefaultThread || exists s | s in r.sessions :: s.id == r.active
    ensures |sessionCache| > 0 && sessionCache[0].id != "" ==> r.active == sessionCache[0].id
  {
    st.(messages := messageCache, sessions := sessionCache, active := FirstSessionOr(sessionCache))
  }

  /** Renaming twice is renaming once with the last title. */
  lemma RenameTwice(st: ChatState, id: string, first: string, second: string)
    ensures RenameSession(RenameSession(st, id, first), id, second) == RenameSession(st, id, second)
  {
  }

  /** A session created and then deleted leaves the sessions as they were. */
  lemma {:induction false} CreateThenDelete(st: ChatState, title: Option<string>, characterId: Option<Ident>, characterName: Option<string>, now: int)
    requires forall s | s in st.sessions :: s.id != "s_" + LongToString(now)
    ensures var (created, id) := CreateSession(st, title, characterId, characterName, now);
            var r := DeleteSession(created, id);
            && r.sessions == st.sessions
            && r.messages == st.messages - {id}
  {
    var created := CreateSession(st, title, characterId, characterName, now).0;
    var id := "s_" + LongToString(now);
    PrependedSessionFiltered(created.sessions[0], st.sessions, id);
    assert created.sessions == [created.sessions[0]] + st.sessions;
    assert created.messages - {id} == st.messages - {id};
  }

  lemma {:induction false} PrependedSessionFiltered(first: Session, sessions: seq<Session>, id: string)
    requires first.id == id && forall s | s in sessions :: s.id != id
    ensures Filter([first] + sessions, OtherThan(id)) == sessions
  {
    var keep := OtherThan(id);
    forall i | 0 <= i < |sessions| ensures keep(sessions[i]) {
      assert sessions[i] in sessions;
    }
    FilterAll(sessions, keep);
    FilterAppend([first], sessions, keep);
    assert Filter([first], keep) == [];
  }
}
