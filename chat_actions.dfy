/**
 * The chat store's asynchronous actions: loading a thread's history,
 * switching threads, sending text or audio, and retrying a failed answer.
 * Each action is one atomic step from the state before to the state after;
 * what the network answered is a parameter, as are the clock readings (one
 * before the request, one after its answer) and the fresh ids. The Boolean
 * result says whether the action rethrew the network error.
 */
module ChatActions {
  import opened Common
  import opened Text
  import opened Sorting
  import opened ChatModel

  const Apology: string := "抱歉，我暂时无法回应，请稍后再试。"
  const BusyRetry: string := "网络繁忙，点击重试"
  const Busy: string := "网络繁忙"
  const Retrying: string := "重试中..."
  const TitleLength: nat := 30

  /** What the text chat request gave: the `response` field of the reply (missing or empty alike), or an error. */
  datatype TextReply = Answered(response: Option<string>) | TextFailed

  /** A message of the voice reply as the backend sends it; falsy fields are `None`. */
  datatype BackendMessage = BackendMessage(id: Option<Ident>, role: string, kind: Option<string>,
                                           content: Option<string>, createTime: Option<int>)

  /** What the voice request gave: the `messages` array of the reply (or none), or an error. */
  datatype VoiceReply = Delivered(messages: Option<seq<BackendMessage>>) | VoiceFailed

  /** What speech recognition gave: the `text` field of an ok reply, or nothing usable. */
  datatype AsrReply = Recognized(text: Option<string>) | AsrFailed

  /** The user's text message (its id is supplied by `appendMessage`). */
  function UserText(content: string, ts: int): ChatMessage {
    ChatMessage(StrId(""), "user", "text", Some(content), None, ts, Some(Sent), NoRetry, None, None)
  }

  /** The user's audio message, shown from its object URL. */
  function UserAudio(url: string, ts: int): ChatMessage {
    ChatMessage(StrId(""), "user", "audio", None, Some(url), ts, Some(Sent), NoRetry, None, None)
  }

  /** An answer of the text chat: id "ai_" followed by the time, no status. */
  function AssistantText(content: string, now: int): ChatMessage {
    ChatMessage(StrId("ai_" + LongToString(now)), "assistant", "text", Some(content), None, now, None, NoRetry, None, None)
  }

  /** A voice reply message as the store keeps it: missing id, type and time are filled in. */
  function FromBackend(m: BackendMessage, now: int): (r: ChatMessage)
    ensures r.status.None? && r.role == m.role && r.content == m.content
  {
    ChatMessage(if m.id.Some? && Truthy(m.id.value) then m.id.value else StrId("msg_" + LongToString(now)),
                m.role, Or(m.kind, Some("text")).GetOr("text"), m.content, None, m.createTime.GetOr(now),
                None, NoRetry, None, None)
  }

  function VoiceReplies(messages: Option<seq<BackendMessage>>, now: int): (r: seq<ChatMessage>)
    ensures forall i | 0 <= i < |r| :: !Retryable(r[i])
  {
    if messages.None? then []
    else seq(|messages.value|, i requires 0 <= i < |messages.value| => FromBackend(messages.value[i], now))
  }

  /** The retryable answer appended when a send fails. */
  function BusyAnswer(retry: Retry, refUserId: Ident, now: int): (r: ChatMessage)
    ensures Retryable(r)
  {
    ChatMessage(StrId(""), "assistant", "text", Some(BusyRetry), None, now, Some(Failed), retry, Some(refUserId), None)
  }

  /** The replies appended one by one, each under its own id (the `forEach` loops). */
  function AppendReplies(st: ChatState, id: string, replies: seq<ChatMessage>): (r: ChatState)
    ensures Thread(r, ThreadOr(st, Some(id))) == Thread(st, ThreadOr(st, Some(id))) + replies
    ensures OnlyThreadChanged(st, r, ThreadOr(st, Some(id)))
    ensures r.active == st.active && r.sessions == st.sessions && r.loading == st.loading
  {
    if replies == [] then st
    else
      var last := replies[|replies| - 1];
      var before := AppendReplies(st, id, replies[..|replies| - 1]);
      SplitLast(replies);
      AppendsOne(before, id, last);
      ConcatAssoc(Thread(st, ThreadOr(st, Some(id))), replies[..|replies| - 1], [last]);
      AppendMessage(before, Some(id), last, true, last.id).0
  }

  lemma SplitLast<T>(s: seq<T>)
    requires s != []
    ensures s == s[..|s| - 1] + [s[|s| - 1]]
  {
  }

  lemma ConcatAssoc<T>(a: seq<T>, b: seq<T>, c: seq<T>)
    ensures (a + b) + c == a + (b + c)
  {
  }

  /** Appending a reply with its own id puts exactly that reply at the end of the thread. */
  lemma AppendsOne(st: ChatState, id: string, m: ChatMessage)
    ensures var tid := ThreadOr(st, Some(id));
            Thread(AppendMessage(st, Some(id), m, true, m.id).0, tid) == Thread(st, tid) + [m]
  {
    var tid := ThreadOr(st, Some(id));
    var t := Thread(AppendMessage(st, Some(id), m, true, m.id).0, tid);
    assert t == t[..|Thread(st, tid)|] + [t[|Thread(st, tid)|]];
  }

  /** The sessions with that id stamped with the time. */
  function Touch(st: ChatState, id: string, now: int): (r: ChatState)
    ensures r.active == st.active && r.messages == st.messages && r.loading == st.loading
    ensures |r.sessions| == |st.sessions|
    ensures forall i | 0 <= i < |st.sessions| ::
      r.sessions[i] == if st.sessions[i].id == id then st.sessions[i].(updatedAt := Some(now)) else st.sessions[i]
  {
    st.(sessions := UpdateSessions(st.sessions, id, (s: Session) => s.(updatedAt := Some(now))))
  }

  /**
   * The most recent retryable answer of the thread (if any) set to 'sent',
   * through `replaceMessage` on its id, so that only the answer about to be
   * added can be retried.
   */
  function DemoteLastError(st: ChatState, id: string): (r: ChatState)
    requires id == st.active
    ensures LastRetryable(Thread(st, id)).None? ==> r == st
    ensures LastRetryable(Thread(st, id)).Some? ==>
      r == ReplaceMessage(st, Some(id), Thread(st, id)[LastRetryable(Thread(st, id)).value].id, StatusPatch(Sent))
    ensures |Thread(r, id)| == |Thread(st, id)| && OnlyThreadChanged(st, r, id)
    ensures AtMostOneRetryable(Thread(st, id)) ==> CountRetryable(Thread(r, id)) == 0
  {
    var cur := Thread(st, id);
    match LastRetryable(cur)
    case None =>
      CountZero(cur);
      st
    case Some(i) =>
      DemotedNoneLeft(cur, i);
      ReplaceMessage(st, Some(id), cur[i].id, StatusPatch(Sent))
  }

  lemma DemotedNoneLeft(cur: seq<ChatMessage>, i: nat)
    requires i < |cur| && Retryable(cur[i])
    ensures AtMostOneRetryable(cur) ==> CountRetryable(MergeWhere(cur, cur[i].id, StatusPatch(Sent))) == 0
  {
    if !AtMostOneRetryable(cur) { return; }
    var after := MergeWhere(cur, cur[i].id, StatusPatch(Sent));
    forall j | 0 <= j < |cur| ensures !Retryable(after[j]) {
      if cur[j].id != cur[i].id && Retryable(cur[j]) {
        if j < i { CountTwo(cur, j, i); } else { CountTwo(cur, i, j); }
      }
    }
    CountZero(after);
  }

  // ----------------------------------------------------------- loadHistory

  /**
   * `loadHistory`, as written: the store's own `get` shadows the HTTP helper,
   * so no request is made and the thread is reset to empty; the session's
   * time is updated and loading ends.
   */
  function LoadHistory(st: ChatState, threadId: Option<string>, now: int): (r: ChatState)
    ensures Thread(r, ThreadOr(st, threadId)) == [] && !r.loading && r.active == st.active
    ensures r.messages - {ThreadOr(st, threadId)} == st.messages - {ThreadOr(st, threadId)}
    ensures r.sessions == Touch(st, ThreadOr(st, threadId), now).sessions
  {
    var id := ThreadOr(st, threadId);
    var s1 := SetMessages(st, Some(id), []);
    Touch(s1, id, now).(loading := false)
  }

  /**
   * `setActiveThread`: switches only to an id some session has; if the
   * thread switched to shows no messages, its history is loaded.
   */
  function SetActiveThread(st: ChatState, threadId: string, now: int): (r: ChatState)
    ensures r.active == if exists s | s in st.sessions :: s.id == threadId then threadId else st.active
  {
    var next := if exists s | s in st.sessions :: s.id == threadId then threadId else st.active;
    var s1 := st.(active := next);
    if Thread(s1, next) == [] then LoadHistory(s1, Some(next), now) else s1
  }

  /** Switching threads never changes what any thread shows. */
  lemma SwitchingKeepsThreads(st: ChatState, threadId: string, now: int, t: string)
    ensures Thread(SetActiveThread(st, threadId, now), t) == Thread(st, t)
  {
    var r := SetActiveThread(st, threadId, now);
    if t != r.active {
      ThreadsAgree(st, r, r.active, t);
    }
  }

  // -------------------------------------------------------------- sendText

  /** `sendText` after a reply: the answer is appended, the session shown, and a first message names the session. */
  function TextAnswered(s1: ChatState, id: string, content: string, wasEmpty: bool, response: Option<string>, now: int): ChatState {
    var answer := AssistantText(if response.Some? && response.value != "" then response.value else Apology, now);
    var s2 := Reveal(AppendReplies(s1, id, [answer]), id, now);
    if wasEmpty then RenameSession(s2, id, Take(content, TitleLength)) else s2
  }

  /** A failed send: the last retryable answer demoted, a retryable busy answer appended, the session shown. */
  function SendFailed(s1: ChatState, id: string, retry: Retry, refUserId: Ident, errorId: Ident, now: int): ChatState
    requires id == s1.active
  {
    var s2 := AppendMessage(DemoteLastError(s1, id), Some(id), BusyAnswer(retry, refUserId, now), false, errorId).0;
    Reveal(s2, id, now)
  }

  /**
   * `sendText` into the active thread: the user's message (fresh id `userId`,
   * time `sentAt`), then either the answer or the failure handling.
   */
  function SendText(st: ChatState, content: string, sentAt: int, now: int, userId: Ident, errorId: Ident, reply: TextReply)
    : (r: (ChatState, bool))
    ensures r.1 <==> reply.TextFailed?
    ensures r.0.active == st.active && r.0.loading == st.loading
  {
    var id := st.active;
    var s1 := AppendMessage(st, Some(id), UserText(content, sentAt), false, userId).0;
    match reply
    case Answered(response) => (TextAnswered(s1, id, content, Thread(st, id) == [], response, now), false)
    case TextFailed => (SendFailed(s1, id, RetryText(content), userId, errorId, now), true)
  }

  /** The thread after a successful send: the user's message and the answer, appended. */
  lemma SendTextAppendsTwo(st: ChatState, content: string, sentAt: int, now: int, userId: Ident, errorId: Ident, response: Option<string>)
    ensures var r := SendText(st, content, sentAt, now, userId, errorId, Answered(response)).0;
            && Thread(r, st.active) == Thread(st, st.active)
                 + [UserText(content, sentAt).(id := userId),
                    AssistantText(if response.Some? && response.value != "" then response.value else Apology, now)]
            && r.messages - {st.active} == st.messages - {st.active}
  {
  }

  /**
   * The session list after a successful send: the active session is shown
   * and stamped, and takes the first 30 characters of the content as its
   * title only when its thread was empty before.
   */
  lemma SendTextNamesNewThread(st: ChatState, content: string, sentAt: int, now: int, userId: Ident, errorId: Ident, response: Option<string>)
    ensures var r := SendText(st, content, sentAt, now, userId, errorId, Answered(response)).0;
            && |r.sessions| == |st.sessions|
            && forall i | 0 <= i < |st.sessions| ::
                 r.sessions[i] ==
                   if st.sessions[i].id != st.active then st.sessions[i]
                   else st.sessions[i].(updatedAt := Some(now), hidden := false,
                                        title := if Thread(st, st.active) == [] then Some(Take(content, TitleLength)) else st.sessions[i].title)
  {
  }

  /**
   * A failed send leaves exactly one retryable answer when there was at most
   * one before: the new busy answer at the end, which repeats the text and
   * refers to the user's message.
   */
  lemma {:induction false} SendTextFailureLeavesOneRetry(st: ChatState, content: string, sentAt: int, now: int, userId: Ident, errorId: Ident)
    requires AtMostOneRetryable(Thread(st, st.active))
    ensures var r := SendText(st, content, sentAt, now, userId, errorId, TextFailed);
            var t := Thread(r.0, st.active);
            && r.1
            && |t| == |Thread(st, st.active)| + 2
            && CountRetryable(t) == 1
            && t[|t| - 1] == BusyAnswer(RetryText(content), userId, now).(id := errorId)
  {
    var id := st.active;
    var user := UserText(content, sentAt).(id := userId);
    var s1 := AppendMessage(st, Some(id), UserText(content, sentAt), false, userId).0;
    CountAppend(Thread(st, id), user);
    assert Thread(s1, id) == Thread(st, id) + [user];
    FailureAppendsOne(s1, id, RetryText(content), userId, errorId, now);
  }

  lemma {:induction false} FailureAppendsOne(s1: ChatState, id: string, retry: Retry, refUserId: Ident, errorId: Ident, now: int)
    requires id == s1.active && AtMostOneRetryable(Thread(s1, id))
    ensures var t := Thread(SendFailed(s1, id, retry, refUserId, errorId, now), id);
            && |t| == |Thread(s1, id)| + 1
            && CountRetryable(t) == 1
            && t[|t| - 1] == BusyAnswer(retry, refUserId, now).(id := errorId)
  {
    var s2 := DemoteLastError(s1, id);
    var busy := BusyAnswer(retry, refUserId, now).(id := errorId);
    var s3 := AppendMessage(s2, Some(id), BusyAnswer(retry, refUserId, now), false, errorId).0;
    assert Thread(s3, id) == Thread(s2, id) + [busy];
    CountAppend(Thread(s2, id), busy);
  }

  /** A successful send keeps at most one retryable answer: the appended messages are not retryable. */
  lemma {:induction false} SendTextSuccessKeepsInvariant(st: ChatState, content: string, sentAt: int, now: int, userId: Ident, errorId: Ident, response: Option<string>)
    requires AtMostOneRetryable(Thread(st, st.active))
    ensures AtMostOneRetryable(Thread(SendText(st, content, sentAt, now, userId, errorId, Answered(response)).0, st.active))
  {
    SendTextAppendsTwo(st, content, sentAt, now, userId, errorId, response);
    var user := UserText(content, sentAt).(id := userId);
    var answer := AssistantText(if response.Some? && response.value != "" then response.value else Apology, now);
    CountAppend(Thread(st, st.active), user);
    CountAppend(Thread(st, st.active) + [user], answer);
    assert Thread(st, st.active) + [user, answer] == Thread(st, st.active) + [user] + [answer];
  }

  // ------------------------------------------------------------- sendAudio

  /** The session title from recognition: only for a first message, and only a non-empty recognized text. */
  function AsrTitle(s1: ChatState, id: string, wasEmpty: bool, asr: AsrReply): ChatState {
    if wasEmpty && asr.Recognized? && asr.text.Some? && asr.text.value != "" then
      RenameSession(s1, id, Take(asr.text.value, TitleLength))
    else s1
  }

  /**
   * `sendAudio` into the active thread: the user's audio message, a title
   * from recognition for a first message (kept even if the voice request
   * then fails), then the voice reply's messages or the failure handling.
   */
  function SendAudio(st: ChatState, blob: nat, objectUrl: string, sentAt: int, now: int, userId: Ident, errorId: Ident,
                     asr: AsrReply, voice: VoiceReply): (r: (ChatState, bool))
    ensures r.1 <==> voice.VoiceFailed?
    ensures r.0.active == st.active && r.0.loading == st.loading
  {
    var id := st.active;
    var s1 := AppendMessage(st, Some(id), UserAudio(objectUrl, sentAt), false, userId).0;
    var s2 := AsrTitle(s1, id, Thread(st, id) == [], asr);
    match voice
    case Delivered(messages) => (Reveal(AppendReplies(s2, id, VoiceReplies(messages, now)), id, now), false)
    case VoiceFailed => (SendFailed(s2, id, RetryAudio(blob), userId, errorId, now), true)
  }

  /**
   * After a delivered voice reply the active session is shown and stamped,
   * and takes the first 30 characters of the recognized text as its title
   * only when its thread was empty before and the text is non-empty.
   */
  lemma SendAudioNamesNewThread(st: ChatState, blob: nat, objectUrl: string, sentAt: int, now: int, userId: Ident, errorId: Ident,
                                asr: AsrReply, messages: Option<seq<BackendMessage>>)
    ensures var r := SendAudio(st, blob, objectUrl, sentAt, now, userId, errorId, asr, Delivered(messages)).0;
            && |r.sessions| == |st.sessions|
            && forall i | 0 <= i < |st.sessions| ::
                 r.sessions[i] ==
                   if st.sessions[i].id != st.active then st.sessions[i]
                   else st.sessions[i].(updatedAt := Some(now), hidden := false,
                                        title := if Thread(st, st.active) == [] && asr.Recognized? && asr.text.Some? && asr.text.value != ""
                                                 then Some(Take(asr.text.value, TitleLength)) else st.sessions[i].title)
  {
  }

  /** A delivered voice reply appends the user's audio message then every message of the reply, in order. */
  lemma SendAudioAppends(st: ChatState, blob: nat, objectUrl: string, sentAt: int, now: int, userId: Ident, errorId: Ident,
                         asr: AsrReply, messages: Option<seq<BackendMessage>>)
    ensures var r := SendAudio(st, blob, objectUrl, sentAt, now, userId, errorId, asr, Delivered(messages)).0;
            && Thread(r, st.active) == Thread(st, st.active) + [UserAudio(objectUrl, sentAt).(id := userId)] + VoiceReplies(messages, now)
            && r.messages - {st.active} == st.messages - {st.active}
  {
  }

  /** A failed voice request leaves exactly one retryable answer, which repeats the recording. */
  lemma {:induction false} SendAudioFailureLeavesOneRetry(st: ChatState, blob: nat, objectUrl: string, sentAt: int, now: int,
                                                          userId: Ident, errorId: Ident, asr: AsrReply)
    requires AtMostOneRetryable(Thread(st, st.active))
    ensures var r := SendAudio(st, blob, objectUrl, sentAt, now, userId, errorId, asr, VoiceFailed);
            var t := Thread(r.0, st.active);
            && r.1
            && |t| == |Thread(st, st.active)| + 2
            && CountRetryable(t) == 1
            && t[|t| - 1] == BusyAnswer(RetryAudio(blob), userId, now).(id := errorId)
  {
    var id := st.active;
    var user := UserAudio(objectUrl, sentAt).(id := userId);
    var s1 := AppendMessage(st, Some(id), UserAudio(objectUrl, sentAt), false, userId).0;
    CountAppend(Thread(st, id), user);
    var s2 := AsrTitle(s1, id, Thread(st, id) == [], asr);
    assert Thread(s2, id) == Thread(st, id) + [user];
    FailureAppendsOne(s2, id, RetryAudio(blob), userId, errorId, now);
  }

  // ---------------------------------------------------------- retryMessage

  const SendingPatch: Patch := Patch(None, None, None, Some(Some(Retrying)), None, Some(Sending), Some(None))
  const FailedPatch: Patch := Patch(None, None, None, Some(Some(Busy)), None, Some(Failed), Some(Some(BusyRetry)))
  const EmptyPatch: Patch := Patch(None, None, None, Some(Some("")), None, Some(Sent), None)

  /** `{ ...first, status: 'sent' }`: the keys a reply message carries, and the status. */
  function ReplyPatch(m: ChatMessage): Patch {
    Patch(Some(m.id), Some(m.role), Some(m.kind), Some(m.content), Some(m.ts), Some(Sent), None)
  }

  /**
   * The replies a retry obtains, or `None` when its request failed. A text
   * retry without a `response` gets no reply at all (no apology, unlike
   * `sendText`); an answer with nothing to repeat makes no request.
   */
  function RetryReplies(retry: Retry, text: TextReply, voice: VoiceReply, now: int): Option<seq<ChatMessage>> {
    match retry
    case RetryText(_) =>
      (match text
       case Answered(response) =>
         Some(if response.Some? && response.value != "" then [AssistantText(response.value, now)] else [])
       case TextFailed => None)
    case RetryAudio(_) =>
      (match voice
       case Delivered(messages) => Some(VoiceReplies(messages, now))
       case VoiceFailed => None)
    case NoRetry => Some([])
  }

  /** A retry whose request was made: the busy answer set to sending, then the outcome merged into it. */
  function Retried(st: ChatState, messageId: Ident, replies: Option<seq<ChatMessage>>, now: int): ChatState {
    var id := st.active;
    var s1 := ReplaceMessage(st, Some(id), messageId, SendingPatch);
    match replies
    case None => ReplaceMessage(s1, Some(id), messageId, FailedPatch)
    case Some(rs) =>
      if |rs| > 0 then Reveal(AppendReplies(ReplaceMessage(s1, Some(id), messageId, ReplyPatch(rs[0])), id, rs[1..]), id, now)
      else Reveal(ReplaceMessage(s1, Some(id), messageId, EmptyPatch), id, now)
  }

  /** `retryMessage`: only the first message with the id, when it is a retryable answer, is retried. */
  function RetryMessage(st: ChatState, messageId: Ident, now: int, text: TextReply, voice: VoiceReply): (r: (ChatState, bool))
    ensures r.0.active == st.active
  {
    var msgs := Thread(st, st.active);
    match FindMessage(msgs, messageId)
    case None => (st, false)
    case Some(k) =>
      if !Retryable(msgs[k]) then (st, false)
      else
        var replies := RetryReplies(msgs[k].retry, text, voice, now);
        (Retried(st, messageId, replies, now), replies.None?)
  }

  /** A retry does nothing unless the first message with the id is a retryable answer of the active thread. */
  lemma RetryOnlyRetryable(st: ChatState, messageId: Ident, now: int, text: TextReply, voice: VoiceReply)
    requires var k := FindMessage(Thread(st, st.active), messageId);
             k.None? || !Retryable(Thread(st, st.active)[k.value])
    ensures RetryMessage(st, messageId, now, text, voice) == (st, false)
  {
  }

  /**
   * A successful retry with replies: the first reply is merged into the
   * retried answer in place, with status 'sent', and the other replies are
   * appended after the thread.
   */
  lemma {:induction false} RetryReplacesInPlace(st: ChatState, messageId: Ident, now: int, text: TextReply, voice: VoiceReply)
    requires FindMessage(Thread(st, st.active), messageId).Some?
    requires var msgs := Thread(st, st.active);
             var k := FindMessage(msgs, messageId).value;
             && Retryable(msgs[k])
             && var replies := RetryReplies(msgs[k].retry, text, voice, now);
                replies.Some? && |replies.value| > 0
    ensures var msgs := Thread(st, st.active);
            var k := FindMessage(msgs, messageId).value;
            var rs := RetryReplies(msgs[k].retry, text, voice, now).value;
            var r := RetryMessage(st, messageId, now, text, voice);
            var t := Thread(r.0, st.active);
            && !r.1
            && |t| == |msgs| + |rs| - 1
            && t[k] == Merge(Merge(msgs[k], SendingPatch), ReplyPatch(rs[0]))
            && t[k].status == Some(Sent) && t[k].content == rs[0].content && t[k].id == rs[0].id
            && (forall i | 0 <= i < |msgs| && msgs[i].id != messageId :: t[i] == msgs[i])
            && t[|msgs|..] == rs[1..]
  {
    var msgs := Thread(st, st.active);
    var k := FindMessage(msgs, messageId).value;
    var rs := RetryReplies(msgs[k].retry, text, voice, now).value;
    RetriedWithReplies(st, messageId, rs, now);
  }

  /** The retried thread: both patches merged in place, then the other replies appended. */
  lemma RetriedWithReplies(st: ChatState, messageId: Ident, rs: seq<ChatMessage>, now: int)
    requires |rs| > 0
    ensures Thread(Retried(st, messageId, Some(rs), now), st.active)
         == MergeWhere(MergeWhere(Thread(st, st.active), messageId, SendingPatch), messageId, ReplyPatch(rs[0])) + rs[1..]
  {
    var id := st.active;
    var s1 := ReplaceMessage(st, Some(id), messageId, SendingPatch);
    var s2 := ReplaceMessage(s1, Some(id), messageId, ReplyPatch(rs[0]));
    var s3 := AppendReplies(s2, id, rs[1..]);
    assert Thread(s3, id) == MergeWhere(MergeWhere(Thread(st, id), messageId, SendingPatch), messageId, ReplyPatch(rs[0])) + rs[1..];
  }

  /** A failed retry marks the retried answer as failed again, still retryable, with the busy text. */
  lemma {:induction false} RetryFailureKeepsRetryable(st: ChatState, messageId: Ident, now: int, text: TextReply, voice: VoiceReply)
    requires FindMessage(Thread(st, st.active), messageId).Some?
    requires var msgs := Thread(st, st.active);
             var k := FindMessage(msgs, messageId).value;
             Retryable(msgs[k]) && RetryReplies(msgs[k].retry, text, voice, now).None?
    ensures var msgs := Thread(st, st.active);
            var k := FindMessage(msgs, messageId).value;
            var r := RetryMessage(st, messageId, now, text, voice);
            var t := Thread(r.0, st.active);
            && r.1 && |t| == |msgs| && r.0.sessions == st.sessions
            && Retryable(t[k]) && t[k].content == Some(Busy) && t[k].error == Some(BusyRetry)
            && t[k].retry == msgs[k].retry
  {
    var id := st.active;
    var msgs := Thread(st, id);
    var s1 := ReplaceMessage(st, Some(id), messageId, SendingPatch);
    assert Thread(s1, id) == MergeWhere(msgs, messageId, SendingPatch);
  }
}
