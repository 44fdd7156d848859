/**
 * The chat store object: its four fields are updated in place by each
 * action, and each action is proved to leave the state its function in
 * `ChatModel` or `ChatActions` describes.
 */
module ChatStore {
  import opened Common
  import opened Text
  import opened Sorting
  import opened ChatModel
  import opened ChatActions

  class Store {
    var active: string
    var messages: map<string, seq<ChatMessage>>
    var sessions: seq<Session>
    var loading: bool

    function State(): ChatState
      reads this
    {
      ChatState(active, messages, sessions, loading)
    }

    constructor()
      ensures State() == Initial
    {
      active := DefaultThread;
      messages := map[];
      sessions := [];
      loading := false;
    }

    method SetMessages(threadId: Option<string>, list: seq<ChatMessage>)
      modifies this
      ensures State() == ChatModel.SetMessages(old(State()), threadId, list)
    {
      var id := if threadId.Some? && threadId.value != "" then threadId.value else active;
      messages := messages[id := list];
    }

    method AppendMessage(threadId: Option<string>, message: ChatMessage, idSupplied: bool, freshId: Ident) returns (msgId: Ident)
      modifies this
      ensures (State(), msgId) == ChatModel.AppendMessage(old(State()), threadId, message, idSupplied, freshId)
    {
      var id := if threadId.Some? && threadId.value != "" then threadId.value else active;
      var cur := if id in messages then messages[id] else [];
      msgId := if idSupplied then message.id else freshId;
      messages := messages[id := cur + [message.(id := msgId)]];
    }

    method ReplaceMessage(threadId: Option<string>, targetId: Ident, patch: Patch)
      modifies this
      ensures State() == ChatModel.ReplaceMessage(old(State()), threadId, targetId, patch)
    {
      var id := if threadId.Some? && threadId.value != "" then threadId.value else active;
      var cur := if id in messages then messages[id] else [];
      messages := messages[id := MergeWhere(cur, targetId, patch)];
    }

    method HydrateFromStorage(messageCache: map<string, seq<ChatMessage>>, sessionCache: seq<Session>)
      modifies this
      ensures State() == ChatModel.HydrateFromStorage(old(State()), messageCache, sessionCache)
    {
      messages := messageCache;
      sessions := sessionCache;
      active := FirstSessionOr(sessionCache);
    }

    method CreateSession(title: Option<string>, characterId: Option<Ident>, characterName: Option<string>, now: int)
      returns (id: string)
      modifies this
      ensures (State(), id) == ChatModel.CreateSession(old(State()), title, characterId, characterName, now)
    {
      id := "s_" + LongToString(now);
      var session := Session(id, Some(Or(title, characterName).GetOr("")),
                             if characterId.Some? && Truthy(characterId.value) then characterId else None,
                             Or(characterName, None), Some(now), true);
      sessions := [session] + sessions;
      active := id;
      messages := messages[id := []];
    }

    method DeleteSession(id: string)
      modifies this
      ensures State() == ChatModel.DeleteSession(old(State()), id)
    {
      ghost var target := ChatModel.DeleteSession(State(), id);
      var rest := Filter(sessions, OtherThan(id));
      messages := messages - {id};
      if active == id {
        active := FirstSessionOr(rest);
      }
      sessions := rest;
      assert State() == target;
    }

    method RenameSession(id: string, title: string)
      modifies this
      ensures State() == ChatModel.RenameSession(old(State()), id, title)
    {
      sessions := ChatModel.RenameSession(State(), id, title).sessions;
    }

    method LoadHistory(threadId: Option<string>, now: int)
      modifies this
      ensures State() == ChatActions.LoadHistory(old(State()), threadId, now)
    {
      var id := if threadId.Some? && threadId.value != "" then threadId.value else active;
      loading := true;
      SetMessages(Some(id), []);
      sessions := Touch(State(), id, now).sessions;
      loading := false;
    }

    method SetActiveThread(threadId: string, now: int)
      modifies this
      ensures State() == ChatActions.SetActiveThread(old(State()), threadId, now)
    {
      var next := if exists s | s in sessions :: s.id == threadId then threadId else active;
      active := next;
      if Thread(State(), next) == [] {
        LoadHistory(Some(next), now);
      }
    }

    /** The `forEach` that appends the replies one by one. */
    method AppendReplies(id: string, replies: seq<ChatMessage>)
      modifies this
      ensures State() == ChatActions.AppendReplies(old(State()), id, replies)
    {
      var i := 0;
      while i < |replies|
        invariant 0 <= i <= |replies|
        invariant State() == ChatActions.AppendReplies(old(State()), id, replies[..i])
      {
        assert replies[..i + 1][..i] == replies[..i];
        var _ := AppendMessage(Some(id), replies[i], true, replies[i].id);
        i := i + 1;
      }
      assert replies[..|replies|] == replies;
    }

    method DemoteLastError(id: string)
      requires id == active
      modifies this
      ensures State() == ChatActions.DemoteLastError(old(State()), id)
    {
      var cur := if id in messages then messages[id] else [];
      var last := LastRetryable(cur);
      if last.Some? {
        ReplaceMessage(Some(id), cur[last.value].id, StatusPatch(Sent));
      }
    }

    method SendText(content: string, sentAt: int, now: int, userId: Ident, errorId: Ident, reply: TextReply)
      returns (threw: bool)
      modifies this
      ensures (State(), threw) == ChatActions.SendText(old(State()), content, sentAt, now, userId, errorId, reply)
    {
      var id := active;
      var wasEmpty := Thread(State(), id) == [];
      var tempId := AppendMessage(Some(id), UserText(content, sentAt), false, userId);
      match reply
      case Answered(response) =>
        var answer := AssistantText(if response.Some? && response.value != "" then response.value else Apology, now);
        AppendReplies(id, [answer]);
        sessions := Reveal(State(), id, now).sessions;
        if wasEmpty {
          RenameSession(id, Take(content, TitleLength));
        }
        threw := false;
      case TextFailed =>
        Fail(id, RetryText(content), tempId, errorId, now);
        threw := true;
    }

    /** The failure handling shared by both sends. */
    method Fail(id: string, retry: Retry, refUserId: Ident, errorId: Ident, now: int)
      requires id == active
      modifies this
      ensures State() == SendFailed(old(State()), id, retry, refUserId, errorId, now)
    {
      DemoteLastError(id);
      var _ := AppendMessage(Some(id), BusyAnswer(retry, refUserId, now), false, errorId);
      sessions := Reveal(State(), id, now).sessions;
    }

    method SendAudio(blob: nat, objectUrl: string, sentAt: int, now: int, userId: Ident, errorId: Ident,
                     asr: AsrReply, voice: VoiceReply) returns (threw: bool)
      modifies this
      ensures (State(), threw) == ChatActions.SendAudio(old(State()), blob, objectUrl, sentAt, now, userId, errorId, asr, voice)
    {
      var id := active;
      var wasEmpty := Thread(State(), id) == [];
      var tempId := AppendMessage(Some(id), UserAudio(objectUrl, sentAt), false, userId);
      if wasEmpty && asr.Recognized? && asr.text.Some? && asr.text.value != "" {
        RenameSession(id, Take(asr.text.value, TitleLength));
      }
      match voice
      case Delivered(list) =>
        AppendReplies(id, VoiceReplies(list, now));
        sessions := Reveal(State(), id, now).sessions;
        threw := false;
      case VoiceFailed =>
        Fail(id, RetryAudio(blob), tempId, errorId, now);
        threw := true;
    }

    method RetryMessage(messageId: Ident, now: int, text: TextReply, voice: VoiceReply) returns (threw: bool)
      modifies this
      ensures (State(), threw) == ChatActions.RetryMessage(old(State()), messageId, now, text, voice)
    {
      var id := active;
      var msgs := Thread(State(), id);
      var found := FindMessage(msgs, messageId);
      if found.None? || !Retryable(msgs[found.value]) {
        return false;
      }
      ReplaceMessage(Some(id), messageId, SendingPatch);
      var replies := RetryReplies(msgs[found.value].retry, text, voice, now);
      if replies.None? {
        ReplaceMessage(Some(id), messageId, FailedPatch);
        return true;
      }
      if |replies.value| > 0 {
        ReplaceMessage(Some(id), messageId, ReplyPatch(replies.value[0]));
        AppendReplies(id, replies.value[1..]);
      } else {
        ReplaceMessage(Some(id), messageId, EmptyPatch);
      }
      sessions := Reveal(State(), id, now).sessions;
      threw := false;
    }
  }
}
