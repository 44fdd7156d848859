/**
 * The chat-turn orchestrator of the conversation service and its two read
 * queries.
 *
 * The database is an in-memory store: the conversation table is a map from
 * id to row, the message table a sequence whose order stands in for
 * `create_time` (taken as strictly increasing in insertion order, so that
 * ties are resolved by storage order), and the auto-increment counters are
 * explicit. A `Store`
 * value is a snapshot of it; `Turn` says what one transactional `chat` call
 * does to a snapshot, and `ConversationService.Chat` performs the same turn
 * step by step on the fields of the service.
 */
module Conversations {
  import opened Common
  import opened Text
  import opened Sorting
  import opened AiProvider
  import opened Characters

  /** A `conversations` row; `messageCount` is a nullable Java `Integer`. */
  datatype Conversation = Conversation(
    id: int,
    userId: Option<int>,
    characterId: Option<int>,
    title: string,
    messageCount: Option<int>,
    updateTime: int)

  /** A `messages` row. */
  datatype Message = Message(
    id: int,
    conversationId: int,
    role: string,
    content: Option<string>,
    skillUsed: Option<string>)

  datatype Store = Store(
    conversations: map<int, Conversation>,
    messages: seq<Message>,
    nextConversationId: int,
    nextMessageId: int)

  /** The arguments of the five-argument `chat`. */
  datatype ChatRequest = ChatRequest(
    userId: Option<int>,
    conversationId: Option<int>,
    characterId: Option<int>,
    content: string,
    skillId: Option<int>)

  /** What the turn reads besides the store: the character tables and the Zhipu adapter. */
  datatype Services = Services(
    characters: seq<Character>,
    skills: seq<Skill>,
    zhipu: VendorConfig,
    transport: Transport)

  /**
   * The exceptions a turn can end in: the missing character id of a new
   * conversation, and the null dereferences of an unknown conversation, of an
   * unknown character and of a null message count.
   */
  datatype ChatError =
    | MissingCharacterId
    | ConversationNotFound
    | CharacterNotFound
    | MessageCountNull

  const NewConversationTitle: string := "新对话"
  const MissingCharacterIdMessage: string := "创建新对话时必须指定角色ID"
  const HistoryLimit: nat := 10
  const UserRole: string := "user"
  const AssistantRole: string := "assistant"

  /** Auto-increment ids lie below the counters and every message belongs to a stored conversation. */
  predicate StoreValid(st: Store) {
    && 1 <= st.nextConversationId
    && 1 <= st.nextMessageId
    && (forall id | id in st.conversations :: 1 <= id < st.nextConversationId && st.conversations[id].id == id)
    && (forall i | 0 <= i < |st.messages| :: st.messages[i].conversationId in st.conversations)
    && (forall i | 0 <= i < |st.messages| :: 1 <= st.messages[i].id < st.nextMessageId)
  }

  const EmptyStore: Store := Store(map[], [], 1, 1)

  // ------------------------------------------------------------------ history

  function MessagesOf(messages: seq<Message>, conversationId: int): seq<Message> {
    Filter(messages, (m: Message) => m.conversationId == conversationId)
  }

  /** `WHERE conversation_id = ? ORDER BY create_time DESC LIMIT n`. */
  function HistoryQuery(messages: seq<Message>, conversationId: int, limit: nat): seq<Message> {
    Take(Reverse(MessagesOf(messages, conversationId)), limit)
  }

  /** The conversation's newest `limit` messages (fewer if it has fewer), oldest first. */
  function Window(messages: seq<Message>, conversationId: int, limit: nat): (r: seq<Message>)
    ensures |r| <= limit && |r| <= |MessagesOf(messages, conversationId)|
    ensures |r| == limit || r == MessagesOf(messages, conversationId)
  {
    var all := MessagesOf(messages, conversationId);
    var n := if limit < |all| then limit else |all|;
    all[|all| - n..]
  }

  /** `getConversationHistory`: the descending query read back to front with an index loop. */
  method ReadHistory(messages: seq<Message>, conversationId: int, limit: nat) returns (window: seq<Message>)
    ensures window == Window(messages, conversationId, limit)
  {
    var rows := HistoryQuery(messages, conversationId, limit);
    window := [];
    var i := |rows| - 1;
    while i >= 0
      invariant -1 <= i < |rows|
      invariant |window| == |rows| - 1 - i
      invariant forall k | 0 <= k < |window| :: window[k] == rows[|rows| - 1 - k]
      decreases i
    {
      window := window + [rows[i]];
      i := i - 1;
    }
    ReversedByIndex(window, rows);
    WindowIsReversedQuery(messages, conversationId, limit);
  }

  /** The window is the descending query read back to front. */
  lemma WindowIsReversedQuery(messages: seq<Message>, conversationId: int, limit: nat)
    ensures Reverse(HistoryQuery(messages, conversationId, limit)) == Window(messages, conversationId, limit)
  {
    ReverseTakeReverse(MessagesOf(messages, conversationId), limit);
  }

  /** A message as the AI adapter sees it: its role and content, nothing else. */
  function ToAiMessage(m: Message): AiMessage {
    AiMessage(m.role, m.content)
  }

  function ToAiMessages(history: seq<Message>): seq<AiMessage> {
    seq(|history|, i requires 0 <= i < |history| => ToAiMessage(history[i]))
  }

  /** `convertToAiMessages`: one `{role, content}` map per message, same length, same order. */
  method ConvertToAiMessages(history: seq<Message>) returns (r: seq<AiMessage>)
    ensures |r| == |history|
    ensures forall i | 0 <= i < |history| :: r[i].role == history[i].role && r[i].content == history[i].content
    ensures r == ToAiMessages(history)
  {
    r := [];
    for i := 0 to |history|
      invariant |r| == i
      invariant forall j | 0 <= j < i :: r[j] == ToAiMessage(history[j])
    {
      r := r + [ToAiMessage(history[i])];
    }
  }

  // --------------------------------------------------------------------- turn

  /** `getOrCreateConversation`: the stored row, or a fresh one saved for a new conversation. */
  function OpenConversation(st: Store, req: ChatRequest, now: int): (r: Result<(Store, Conversation), ChatError>)
    ensures r.Err? <==> (req.conversationId.Some? && req.conversationId.value !in st.conversations)
                        || (req.conversationId.None? && req.characterId.None?)
    ensures r.Ok? && req.conversationId.Some? ==> r.value.0 == st && r.value.1 == st.conversations[req.conversationId.value]
  {
    if req.conversationId.Some? then
      if req.conversationId.value in st.conversations then Ok((st, st.conversations[req.conversationId.value]))
      else Err(ConversationNotFound)
    else if req.characterId.None? then Err(MissingCharacterId)
    else
      var c := Conversation(st.nextConversationId, req.userId, req.characterId, NewConversationTitle, Some(0), now);
      Ok((st.(conversations := st.conversations[c.id := c], nextConversationId := st.nextConversationId + 1), c))
  }

  function AppendMessage(st: Store, conversationId: int, role: string, content: Option<string>, skillUsed: Option<string>): Store {
    st.(messages := st.messages + [Message(st.nextMessageId, conversationId, role, content, skillUsed)],
        nextMessageId := st.nextMessageId + 1)
  }

  /** The skill the request names, looked up only when a skill id was sent. */
  function RequestedSkill(req: ChatRequest, svc: Services): Option<Skill> {
    if req.skillId.Some? then GetSkillById(svc.skills, req.skillId) else None
  }

  /** The reply and the skill label: the skill path when a skill was found, else the plain chat over the window. */
  function Respond(svc: Services, character: Character, skill: Option<Skill>, content: string,
                   history: seq<Message>): (Option<string>, Option<string>) {
    if skill.Some? then
      (ZhipuChatWithSkill(svc.zhipu, svc.transport, character.systemPrompt, skill.value.skillPrompt, Some(content)),
       skill.value.skillName)
    else (ZhipuChat(svc.zhipu, svc.transport, character.systemPrompt, ToAiMessages(history)), None)
  }

  /** The branch of `chat` that calls the Zhipu adapter: with a skill, or over the converted window. */
  method AskModel(svc: Services, character: Character, skill: Option<Skill>, content: string,
                  history: seq<Message>, aiMessages: seq<AiMessage>) returns (reply: Option<string>, skillUsed: Option<string>)
    requires aiMessages == ToAiMessages(history)
    ensures (reply, skillUsed) == Respond(svc, character, skill, content, history)
  {
    skillUsed := None;
    if skill.Some? {
      reply := ZhipuChatWithSkill(svc.zhipu, svc.transport, character.systemPrompt, skill.value.skillPrompt, Some(content));
      skillUsed := skill.value.skillName;
    } else {
      reply := ZhipuChat(svc.zhipu, svc.transport, character.systemPrompt, aiMessages);
    }
  }

  /** `messageCount + 2` on a Java `Integer` (wrapping at 2^31), and the update stamp. */
  function Counted(conv: Conversation, now: int): Conversation
    requires conv.messageCount.Some?
  {
    conv.(messageCount := Some(Wrap32(conv.messageCount.value + 2)), updateTime := now)
  }

  /** The rest of the turn once the conversation is known; `st` is what a failure restores. */
  function Proceed(st: Store, afterOpen: Store, conv: Conversation, req: ChatRequest, svc: Services, now: int)
    : (Store, Result<Option<string>, ChatError>)
  {
    var withUser := AppendMessage(afterOpen, conv.id, UserRole, Some(req.content), None);
    var character := GetCharacterById(svc.characters, conv.characterId);
    if character.None? then (st, Err(CharacterNotFound))
    else
      Finish(st, afterOpen, conv, req.content, now,
             Respond(svc, character.value, RequestedSkill(req, svc), req.content,
                     Window(withUser.messages, conv.id, HistoryLimit)))
  }

  /** The end of the turn once the model has answered: the two rows, then the count update, or a rollback. */
  function Finish(st: Store, afterOpen: Store, conv: Conversation, content: string, now: int,
                  answer: (Option<string>, Option<string>)): (Store, Result<Option<string>, ChatError>)
  {
    var withUser := AppendMessage(afterOpen, conv.id, UserRole, Some(content), None);
    var withReply := AppendMessage(withUser, conv.id, AssistantRole, answer.0, answer.1);
    if conv.messageCount.None? then (st, Err(MessageCountNull))
    else (withReply.(conversations := withReply.conversations[conv.id := Counted(conv, now)]), Ok(answer.0))
  }

  /**
   * One transactional `chat` call: the store after the call and the outcome.
   * Every failure leaves the store exactly as it was.
   */
  function Turn(st: Store, req: ChatRequest, svc: Services, now: int): (Store, Result<Option<string>, ChatError>) {
    match OpenConversation(st, req, now)
    case Err(e) => (st, Err(e))
    case Ok(pair) => Proceed(st, pair.0, pair.1, req, svc, now)
  }

  // ------------------------------------------------------------------ queries

  /** The stored conversations with ids in `[lo, hi)`, by ascending id. */
  function ConversationRows(conversations: map<int, Conversation>, lo: int, hi: int): (r: seq<Conversation>)
    requires forall id | id in conversations :: conversations[id].id == id
    ensures forall c | c in r :: c.id in conversations && conversations[c.id] == c
    ensures forall id | lo <= id < hi && id in conversations :: conversations[id] in r
    decreases hi - lo
  {
    if lo >= hi then []
    else (if lo in conversations then [conversations[lo]] else []) + ConversationRows(conversations, lo + 1, hi)
  }

  predicate OwnedBy(c: Conversation, userId: Option<int>) {
    userId.Some? && c.userId == userId
  }

  function RecentKey(c: Conversation): int {
    -c.updateTime
  }

  /** `getUserConversations`: the user's conversations, most recently updated first; a null user owns nothing. */
  function GetUserConversations(st: Store, userId: Option<int>): (r: seq<Conversation>)
    requires StoreValid(st)
    ensures forall i, j | 0 <= i < j < |r| :: r[i].updateTime >= r[j].updateTime
    ensures forall i | 0 <= i < |r| :: OwnedBy(r[i], userId)
    ensures forall i | 0 <= i < |r| :: r[i].id in st.conversations && st.conversations[r[i].id] == r[i]
    ensures forall id | id in st.conversations && OwnedBy(st.conversations[id], userId) :: st.conversations[id] in r
  {
    SelectConversations(st.conversations, st.nextConversationId, userId)
  }

  function SelectConversations(conversations: map<int, Conversation>, next: int, userId: Option<int>): (r: seq<Conversation>)
    requires forall id | id in conversations :: 1 <= id < next && conversations[id].id == id
    ensures forall i, j | 0 <= i < j < |r| :: r[i].updateTime >= r[j].updateTime
    ensures forall i | 0 <= i < |r| :: OwnedBy(r[i], userId)
    ensures forall i | 0 <= i < |r| :: r[i].id in conversations && conversations[r[i].id] == r[i]
    ensures forall id | id in conversations && OwnedBy(conversations[id], userId) :: conversations[id] in r
  {
    var rows := ConversationRows(conversations, 1, next);
    var r := Select(rows, c => OwnedBy(c, userId), RecentKey);
    assert forall i, j | 0 <= i < j < |r| :: RecentKey(r[i]) <= RecentKey(r[j]);
    forall i | 0 <= i < |r| ensures r[i].id in conversations && conversations[r[i].id] == r[i] {
      assert r[i] in rows;
    }
    r
  }

  /** `getConversationMessages`: the conversation's messages in creation order; a null id matches nothing. */
  function GetConversationMessages(st: Store, conversationId: Option<int>): (r: seq<Message>)
    ensures forall i | 0 <= i < |r| :: Some(r[i].conversationId) == conversationId
    ensures forall i | 0 <= i < |st.messages| && Some(st.messages[i].conversationId) == conversationId :: st.messages[i] in r
    ensures conversationId.Some? ==> r == MessagesOf(st.messages, conversationId.value)
  {
    if conversationId.None? then
      assert forall i | 0 <= i < |st.messages| :: Some(st.messages[i].conversationId) != conversationId;
      []
    else MessagesOf(st.messages, conversationId.value)
  }

  // ------------------------------------------------------------------- lemmas

  /** A filter that keeps nothing of `s` yields the empty list. */
  lemma {:induction false} MessagesOfNone(messages: seq<Message>, conversationId: int)
    requires forall i | 0 <= i < |messages| :: messages[i].conversationId != conversationId
    ensures MessagesOf(messages, conversationId) == []
  {
    if messages != [] {
      MessagesOfNone(messages[1..], conversationId);
    }
  }

  /** Appending a message extends exactly its own conversation's message list. */
  lemma MessagesOfAppend(messages: seq<Message>, m: Message, conversationId: int)
    ensures MessagesOf(messages + [m], conversationId)
         == MessagesOf(messages, conversationId) + (if m.conversationId == conversationId then [m] else [])
  {
    FilterAppend(messages, [m], (x: Message) => x.conversationId == conversationId);
  }

  /** A new conversation requires a character id: without one the turn fails and nothing is persisted. */
  lemma NewConversationNeedsCharacter(st: Store, req: ChatRequest, svc: Services, now: int)
    requires req.conversationId.None? && req.characterId.None?
    ensures Turn(st, req, svc, now) == (st, Err(MissingCharacterId))
  {
  }

  /** An unknown conversation id fails before any message is written, and nothing is persisted. */
  lemma UnknownConversationFails(st: Store, req: ChatRequest, svc: Services, now: int)
    requires req.conversationId.Some? && req.conversationId.value !in st.conversations
    ensures Turn(st, req, svc, now) == (st, Err(ConversationNotFound))
  {
  }

  /** Every failing turn rolls back completely. */
  lemma FailedTurnChangesNothing(st: Store, req: ChatRequest, svc: Services, now: int)
    ensures Turn(st, req, svc, now).1.Err? ==> Turn(st, req, svc, now).0 == st
  {
  }

  /** The conversation a turn works on: the requested one, or the id the new row receives. */
  function TurnConversationId(st: Store, req: ChatRequest): int {
    if req.conversationId.Some? then req.conversationId.value else st.nextConversationId
  }

  /** A successful turn is the two appends and the count update of `Proceed`, on the conversation it opened. */
  lemma {:induction false} SuccessfulTurnSteps(st: Store, req: ChatRequest, svc: Services, now: int)
    requires StoreValid(st)
    requires Turn(st, req, svc, now).1.Ok?
    ensures OpenConversation(st, req, now).Ok?
    ensures var conv := OpenConversation(st, req, now).value.1;
            var withUser := AppendMessage(OpenConversation(st, req, now).value.0, conv.id, UserRole, Some(req.content), None);
            var character := GetCharacterById(svc.characters, conv.characterId);
            && conv.id == TurnConversationId(st, req)
            && character.Some? && conv.messageCount.Some?
            && var answer := Respond(svc, character.value, RequestedSkill(req, svc), req.content,
                                     Window(withUser.messages, conv.id, HistoryLimit));
               var withReply := AppendMessage(withUser, conv.id, AssistantRole, answer.0, answer.1);
               Turn(st, req, svc, now) == (withReply.(conversations := withReply.conversations[conv.id := Counted(conv, now)]), Ok(answer.0))
  {
    var o := OpenConversation(st, req, now);
    if req.conversationId.Some? {
      assert st.conversations[req.conversationId.value].id == req.conversationId.value;
    }
    assert Turn(st, req, svc, now) == Proceed(st, o.value.0, o.value.1, req, svc, now);
  }

  /**
   * A successful turn appends exactly two messages to the conversation it
   * used: the raw user content without a skill label, then the reply, which
   * is also what the call returns.
   */
  lemma {:induction false} SuccessfulTurnAppendsTwo(st: Store, req: ChatRequest, svc: Services, now: int)
    requires StoreValid(st)
    requires Turn(st, req, svc, now).1.Ok?
    ensures var t := Turn(st, req, svc, now);
            var cid := TurnConversationId(st, req);
            && |t.0.messages| == |st.messages| + 2
            && t.0.messages[..|st.messages|] == st.messages
            && t.0.messages[|st.messages|] == Message(st.nextMessageId, cid, UserRole, Some(req.content), None)
            && t.0.messages[|st.messages| + 1].id == st.nextMessageId + 1
            && t.0.messages[|st.messages| + 1].role == AssistantRole
            && t.0.messages[|st.messages| + 1].conversationId == cid
            && t.0.messages[|st.messages| + 1].content == t.1.value
            && t.0.nextMessageId == st.nextMessageId + 2
  {
    var (afterOpen, conv) := OpenConversation(st, req, now).value;
    assert Turn(st, req, svc, now) == Proceed(st, afterOpen, conv, req, svc, now);
    assert afterOpen.messages == st.messages && afterOpen.nextMessageId == st.nextMessageId;
    assert conv.id == TurnConversationId(st, req) by {
      if req.conversationId.Some? {
        assert st.conversations[req.conversationId.value].id == req.conversationId.value;
      }
    }
    ProceedAppendsTwo(st, afterOpen, conv, req, svc, now);
  }

  /** A successful rest of the turn appends the user message and then the reply. */
  lemma ProceedAppendsTwo(st: Store, afterOpen: Store, conv: Conversation, req: ChatRequest, svc: Services, now: int)
    requires Proceed(st, afterOpen, conv, req, svc, now).1.Ok?
    ensures var p := Proceed(st, afterOpen, conv, req, svc, now);
            var n := |afterOpen.messages|;
            && |p.0.messages| == n + 2
            && p.0.messages[..n] == afterOpen.messages
            && p.0.messages[n] == Message(afterOpen.nextMessageId, conv.id, UserRole, Some(req.content), None)
            && p.0.messages[n + 1].id == afterOpen.nextMessageId + 1
            && p.0.messages[n + 1].role == AssistantRole
            && p.0.messages[n + 1].conversationId == conv.id
            && p.0.messages[n + 1].content == p.1.value
            && p.0.nextMessageId == afterOpen.nextMessageId + 2
  {
  }

  /**
   * A successful turn adds 2 to the count of the conversation it used (a Java
   * `Integer` addition) and stamps its update time; every other stored
   * conversation is unchanged.
   */
  lemma {:induction false} SuccessfulTurnCounts(st: Store, req: ChatRequest, svc: Services, now: int)
    requires StoreValid(st)
    requires Turn(st, req, svc, now).1.Ok?
    ensures var st' := Turn(st, req, svc, now).0;
            var cid := TurnConversationId(st, req);
            && cid in st'.conversations
            && st'.conversations[cid].updateTime == now
            && (req.conversationId.Some? ==>
                  && cid in st.conversations
                  && st.conversations[cid].messageCount.Some?
                  && st'.conversations[cid].messageCount == Some(Wrap32(st.conversations[cid].messageCount.value + 2)))
            && (forall id | id in st.conversations && id != cid :: id in st'.conversations && st'.conversations[id] == st.conversations[id])
  {
    TurnConversations(st, req, svc, now);
    var (afterOpen, conv) := OpenConversation(st, req, now).value;
    assert Turn(st, req, svc, now).0.conversations == afterOpen.conversations[conv.id := Counted(conv, now)];
  }

  /** The conversations after a successful turn: those the opening left, with the used one counted. */
  lemma {:induction false} TurnConversations(st: Store, req: ChatRequest, svc: Services, now: int)
    requires StoreValid(st)
    requires Turn(st, req, svc, now).1.Ok?
    ensures OpenConversation(st, req, now).Ok?
    ensures var (afterOpen, conv) := OpenConversation(st, req, now).value;
            && conv.id == TurnConversationId(st, req)
            && conv.messageCount.Some?
            && Turn(st, req, svc, now).0.conversations == afterOpen.conversations[conv.id := Counted(conv, now)]
            && Turn(st, req, svc, now).0.nextConversationId == afterOpen.nextConversationId
  {
    var (afterOpen, conv) := OpenConversation(st, req, now).value;
    assert Turn(st, req, svc, now) == Proceed(st, afterOpen, conv, req, svc, now);
    if req.conversationId.Some? {
      assert st.conversations[req.conversationId.value].id == req.conversationId.value;
    }
    ProceedCommits(st, afterOpen, conv, req, svc, now);
  }

  /** A successful rest of the turn writes back the counted conversation and keeps the id counter. */
  lemma ProceedCommits(st: Store, afterOpen: Store, conv: Conversation, req: ChatRequest, svc: Services, now: int)
    requires Proceed(st, afterOpen, conv, req, svc, now).1.Ok?
    ensures conv.messageCount.Some?
    ensures Proceed(st, afterOpen, conv, req, svc, now).0.conversations == afterOpen.conversations[conv.id := Counted(conv, now)]
    ensures Proceed(st, afterOpen, conv, req, svc, now).0.nextConversationId == afterOpen.nextConversationId
  {
    var withUser := AppendMessage(afterOpen, conv.id, UserRole, Some(req.content), None);
    var character := GetCharacterById(svc.characters, conv.characterId);
    var answer := Respond(svc, character.value, RequestedSkill(req, svc), req.content,
                          Window(withUser.messages, conv.id, HistoryLimit));
    assert Proceed(st, afterOpen, conv, req, svc, now) == Finish(st, afterOpen, conv, req.content, now, answer);
  }

  /**
   * Without a conversation id, a new conversation owned by the caller, with
   * the requested character and the title "新对话", is created; its count goes
   * from 0 to 2.
   */
  lemma NewConversationShape(st: Store, req: ChatRequest, svc: Services, now: int)
    requires req.conversationId.None? && Turn(st, req, svc, now).1.Ok?
    ensures var st' := Turn(st, req, svc, now).0;
            var cid := st.nextConversationId;
            && st'.conversations.Keys == st.conversations.Keys + {cid}
            && st'.conversations[cid] == Conversation(cid, req.userId, req.characterId, NewConversationTitle, Some(2), now)
            && st'.nextConversationId == cid + 1
  {
    var c := Conversation(st.nextConversationId, req.userId, req.characterId, NewConversationTitle, Some(0), now);
    var afterOpen := st.(conversations := st.conversations[c.id := c], nextConversationId := c.id + 1);
    TurnOpensNew(st, req, svc, now);
    ProceedCommits(st, afterOpen, c, req, svc, now);
  }

  /** Without a conversation id but with a character id, the turn proceeds on a fresh conversation with no messages counted. */
  lemma TurnOpensNew(st: Store, req: ChatRequest, svc: Services, now: int)
    requires req.conversationId.None? && req.characterId.Some?
    ensures var c := Conversation(st.nextConversationId, req.userId, req.characterId, NewConversationTitle, Some(0), now);
            Turn(st, req, svc, now)
              == Proceed(st, st.(conversations := st.conversations[c.id := c], nextConversationId := c.id + 1), c, req, svc, now)
  {
    var c := Conversation(st.nextConversationId, req.userId, req.characterId, NewConversationTitle, Some(0), now);
    var afterOpen := st.(conversations := st.conversations[c.id := c], nextConversationId := c.id + 1);
    assert OpenConversation(st, req, now) == Ok((afterOpen, c));
  }

  /** The skill path runs exactly when a skill id is sent and found; it labels the reply with the skill's name. */
  lemma SkillPathChoice(st: Store, req: ChatRequest, svc: Services, now: int)
    requires Turn(st, req, svc, now).1.Ok?
    ensures var st' := Turn(st, req, svc, now).0;
            var skill := GetSkillById(svc.skills, req.skillId);
            && |st'.messages| >= 2
            && st'.messages[|st'.messages| - 1].skillUsed == (if req.skillId.Some? && skill.Some? then skill.value.skillName else None)
  {
    var (afterOpen, conv) := OpenConversation(st, req, now).value;
    if req.skillId.None? {
      assert RequestedSkill(req, svc) == None;
    }
  }

  /** The window the plain path sends ends with the user message just written, and holds at most 10 messages. */
  lemma {:induction false} WindowEndsWithUserMessage(st: Store, conversationId: int, content: string)
    ensures var st' := AppendMessage(st, conversationId, UserRole, Some(content), None);
            var w := Window(st'.messages, conversationId, HistoryLimit);
            && 1 <= |w| <= HistoryLimit
            && w[|w| - 1] == Message(st.nextMessageId, conversationId, UserRole, Some(content), None)
            && w == MessagesOf(st'.messages, conversationId)[|MessagesOf(st'.messages, conversationId)| - |w|..]
  {
    var m := Message(st.nextMessageId, conversationId, UserRole, Some(content), None);
    MessagesOfAppend(st.messages, m, conversationId);
    var all := MessagesOf(st.messages + [m], conversationId);
    assert all[|all| - 1] == m;
  }

  /**
   * The turn never compares the caller with the conversation's owner: with a
   * conversation id, the user id and the requested character make no
   * difference, since the prompt comes from the conversation's own character.
   */
  lemma ExistingConversationIgnoresCallerAndCharacter(st: Store, req: ChatRequest, svc: Services, now: int,
                                                      otherUser: Option<int>, otherCharacter: Option<int>)
    requires req.conversationId.Some?
    ensures Turn(st, req, svc, now) == Turn(st, req.(userId := otherUser, characterId := otherCharacter), svc, now)
  {
  }

  /** Each stored message count equals the number of stored messages of its conversation. */
  predicate CountsMatch(st: Store) {
    forall id | id in st.conversations :: st.conversations[id].messageCount == Some(|MessagesOf(st.messages, id)|)
  }

  /**
   * A turn on a store whose counts match its messages keeps them matching: the
   * failures restore the store, and success appends two messages to the
   * conversation whose count it raises by 2. The counts must leave room for
   * the 2 below the `Integer` maximum, where the addition would wrap.
   */
  lemma {:induction false} TurnKeepsCounts(st: Store, req: ChatRequest, svc: Services, now: int)
    requires StoreValid(st) && CountsMatch(st)
    requires forall id | id in st.conversations :: |MessagesOf(st.messages, id)| + 2 <= IntMax
    ensures CountsMatch(Turn(st, req, svc, now).0)
  {
    var o := OpenConversation(st, req, now);
    if o.Ok? {
      var (afterOpen, conv) := o.value;
      OpenKeepsCounts(st, req, now);
      var character := GetCharacterById(svc.characters, conv.characterId);
      if character.Some? {
        var withUser := AppendMessage(afterOpen, conv.id, UserRole, Some(req.content), None);
        var answer := Respond(svc, character.value, RequestedSkill(req, svc), req.content,
                              Window(withUser.messages, conv.id, HistoryLimit));
        assert Turn(st, req, svc, now) == Finish(st, afterOpen, conv, req.content, now, answer);
        FinishKeepsCounts(st, afterOpen, conv, req.content, now, answer);
      }
    }
  }

  /** Opening a conversation keeps the counts matching; a new one has no messages yet and a count of 0. */
  lemma OpenKeepsCounts(st: Store, req: ChatRequest, now: int)
    requires StoreValid(st) && CountsMatch(st) && OpenConversation(st, req, now).Ok?
    requires forall id | id in st.conversations :: |MessagesOf(st.messages, id)| + 2 <= IntMax
    ensures var (afterOpen, conv) := OpenConversation(st, req, now).value;
            && CountsMatch(afterOpen)
            && conv.id in afterOpen.conversations && afterOpen.conversations[conv.id] == conv
            && |MessagesOf(afterOpen.messages, conv.id)| + 2 <= IntMax
  {
    if req.conversationId.Some? {
      assert st.conversations[req.conversationId.value].id == req.conversationId.value;
    } else {
      var c := Conversation(st.nextConversationId, req.userId, req.characterId, NewConversationTitle, Some(0), now);
      assert OpenConversation(st, req, now).value == (st.(conversations := st.conversations[c.id := c], nextConversationId := c.id + 1), c);
      MessagesOfNone(st.messages, c.id);
      AddKeepsCounts(st, c);
    }
  }

  /** Storing a conversation under a fresh id with a count of 0 keeps the counts matching. */
  lemma AddKeepsCounts(st: Store, c: Conversation)
    requires CountsMatch(st) && c.messageCount == Some(0) && MessagesOf(st.messages, c.id) == []
    ensures CountsMatch(st.(conversations := st.conversations[c.id := c], nextConversationId := c.id + 1))
  {
    var st' := st.(conversations := st.conversations[c.id := c], nextConversationId := c.id + 1);
    forall id | id in st'.conversations
      ensures st'.conversations[id].messageCount == Some(|MessagesOf(st'.messages, id)|)
    {
      if id != c.id {
        assert st'.conversations[id] == st.conversations[id];
      }
    }
  }

  /** Two messages of conversation `cid` add 2 to its message list and nothing to any other. */
  lemma AppendTwoCounts(messages: seq<Message>, a: Message, b: Message, cid: int, id: int)
    requires a.conversationId == cid && b.conversationId == cid
    ensures |MessagesOf(messages + [a] + [b], id)| == |MessagesOf(messages, id)| + (if id == cid then 2 else 0)
  {
    MessagesOfAppend(messages, a, id);
    MessagesOfAppend(messages + [a], b, id);
  }

  /** Writing the two rows and raising the count by 2 keeps the counts matching. */
  lemma FinishKeepsCounts(st: Store, afterOpen: Store, conv: Conversation, content: string, now: int,
                          answer: (Option<string>, Option<string>))
    requires CountsMatch(afterOpen)
    requires conv.id in afterOpen.conversations && afterOpen.conversations[conv.id] == conv
    requires |MessagesOf(afterOpen.messages, conv.id)| + 2 <= IntMax
    ensures Finish(st, afterOpen, conv, content, now, answer).1.Ok?
    ensures CountsMatch(Finish(st, afterOpen, conv, content, now, answer).0)
  {
    var withUser := AppendMessage(afterOpen, conv.id, UserRole, Some(content), None);
    var withReply := AppendMessage(withUser, conv.id, AssistantRole, answer.0, answer.1);
    var counted := Counted(conv, now);
    var st' := withReply.(conversations := withReply.conversations[conv.id := counted]);
    assert Finish(st, afterOpen, conv, content, now, answer) == (st', Ok(answer.0));
    var a := Message(afterOpen.nextMessageId, conv.id, UserRole, Some(content), None);
    var b := Message(afterOpen.nextMessageId + 1, conv.id, AssistantRole, answer.0, answer.1);
    assert st'.messages == afterOpen.messages + [a] + [b];
    assert counted.messageCount == Some(|MessagesOf(afterOpen.messages, conv.id)| + 2);
    forall id | id in st'.conversations
      ensures st'.conversations[id].messageCount == Some(|MessagesOf(st'.messages, id)|)
    {
      AppendTwoCounts(afterOpen.messages, a, b, conv.id, id);
    }
  }

  lemma OpenKeepsValid(st: Store, req: ChatRequest, now: int)
    requires StoreValid(st) && OpenConversation(st, req, now).Ok?
    ensures var (afterOpen, conv) := OpenConversation(st, req, now).value;
            && StoreValid(afterOpen)
            && conv.id in afterOpen.conversations
            && afterOpen.messages == st.messages
            && afterOpen.nextMessageId == st.nextMessageId
  {
    if req.conversationId.Some? {
      assert st.conversations[req.conversationId.value].id == req.conversationId.value;
    }
  }

  lemma AppendKeepsValid(st: Store, conversationId: int, role: string, content: Option<string>, skillUsed: Option<string>)
    requires StoreValid(st) && conversationId in st.conversations
    ensures StoreValid(AppendMessage(st, conversationId, role, content, skillUsed))
  {
  }

  lemma UpdateKeepsValid(st: Store, updated: Conversation)
    requires StoreValid(st) && updated.id in st.conversations
    ensures StoreValid(st.(conversations := st.conversations[updated.id := updated]))
  {
  }

  lemma ProceedKeepsValid(st: Store, afterOpen: Store, conv: Conversation, req: ChatRequest, svc: Services, now: int)
    requires StoreValid(st) && StoreValid(afterOpen) && conv.id in afterOpen.conversations
    ensures StoreValid(Proceed(st, afterOpen, conv, req, svc, now).0)
  {
    var withUser := AppendMessage(afterOpen, conv.id, UserRole, Some(req.content), None);
    AppendKeepsValid(afterOpen, conv.id, UserRole, Some(req.content), None);
    var character := GetCharacterById(svc.characters, conv.characterId);
    if character.Some? {
      var answer := Respond(svc, character.value, RequestedSkill(req, svc), req.content,
                            Window(withUser.messages, conv.id, HistoryLimit));
      var withReply := AppendMessage(withUser, conv.id, AssistantRole, answer.0, answer.1);
      AppendKeepsValid(withUser, conv.id, AssistantRole, answer.0, answer.1);
      if conv.messageCount.Some? {
        UpdateKeepsValid(withReply, Counted(conv, now));
      }
    }
  }

  /** Without the character, or without a count to raise, the rest of the turn fails and restores `st`. */
  lemma ProceedFails(st: Store, afterOpen: Store, conv: Conversation, req: ChatRequest, svc: Services, now: int)
    requires GetCharacterById(svc.characters, conv.characterId).None? || conv.messageCount.None?
    ensures Proceed(st, afterOpen, conv, req, svc, now)
         == (st, Err(if GetCharacterById(svc.characters, conv.characterId).None? then CharacterNotFound else MessageCountNull))
  {
  }

  /** Turns keep the store's invariant: ids below the counters, no message without its conversation. */
  lemma TurnPreservesValid(st: Store, req: ChatRequest, svc: Services, now: int)
    requires StoreValid(st)
    ensures StoreValid(Turn(st, req, svc, now).0)
  {
    var o := OpenConversation(st, req, now);
    if o.Ok? {
      OpenKeepsValid(st, req, now);
      ProceedKeepsValid(st, o.value.0, o.value.1, req, svc, now);
    }
  }

  // -------------------------------------------------------------------- class

  /** The conversation service over its tables. */
  class ConversationService {
    var conversations: map<int, Conversation>
    var messages: seq<Message>
    var nextConversationId: int
    var nextMessageId: int

    function State(): Store
      reads this
    {
      Store(conversations, messages, nextConversationId, nextMessageId)
    }

    ghost predicate Valid()
      reads this
    {
      StoreValid(State())
    }

    constructor ()
      ensures State() == EmptyStore
      ensures Valid()
    {
      conversations := map[];
      messages := [];
      nextConversationId := 1;
      nextMessageId := 1;
    }

    /**
     * `chat`: works on copies of the tables and writes them back only at the
     * end, so a call that fails changes nothing (the transaction rolls back).
     */
    method Chat(req: ChatRequest, svc: Services, now: int) returns (r: Result<Option<string>, ChatError>)
      requires Valid()
      modifies this
      ensures (State(), r) == Turn(old(State()), req, svc, now)
      ensures Valid()
    {
      var convs := conversations;
      var nextConversation := nextConversationId;
      var conv: Conversation;
      if req.conversationId.Some? {
        if req.conversationId.value !in convs {
          return Err(ConversationNotFound);
        }
        conv := convs[req.conversationId.value];
      } else {
        if req.characterId.None? {
          return Err(MissingCharacterId);
        }
        conv := Conversation(nextConversation, req.userId, req.characterId, NewConversationTitle, Some(0), now);
        convs := convs[conv.id := conv];
        nextConversation := nextConversation + 1;
      }
      assert OpenConversation(State(), req, now) == Ok((Store(convs, messages, nextConversation, nextMessageId), conv));
      TurnPreservesValid(State(), req, svc, now);
      r := ContinueTurn(convs, nextConversation, conv, req, svc, now);
    }

    /**
     * The rest of `chat` once the conversation row is known: user message,
     * character, window, reply, assistant message and count, committed
     * together at the end.
     */
    method ContinueTurn(convs: map<int, Conversation>, nextConversation: int, conv: Conversation,
                        req: ChatRequest, svc: Services, now: int) returns (r: Result<Option<string>, ChatError>)
      modifies this
      ensures (State(), r) == Proceed(old(State()), Store(convs, old(messages), nextConversation, old(nextMessageId)), conv, req, svc, now)
    {
      var character := GetCharacterById(svc.characters, conv.characterId);
      if character.None? {
        ProceedFails(old(State()), Store(convs, old(messages), nextConversation, old(nextMessageId)), conv, req, svc, now);
        return Err(CharacterNotFound);
      }
      var userMessage := Message(nextMessageId, conv.id, UserRole, Some(req.content), None);
      var reply, skillUsed := Reply(messages + [userMessage], conv, character.value, req, svc);
      r := Commit(convs, nextConversation, conv, req.content, now, reply, skillUsed);
    }

    /** The end of `chat`: the assistant row and the count update, written back together, or nothing. */
    method Commit(convs: map<int, Conversation>, nextConversation: int, conv: Conversation, content: string, now: int,
                  reply: Option<string>, skillUsed: Option<string>) returns (r: Result<Option<string>, ChatError>)
      modifies this
      ensures (State(), r) == Finish(old(State()), Store(convs, old(messages), nextConversation, old(nextMessageId)),
                                     conv, content, now, (reply, skillUsed))
    {
      var userMessage := Message(nextMessageId, conv.id, UserRole, Some(content), None);
      var assistantMessage := Message(nextMessageId + 1, conv.id, AssistantRole, reply, skillUsed);
      if conv.messageCount.None? {
        return Err(MessageCountNull);
      }
      assert messages + [userMessage] + [assistantMessage] == messages + [userMessage, assistantMessage];
      conversations, messages, nextConversationId, nextMessageId :=
        convs[conv.id := Counted(conv, now)], messages + [userMessage, assistantMessage], nextConversation, nextMessageId + 2;
      r := Ok(reply);
    }

    /** The window read back, converted, and sent to the model with the requested skill, if any. */
    method Reply(msgs: seq<Message>, conv: Conversation, character: Character, req: ChatRequest, svc: Services)
      returns (reply: Option<string>, skillUsed: Option<string>)
      ensures (reply, skillUsed) == Respond(svc, character, RequestedSkill(req, svc), req.content, Window(msgs, conv.id, HistoryLimit))
    {
      var history := ReadHistory(msgs, conv.id, HistoryLimit);
      var aiMessages := ConvertToAiMessages(history);
      var skill := RequestedSkill(req, svc);
      reply, skillUsed := AskModel(svc, character, skill, req.content, history, aiMessages);
    }

    /** `getUserConversations` on the current tables; changes nothing. */
    method UserConversations(userId: Option<int>) returns (r: seq<Conversation>)
      requires Valid()
      ensures r == GetUserConversations(State(), userId)
    {
      r := GetUserConversations(State(), userId);
    }

    /** `getConversationMessages` on the current tables; changes nothing. */
    method ConversationMessages(conversationId: Option<int>) returns (r: seq<Message>)
      ensures r == GetConversationMessages(State(), conversationId)
    {
      r := GetConversationMessages(State(), conversationId);
    }
  }
}
