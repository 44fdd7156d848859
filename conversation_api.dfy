/**
 * The `chat` and `voiceChat` endpoints of the conversation controller: the
 * guards in front of the service call, the id resolution, and how the
 * service's outcome becomes a response. The caller's id is what the security
 * utility read from the request attributes; speech recognition is an outcome
 * passed in, and so is the clock.
 */
module ConversationApi {
  import opened Common
  import opened Text
  import opened AiProvider
  import opened Conversations
  import opened RequestIds

  const NotLoggedIn: string := "用户未登录"
  const EmptyContent: string := "消息内容不能为空"
  const AiUnavailable: string := "AI服务暂时不可用，请稍后重试"
  const SystemError: string := "系统异常，请稍后重试"
  const EmptyAudio: string := "音频文件不能为空"
  const RecognitionFailed: string := "语音识别失败，请重试"
  const VoiceErrorPrefix: string := "语音处理失败: "

  /** The JSON body of `POST /conversations/chat`: both ids arrive as strings. */
  datatype ChatBody = ChatBody(
    conversationId: Option<string>,
    characterId: Option<string>,
    content: Option<string>,
    skillId: Option<int>)

  /** The service call the endpoint makes for a logged-in user and a non-blank content. */
  function ServiceRequest(userId: int, body: ChatBody): (r: ChatRequest)
    requires body.content.Some?
    ensures r.characterId.Some?
    ensures r.conversationId == ResolveConversationId(body.conversationId)
  {
    ChatRequest(Some(userId), ResolveConversationId(body.conversationId),
                Some(ResolveCharacterId(body.characterId)), body.content.value, body.skillId)
  }

  predicate BlankContent(content: Option<string>) {
    content.None? || IsBlank(content.value)
  }

  /** The response for what the service returned: a null or blank reply is reported as unavailable. */
  function ChatResponse(outcome: Result<Option<string>, ChatError>): (r: Response<string>)
    ensures r.Success? <==> outcome.Ok? && outcome.value.Some? && !IsBlank(outcome.value.value)
    ensures r.Success? ==> r.data == outcome.value.value
    ensures outcome.Err? ==> r == Failure(SystemError)
  {
    match outcome
    case Err(_) => Failure(SystemError)
    case Ok(reply) =>
      if reply.None? || IsBlank(reply.value) then Failure(AiUnavailable) else Success(reply.value)
  }

  /** `chat`: the store after the request and the response. */
  function ChatEndpoint(st: Store, userId: Option<int>, body: ChatBody, svc: Services, now: int): (Store, Response<string>) {
    if userId.None? then (st, Failure(NotLoggedIn))
    else if BlankContent(body.content) then (st, Failure(EmptyContent))
    else
      var (st', outcome) := Turn(st, ServiceRequest(userId.value, body), svc, now);
      (st', ChatResponse(outcome))
  }

  /** `chat` on the live service. */
  method HandleChat(service: ConversationService, userId: Option<int>, body: ChatBody, svc: Services, now: int)
    returns (r: Response<string>)
    requires service.Valid()
    modifies service
    ensures (service.State(), r) == ChatEndpoint(old(service.State()), userId, body, svc, now)
    ensures service.Valid()
  {
    if userId.None? {
      return Failure(NotLoggedIn);
    }
    if body.content.None? || IsBlank(body.content.value) {
      return Failure(EmptyContent);
    }
    var conversationId := ResolveConversationId(body.conversationId);
    var characterId := ResolveCharacterId(body.characterId);
    var outcome := service.Chat(ChatRequest(userId, conversationId, Some(characterId), body.content.value, body.skillId), svc, now);
    match outcome {
      case Err(_) =>
        r := Failure(SystemError);
      case Ok(reply) =>
        if reply.None? || IsBlank(reply.value) {
          r := Failure(AiUnavailable);
        } else {
          r := Success(reply.value);
        }
    }
  }

  /** The login check comes first: without a user nothing else is looked at and nothing is stored. */
  lemma LoginCheckedFirst(st: Store, body: ChatBody, svc: Services, now: int)
    ensures ChatEndpoint(st, None, body, svc, now) == (st, Failure(NotLoggedIn))
  {
  }

  /** A missing or blank content is rejected before any id is resolved, and nothing is stored. */
  lemma BlankContentRejected(st: Store, userId: int, body: ChatBody, svc: Services, now: int)
    requires BlankContent(body.content)
    ensures ChatEndpoint(st, Some(userId), body, svc, now) == (st, Failure(EmptyContent))
  {
  }

  /** The endpoint always sends a character id, so the service's missing-character failure cannot occur through it. */
  lemma MissingCharacterUnreachable(st: Store, userId: int, body: ChatBody, svc: Services, now: int)
    requires body.content.Some?
    ensures Turn(st, ServiceRequest(userId, body), svc, now).1 != Err(MissingCharacterId)
  {
  }

  /**
   * A blank or null reply is reported as a failure although the turn was
   * committed: both messages and the new count are stored.
   */
  lemma BlankReplyStillCommitted(st: Store, userId: int, body: ChatBody, svc: Services, now: int)
    requires StoreValid(st) && !BlankContent(body.content)
    requires Turn(st, ServiceRequest(userId, body), svc, now).1.Ok?
    ensures var (st', r) := ChatEndpoint(st, Some(userId), body, svc, now);
            |st'.messages| == |st.messages| + 2 && (r.Failure? ==> r.message == AiUnavailable)
  {
    SuccessfulTurnAppendsTwo(st, ServiceRequest(userId, body), svc, now);
  }

  /** A failing service call changes nothing and is reported as a system error. */
  lemma ServiceFailureReported(st: Store, userId: int, body: ChatBody, svc: Services, now: int)
    requires !BlankContent(body.content)
    requires Turn(st, ServiceRequest(userId, body), svc, now).1.Err?
    ensures ChatEndpoint(st, Some(userId), body, svc, now) == (st, Failure(SystemError))
  {
    FailedTurnChangesNothing(st, ServiceRequest(userId, body), svc, now);
  }

  // ---------------------------------------------------------------- voiceChat

  /** What speech recognition gave: a text (possibly null), or an exception. */
  datatype Recognition = Recognized(text: Option<string>) | RecognitionThrew

  /**
   * A message of the `voiceChat` response; its id is a clock reading in
   * milliseconds, not a stored id. The clock is read once for each message.
   */
  datatype VoiceMessage = VoiceMessage(id: int, role: string, content: Option<string>)

  /** The recognized text, or the fixed failure text when recognition gave nothing usable. */
  function RecognizedText(rec: Recognition): (r: string)
    ensures !IsBlank(r)
    ensures rec.Recognized? && rec.text.Some? && !IsBlank(rec.text.value) ==> r == rec.text.value
  {
    if rec.Recognized? && rec.text.Some? && !IsBlank(rec.text.value) then rec.text.value
    else
      assert !IsBlank(RecognitionFailed) by { BlankIffAllJavaSpace(RecognitionFailed); assert RecognitionFailed[0] > ' '; }
      RecognitionFailed
  }

  /** The service call of `voiceChat`: same id rules as `chat`, the recognized text, no skill. */
  function VoiceServiceRequest(userId: int, conversationId: Option<string>, characterId: Option<string>, text: string): ChatRequest {
    ChatRequest(Some(userId), ResolveConversationId(conversationId), Some(ResolveCharacterId(characterId)), text, None)
  }

  /**
   * The message of the exception that ends a turn: the service's own text for
   * a missing character id, the JVM's description for a null dereference. The
   * three null dereferences (an unknown conversation, an unknown character, a
   * null count) have different JVM descriptions; `nullPointerMessage` is
   * whichever one was thrown.
   */
  function ExceptionMessage(e: ChatError, nullPointerMessage: string): string {
    if e == MissingCharacterId then MissingCharacterIdMessage else nullPointerMessage
  }

  /** The response of `voiceChat` for what the service returned. */
  function VoiceResponse(outcome: Result<Option<string>, ChatError>, text: string, millis: int, millisLater: int,
                         nullPointerMessage: string): (r: Response<seq<VoiceMessage>>)
    ensures r.Success? <==> outcome.Ok?
    ensures outcome.Ok? ==> r.data == [VoiceMessage(millis, UserRole, Some(text)), VoiceMessage(millisLater + 1, AssistantRole, outcome.value)]
    ensures outcome.Err? ==> r.message == VoiceErrorPrefix + ExceptionMessage(outcome.error, nullPointerMessage)
  {
    match outcome
    case Err(e) => Failure(VoiceErrorPrefix + ExceptionMessage(e, nullPointerMessage))
    case Ok(reply) => Success([VoiceMessage(millis, UserRole, Some(text)), VoiceMessage(millisLater + 1, AssistantRole, reply)])
  }

  /** `voiceChat`: the store after the request and the response. */
  function VoiceEndpoint(st: Store, userId: Option<int>, audioEmpty: bool, conversationId: Option<string>,
                         characterId: Option<string>, rec: Recognition, millis: int, millisLater: int, svc: Services, now: int,
                         nullPointerMessage: string): (Store, Response<seq<VoiceMessage>>) {
    if userId.None? then (st, Failure(NotLoggedIn))
    else if audioEmpty then (st, Failure(EmptyAudio))
    else
      var text := RecognizedText(rec);
      var (st', outcome) := Turn(st, VoiceServiceRequest(userId.value, conversationId, characterId, text), svc, now);
      (st', VoiceResponse(outcome, text, millis, millisLater, nullPointerMessage))
  }

  /** `voiceChat` on the live service. */
  method HandleVoiceChat(service: ConversationService, userId: Option<int>, audioEmpty: bool, conversationId: Option<string>,
                         characterId: Option<string>, rec: Recognition, millis: int, millisLater: int, svc: Services, now: int,
                         nullPointerMessage: string) returns (r: Response<seq<VoiceMessage>>)
    requires service.Valid()
    modifies service
    ensures (service.State(), r) == VoiceEndpoint(old(service.State()), userId, audioEmpty, conversationId, characterId,
                                                  rec, millis, millisLater, svc, now, nullPointerMessage)
    ensures service.Valid()
  {
    if userId.None? {
      return Failure(NotLoggedIn);
    }
    if audioEmpty {
      return Failure(EmptyAudio);
    }
    var conversation := ResolveConversationId(conversationId);
    var character := ResolveCharacterId(characterId);
    var text := RecognizedText(rec);
    var outcome := service.Chat(ChatRequest(userId, conversation, Some(character), text, None), svc, now);
    r := VoiceResponse(outcome, text, millis, millisLater, nullPointerMessage);
  }

  /** `voiceChat` resolves ids exactly as `chat` does; only the content and the absent skill differ. */
  lemma VoiceUsesChatIdRules(userId: int, conversationId: Option<string>, characterId: Option<string>, text: string)
    ensures VoiceServiceRequest(userId, conversationId, characterId, text)
         == ServiceRequest(userId, ChatBody(conversationId, characterId, Some(text), None))
  {
  }

  /**
   * A successful voice turn answers with exactly two messages, the recognized
   * text then the reply (which may be null: unlike `chat`, no blank-reply
   * check), with ids from two successive clock readings, the second plus one.
   */
  lemma VoiceResponseShape(st: Store, userId: int, conversationId: Option<string>, characterId: Option<string>,
                           rec: Recognition, millis: int, millisLater: int, svc: Services, now: int, npe: string)
    requires Turn(st, VoiceServiceRequest(userId, conversationId, characterId, RecognizedText(rec)), svc, now).1.Ok?
    ensures var r := VoiceEndpoint(st, Some(userId), false, conversationId, characterId, rec, millis, millisLater, svc, now, npe).1;
            && r.Success? && |r.data| == 2
            && r.data[0] == VoiceMessage(millis, UserRole, Some(RecognizedText(rec)))
            && r.data[1].id == millisLater + 1 && r.data[1].role == AssistantRole
            && r.data[1].content == Turn(st, VoiceServiceRequest(userId, conversationId, characterId, RecognizedText(rec)), svc, now).1.value
  {
  }

  /** A recognition failure still runs a turn, with the fixed failure text as the user's message. */
  lemma RecognitionFailureStillChats(st: Store, userId: int, conversationId: Option<string>, characterId: Option<string>,
                                     millis: int, millisLater: int, svc: Services, now: int, npe: string)
    ensures VoiceEndpoint(st, Some(userId), false, conversationId, characterId, RecognitionThrew, millis, millisLater, svc, now, npe).0
         == Turn(st, VoiceServiceRequest(userId, conversationId, characterId, RecognitionFailed), svc, now).0
  {
  }
}
