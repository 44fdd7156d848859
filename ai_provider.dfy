/**
 * The AI provider layer: the Qiniu and Zhipu adapters, which turn a system
 * prompt and a message list into one chat-completions request and read the
 * reply back fail-soft, and the factory that picks one of them from the
 * `ai.provider` setting.
 *
 * The network is the `Transport` parameter: whatever the vendor answers (or a
 * transport failure) for the one request the adapter builds. JSON is modelled
 * by the `Body` datatype, and a hutool getter on a missing key returns Java
 * `null`, written `None`.
 */
module AiProvider {
  import opened Common
  import opened Text

  /** One `{role, content}` map of the outgoing message list. */
  datatype AiMessage = AiMessage(role: string, content: Option<string>)

  /** The `@Value` settings of one vendor: `api-key`, `base-url`, `model`. */
  datatype VendorConfig = VendorConfig(apiKey: string, baseUrl: string, model: string)

  /** The single HTTP POST an adapter issues. */
  datatype VendorRequest = VendorRequest(
    url: string,
    authorization: string,
    model: string,
    messages: seq<AiMessage>,
    maxTokens: Option<int>)

  /** One element of the `choices` array: its `message` object, if any, and that object's `content`. */
  datatype Choice = NoMessage | MessageObject(content: Option<string>)

  /** The `output` object of the alternative response format. */
  datatype Output = Output(text: Option<string>)

  /** A response body: not JSON at all, or an object with the keys the adapters look at. */
  datatype Body =
    | NotJson
    | JsonObject(error: Option<string>, choices: Option<seq<Choice>>, output: Option<Output>)

  /** What the transport yields: an exception (connection, timeout), or a status and a body. */
  datatype HttpResponse = TransportFailure | HttpReply(ok: bool, body: Body)

  type Transport = VendorRequest -> HttpResponse

  const Apology: string := "抱歉，我现在无法回应，请稍后再试。"
  const CompletionsPath: string := "/chat/completions"
  const QiniuMaxTokens: int := 2000

  /** `systemPrompt != null && !systemPrompt.isEmpty()` */
  predicate HasSystemPrompt(systemPrompt: Option<string>) {
    systemPrompt.Some? && systemPrompt.value != []
  }

  /** The outgoing message list: an optional system message, then the given messages unchanged. */
  function WithSystemPrompt(systemPrompt: Option<string>, messages: seq<AiMessage>): (r: seq<AiMessage>)
    ensures |r| == |messages| + (if HasSystemPrompt(systemPrompt) then 1 else 0)
    ensures r[|r| - |messages|..] == messages
    ensures HasSystemPrompt(systemPrompt) ==> r[0] == AiMessage("system", systemPrompt)
    ensures !HasSystemPrompt(systemPrompt) ==> r == messages
  {
    if HasSystemPrompt(systemPrompt) then [AiMessage("system", systemPrompt)] + messages else messages
  }

  /** `choices[0].message.content`; `None` when that read throws (empty array, no message object). */
  function FirstChoice(choices: seq<Choice>): Option<Option<string>> {
    if choices == [] then None
    else match choices[0]
      case NoMessage => None
      case MessageObject(content) => Some(content)
  }

  // ------------------------------------------------------------------ Qiniu

  /** A reply with an OK status whose body parsed as a JSON object. */
  predicate GoodReply(response: HttpResponse) {
    response.HttpReply? && response.ok && response.body.JsonObject?
  }

  function QiniuRequest(cfg: VendorConfig, systemPrompt: Option<string>, messages: seq<AiMessage>): VendorRequest {
    VendorRequest(cfg.baseUrl + CompletionsPath, "Bearer " + cfg.apiKey, cfg.model,
                  WithSystemPrompt(systemPrompt, messages), Some(QiniuMaxTokens))
  }

  /**
   * Qiniu's reading of a reply: the apology for a failure, a non-OK status,
   * a body that is not JSON or that has an `error` key; otherwise the first
   * choice's content, else `output.text`, else the apology.
   */
  function InterpretQiniu(response: HttpResponse): (r: Option<string>)
    ensures r != Some(Apology) ==> response.HttpReply? && response.ok && response.body.JsonObject?
    ensures response.HttpReply? && response.body.JsonObject? && response.body.error.Some? ==> r == Some(Apology)
    ensures r == Some(Apology)
         || (response.body.choices.Some? && FirstChoice(response.body.choices.value) == Some(r))
         || (response.body.choices.None? && response.body.output.Some? && r == response.body.output.value.text)
    ensures (GoodReply(response) && response.body.error.None? && response.body.choices.Some?
             && FirstChoice(response.body.choices.value).Some?) ==> r == FirstChoice(response.body.choices.value).value
    ensures (GoodReply(response) && response.body.error.None? && response.body.choices.None?
             && response.body.output.Some?) ==> r == response.body.output.value.text
  {
    match response
    case TransportFailure => Some(Apology)
    case HttpReply(ok, body) =>
      if !ok then Some(Apology)
      else match body
        case NotJson => Some(Apology)
        case JsonObject(error, choices, output) =>
          if error.Some? then Some(Apology)
          else if choices.Some? then
            (match FirstChoice(choices.value)
             case None => Some(Apology)
             case Some(content) => content)
          else if output.Some? then output.value.text
          else Some(Apology)
  }

  function QiniuChatSync(cfg: VendorConfig, transport: Transport, systemPrompt: Option<string>, messages: seq<AiMessage>): Option<string> {
    InterpretQiniu(transport(QiniuRequest(cfg, systemPrompt, messages)))
  }

  /** The system prompt of a skill turn: character prompt, a blank line, skill prompt. */
  function SkillPrompt(characterPrompt: Option<string>, skillPrompt: Option<string>): (r: string)
    ensures var c, k := JavaString(characterPrompt), JavaString(skillPrompt);
            && |r| == |c| + 2 + |k|
            && r[..|c|] == c && r[|c|..|c| + 2] == "\n\n" && r[|c| + 2..] == k
  {
    JavaString(characterPrompt) + "\n\n" + JavaString(skillPrompt)
  }

  /** String concatenation writes a null prompt as "null". */
  lemma SkillPromptNulls(prompt: string)
    ensures SkillPrompt(None, Some(prompt)) == "null\n\n" + prompt
    ensures SkillPrompt(Some(prompt), None) == prompt + "\n\nnull"
    ensures SkillPrompt(None, None) == "null\n\nnull"
  {
  }

  /** A skill turn sends only the new user message, no history. */
  function SkillMessages(userMessage: Option<string>): seq<AiMessage> {
    [AiMessage("user", userMessage)]
  }

  function QiniuChatWithSkillSync(cfg: VendorConfig, transport: Transport, characterPrompt: Option<string>,
                                  skillPrompt: Option<string>, userMessage: Option<string>): Option<string> {
    QiniuChatSync(cfg, transport, Some(SkillPrompt(characterPrompt, skillPrompt)), SkillMessages(userMessage))
  }

  /** `chatAsync`: a future completed with the `chatSync` text; the future is its value here. */
  function QiniuChatAsync(cfg: VendorConfig, transport: Transport, systemPrompt: Option<string>, messages: seq<AiMessage>): Option<string> {
    QiniuChatSync(cfg, transport, systemPrompt, messages)
  }

  function QiniuChatWithSkillAsync(cfg: VendorConfig, transport: Transport, characterPrompt: Option<string>,
                                   skillPrompt: Option<string>, userMessage: Option<string>): Option<string> {
    QiniuChatWithSkillSync(cfg, transport, characterPrompt, skillPrompt, userMessage)
  }

  /** The backward-compatible `chat` wrapper. */
  function QiniuChat(cfg: VendorConfig, transport: Transport, systemPrompt: Option<string>, messages: seq<AiMessage>): Option<string> {
    QiniuChatSync(cfg, transport, systemPrompt, messages)
  }

  /** The backward-compatible `chatWithSkill` wrapper. */
  function QiniuChatWithSkill(cfg: VendorConfig, transport: Transport, characterPrompt: Option<string>,
                              skillPrompt: Option<string>, userMessage: Option<string>): Option<string> {
    QiniuChatWithSkillSync(cfg, transport, characterPrompt, skillPrompt, userMessage)
  }

  /** Every Qiniu entry point yields the text of the corresponding sync call. */
  lemma QiniuWrappersDelegate(cfg: VendorConfig, transport: Transport, systemPrompt: Option<string>,
                              messages: seq<AiMessage>, characterPrompt: Option<string>,
                              skillPrompt: Option<string>, userMessage: Option<string>)
    ensures QiniuChat(cfg, transport, systemPrompt, messages) == QiniuChatSync(cfg, transport, systemPrompt, messages)
    ensures QiniuChatAsync(cfg, transport, systemPrompt, messages) == QiniuChatSync(cfg, transport, systemPrompt, messages)
    ensures QiniuChatWithSkill(cfg, transport, characterPrompt, skillPrompt, userMessage)
         == QiniuChatWithSkillSync(cfg, transport, characterPrompt, skillPrompt, userMessage)
    ensures QiniuChatWithSkillAsync(cfg, transport, characterPrompt, skillPrompt, userMessage)
         == QiniuChatWithSkillSync(cfg, transport, characterPrompt, skillPrompt, userMessage)
  {
  }

  /** A skill request carries exactly the joined system prompt and the one user message. */
  lemma SkillRequestShape(cfg: VendorConfig, characterPrompt: Option<string>, skillPrompt: Option<string>, userMessage: Option<string>)
    ensures QiniuRequest(cfg, Some(SkillPrompt(characterPrompt, skillPrompt)), SkillMessages(userMessage)).messages
         == [AiMessage("system", Some(SkillPrompt(characterPrompt, skillPrompt))), AiMessage("user", userMessage)]
    ensures ZhipuRequest(cfg, Some(SkillPrompt(characterPrompt, skillPrompt)), SkillMessages(userMessage)).messages
         == [AiMessage("system", Some(SkillPrompt(characterPrompt, skillPrompt))), AiMessage("user", userMessage)]
  {
  }

  // ------------------------------------------------------------------ Zhipu

  function ZhipuRequest(cfg: VendorConfig, systemPrompt: Option<string>, messages: seq<AiMessage>): VendorRequest {
    VendorRequest(cfg.baseUrl + CompletionsPath, "Bearer " + cfg.apiKey, cfg.model,
                  WithSystemPrompt(systemPrompt, messages), None)
  }

  /**
   * Zhipu's reading of a reply: an OK JSON body yields the first choice's
   * content; everything else, including a body without `choices`, yields the
   * apology. The `error` and `output` keys are never looked at.
   */
  function InterpretZhipu(response: HttpResponse): (r: Option<string>)
    ensures r != Some(Apology) ==> response.HttpReply? && response.ok && response.body.JsonObject?
                                   && response.body.choices.Some?
    ensures r == Some(Apology) || FirstChoice(response.body.choices.value) == Some(r)
    ensures (GoodReply(response) && response.body.choices.Some? && FirstChoice(response.body.choices.value).Some?)
            ==> r == FirstChoice(response.body.choices.value).value
  {
    if response.HttpReply? && response.ok && response.body.JsonObject? && response.body.choices.Some? then
      match FirstChoice(response.body.choices.value)
      case None => Some(Apology)
      case Some(content) => content
    else Some(Apology)
  }

  function ZhipuChat(cfg: VendorConfig, transport: Transport, systemPrompt: Option<string>, messages: seq<AiMessage>): Option<string> {
    InterpretZhipu(transport(ZhipuRequest(cfg, systemPrompt, messages)))
  }

  function ZhipuChatWithSkill(cfg: VendorConfig, transport: Transport, characterPrompt: Option<string>,
                              skillPrompt: Option<string>, userMessage: Option<string>): Option<string> {
    ZhipuChat(cfg, transport, Some(SkillPrompt(characterPrompt, skillPrompt)), SkillMessages(userMessage))
  }

  /** Zhipu's reading ignores the `error` and `output` keys altogether. */
  lemma ZhipuIgnoresErrorAndOutput(ok: bool, e1: Option<string>, e2: Option<string>, choices: Option<seq<Choice>>,
                                   o1: Option<Output>, o2: Option<Output>)
    ensures InterpretZhipu(HttpReply(ok, JsonObject(e1, choices, o1)))
         == InterpretZhipu(HttpReply(ok, JsonObject(e2, choices, o2)))
  {
  }

  /** On an OK body without `error` whose first choice has a message, both vendors read the same text. */
  lemma VendorsAgreeOnPlainChoices(choices: seq<Choice>, output: Option<Output>)
    requires choices != [] && choices[0].MessageObject?
    ensures InterpretQiniu(HttpReply(true, JsonObject(None, Some(choices), output)))
         == InterpretZhipu(HttpReply(true, JsonObject(None, Some(choices), output)))
         == choices[0].content
  {
  }

  /** The vendors differ on the alternative `output` format and on an `error` body that also has choices. */
  lemma VendorsDisagree(text: string)
    requires text != Apology
    ensures InterpretQiniu(HttpReply(true, JsonObject(None, None, Some(Output(Some(text)))))) == Some(text)
    ensures InterpretZhipu(HttpReply(true, JsonObject(None, None, Some(Output(Some(text)))))) == Some(Apology)
    ensures InterpretQiniu(HttpReply(true, JsonObject(Some("quota"), Some([MessageObject(Some(text))]), None))) == Some(Apology)
    ensures InterpretZhipu(HttpReply(true, JsonObject(Some("quota"), Some([MessageObject(Some(text))]), None))) == Some(text)
  {
  }

  // ---------------------------------------------------------------- factory

  datatype Provider = Qiniu | Zhipu

  /** The value of `ai.provider` when it is not configured. */
  const DefaultProviderSetting: string := "zhipu"

  /** The five letters of "qiniu", each in either case. */
  predicate SpellsQiniu(setting: string) {
    |setting| == 5 && forall i | 0 <= i < 5 :: setting[i] == "qiniu"[i] || setting[i] == "QINIU"[i]
  }

  /** `switch (provider.toLowerCase())`: "qiniu" in any letter case, anything else Zhipu. */
  function SelectProvider(setting: string): (p: Provider)
    ensures p == Qiniu <==> SpellsQiniu(setting)
  {
    LowerIsQiniu(setting);
    if AsciiLower(setting) == "qiniu" then Qiniu else Zhipu
  }

  lemma LowerIsQiniu(setting: string)
    ensures AsciiLower(setting) == "qiniu" <==> SpellsQiniu(setting)
  {
    if |setting| == 5 {
      var q, u := "qiniu", "QINIU";
      assert forall i | 0 <= i < 5 :: q[i] != u[i] && 'a' <= q[i] <= 'z' && u[i] as int == q[i] as int - 32;
      if SpellsQiniu(setting) {
        assert forall i | 0 <= i < 5 :: AsciiLower(setting)[i] == q[i];
      }
      if AsciiLower(setting) == q {
        forall i | 0 <= i < 5 ensures setting[i] == q[i] || setting[i] == u[i] {
          assert LowerChar(setting[i]) == q[i];
        }
      }
    }
  }

  lemma ProviderSelectionExamples()
    ensures SelectProvider("QiNiu") == Qiniu
    ensures SelectProvider(DefaultProviderSetting) == Zhipu
    ensures SelectProvider("openai") == Zhipu
  {
    assert AsciiLower("QiNiu") == "qiniu";
    assert AsciiLower("zhipu") != "qiniu" by { assert AsciiLower("zhipu")[0] == 'z'; }
    assert AsciiLower("openai") != "qiniu" by { assert |AsciiLower("openai")| == 6; }
  }

  datatype Vendors = Vendors(qiniu: VendorConfig, zhipu: VendorConfig)

  /** The single request a facade call sends: the selected vendor's, built from the unchanged arguments. */
  function SelectedRequest(setting: string, vendors: Vendors, systemPrompt: Option<string>, messages: seq<AiMessage>): (r: VendorRequest)
    ensures r.messages == WithSystemPrompt(systemPrompt, messages)
    ensures r.url == (if SelectProvider(setting) == Qiniu then vendors.qiniu else vendors.zhipu).baseUrl + CompletionsPath
  {
    match SelectProvider(setting)
    case Qiniu => QiniuRequest(vendors.qiniu, systemPrompt, messages)
    case Zhipu => ZhipuRequest(vendors.zhipu, systemPrompt, messages)
  }

  /** `AiServiceFactory.chat`: `chatSync` of the selected adapter (Zhipu's `chat` is its sync call). */
  function FactoryChat(setting: string, vendors: Vendors, transport: Transport, systemPrompt: Option<string>, messages: seq<AiMessage>): Option<string> {
    match SelectProvider(setting)
    case Qiniu => QiniuChatSync(vendors.qiniu, transport, systemPrompt, messages)
    case Zhipu => ZhipuChat(vendors.zhipu, transport, systemPrompt, messages)
  }

  /** `AiServiceFactory.chatAsync`: the selected adapter's `chatAsync` (Zhipu's: its sync call). */
  function FactoryChatAsync(setting: string, vendors: Vendors, transport: Transport, systemPrompt: Option<string>, messages: seq<AiMessage>): Option<string> {
    match SelectProvider(setting)
    case Qiniu => QiniuChatAsync(vendors.qiniu, transport, systemPrompt, messages)
    case Zhipu => ZhipuChat(vendors.zhipu, transport, systemPrompt, messages)
  }

  /** `AiServiceFactory.chatWithSkill`: the selected adapter's `chatWithSkillSync`. */
  function FactoryChatWithSkill(setting: string, vendors: Vendors, transport: Transport, characterPrompt: Option<string>,
                                skillPrompt: Option<string>, userMessage: Option<string>): Option<string> {
    match SelectProvider(setting)
    case Qiniu => QiniuChatWithSkillSync(vendors.qiniu, transport, characterPrompt, skillPrompt, userMessage)
    case Zhipu => ZhipuChatWithSkill(vendors.zhipu, transport, characterPrompt, skillPrompt, userMessage)
  }

  /** `AiServiceFactory.chatWithSkillAsync`: the selected adapter's `chatWithSkillAsync`. */
  function FactoryChatWithSkillAsync(setting: string, vendors: Vendors, transport: Transport, characterPrompt: Option<string>,
                                     skillPrompt: Option<string>, userMessage: Option<string>): Option<string> {
    match SelectProvider(setting)
    case Qiniu => QiniuChatWithSkillAsync(vendors.qiniu, transport, characterPrompt, skillPrompt, userMessage)
    case Zhipu => ZhipuChatWithSkill(vendors.zhipu, transport, characterPrompt, skillPrompt, userMessage)
  }

  /**
   * The facade forwards to exactly one vendor: its reply depends only on the
   * transport's answer to the selected vendor's request, so no second request
   * and no fallback to the other vendor can influence it.
   */
  lemma FacadeUsesOneRequest(setting: string, vendors: Vendors, t1: Transport, t2: Transport,
                             systemPrompt: Option<string>, messages: seq<AiMessage>)
    requires t1(SelectedRequest(setting, vendors, systemPrompt, messages)) == t2(SelectedRequest(setting, vendors, systemPrompt, messages))
    ensures FactoryChat(setting, vendors, t1, systemPrompt, messages) == FactoryChat(setting, vendors, t2, systemPrompt, messages)
    ensures FactoryChatAsync(setting, vendors, t1, systemPrompt, messages) == FactoryChat(setting, vendors, t2, systemPrompt, messages)
  {
  }

  /** The skill facade methods are the plain facade with the joined prompt and the single user message. */
  lemma FacadeSkillIsPlainChat(setting: string, vendors: Vendors, transport: Transport, characterPrompt: Option<string>,
                               skillPrompt: Option<string>, userMessage: Option<string>)
    ensures FactoryChatWithSkill(setting, vendors, transport, characterPrompt, skillPrompt, userMessage)
         == FactoryChat(setting, vendors, transport, Some(SkillPrompt(characterPrompt, skillPrompt)), SkillMessages(userMessage))
    ensures FactoryChatWithSkillAsync(setting, vendors, transport, characterPrompt, skillPrompt, userMessage)
         == FactoryChatWithSkill(setting, vendors, transport, characterPrompt, skillPrompt, userMessage)
  {
  }
}
