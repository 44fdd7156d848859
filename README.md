# AI role-play chat: a Dafny model

This project models the core of an AI role-play chat application. It has two halves.

**The Spring backend:**

- the chat turn of `ConversationService`: open or create a conversation, store the user message, read the ten-message window, ask the model, store the reply, bump the message count, all in one transaction;
- the two AI vendor adapters (Qiniu and Zhipu) and the factory that picks one of them;
- the character catalogue queries;
- the user service and the register, login and profile endpoints;
- JWT issuing and checking, the bearer-token filter and `SecurityUtil`;
- the conversation endpoints, with their string-to-id rules;
- the file upload endpoints.

**The React frontend:**

- the chat store: threads, sessions, sending text and voice, retrying failed answers;
- the authentication store;
- the axios client: the token header, error normalisation, the query-string builder;
- the sidebar's session list and rename handlers.

## How the model is built

Each source file becomes one module.

**Pure logic.** Request parsing, response reading, the query strings and the store actions are functions over values. Lemmas state what the source promises about them.

**State changed in place.** Where the source keeps state, the model is a class whose methods perform the same steps on their fields:

- the conversation service's tables;
- the user table;
- the servlet request and the security context;
- the zustand chat and authentication stores.

Each such method is proved to leave exactly the state that the corresponding function describes.

**Loops.** Loops in the source are methods with invariants:

- the history read-back, `getConversationHistory`;
- the message conversion, `convertToAiMessages`;
- the `forEach` that appends voice replies;
- `toQuery`.

**The database** is an in-memory store:

- a table is the sequence of its rows in storage order, or a map from id to row;
- the auto-increment counters are explicit fields;
- `ORDER BY` is a stable insertion sort, so rows with equal sort keys stay in storage order. The database does not promise that order for ties; see "## Left out".

**The environment is passed in as parameters:**

- the clock;
- UUIDs and fresh ids;
- the HTTP transport of the AI adapters;
- the password encoder;
- the JWT signer and parser;
- speech recognition;
- the network replies the frontend receives.

**Assumptions about the library seams are stated as predicates** and required only by the lemmas that rely on them. They are never axioms. These are:

- a password matches its own hash;
- the JWT parser returns the claims a token was signed with, and refuses expired tokens.

## Model

| member | source | states |
|---|---|---|
| AiProvider.WithSystemPrompt | ai-roleplay-backend/src/main/java/com/ai/roleplay/service/QiniuAiService.java:40-52 | the outgoing list is the caller's messages unchanged, preceded by one `system` message exactly when the prompt is non-null and non-empty |
| AiProvider.InterpretQiniu | ai-roleplay-backend/src/main/java/com/ai/roleplay/service/QiniuAiService.java:70-99 | any reply other than the apology needs an OK status and a JSON body; a body with an `error` key gives the apology; a good body without `error` gives exactly the first choice's content when there is one, and exactly `output.text` when there is no `choices` |
| AiProvider.SkillPrompt | ai-roleplay-backend/src/main/java/com/ai/roleplay/service/QiniuAiService.java:108-117 | the skill system prompt is exactly the character prompt, then "\n\n", then the skill prompt, each null rendered as "null" as Java concatenation does |
| AiProvider.SkillPromptNulls | ai-roleplay-backend/src/main/java/com/ai/roleplay/service/QiniuAiService.java:108-117 | a null character prompt or skill prompt appears as the four letters "null" in the joined prompt |
| AiProvider.QiniuWrappersDelegate | ai-roleplay-backend/src/main/java/com/ai/roleplay/service/QiniuAiService.java:28-32 | `chat`, `chatAsync`, `chatWithSkill` and `chatWithSkillAsync` all yield the text of the matching sync call |
| AiProvider.SkillRequestShape | ai-roleplay-backend/src/main/java/com/ai/roleplay/service/QiniuAiService.java:108-117 | a skill request sends exactly the joined system prompt and the one user message, no history, for both vendors |
| AiProvider.QiniuRequest | ai-roleplay-backend/src/main/java/com/ai/roleplay/service/QiniuAiService.java:34-68 | the Qiniu request: `baseUrl + "/chat/completions"`, the bearer key, the model, the messages behind the optional system prompt and `max_tokens` 2000; its shape is stated by `WithSystemPrompt` and `SkillRequestShape` |
| AiProvider.QiniuChatSync | ai-roleplay-backend/src/main/java/com/ai/roleplay/service/QiniuAiService.java:34-101 | one request, read by `InterpretQiniu`, whose contract states the reply; the wrappers are tied to it by `QiniuWrappersDelegate` |
| AiProvider.QiniuChatAsync | ai-roleplay-backend/src/main/java/com/ai/roleplay/service/QiniuAiService.java:28-32 | completes with the `chatSync` text, as `QiniuWrappersDelegate` states |
| AiProvider.QiniuChatWithSkillSync | ai-roleplay-backend/src/main/java/com/ai/roleplay/service/QiniuAiService.java:108-118 | the joined skill prompt and the one user message sent through `chatSync`, as `SkillPrompt` and `SkillRequestShape` state |
| AiProvider.QiniuChatWithSkillAsync | ai-roleplay-backend/src/main/java/com/ai/roleplay/service/QiniuAiService.java:102-106 | completes with the `chatWithSkillSync` text, as `QiniuWrappersDelegate` states |
| AiProvider.QiniuChat | ai-roleplay-backend/src/main/java/com/ai/roleplay/service/QiniuAiService.java:123-125 | the backward-compatible wrapper equals `chatSync`, as `QiniuWrappersDelegate` states |
| AiProvider.QiniuChatWithSkill | ai-roleplay-backend/src/main/java/com/ai/roleplay/service/QiniuAiService.java:127-129 | the backward-compatible wrapper equals `chatWithSkillSync`, as `QiniuWrappersDelegate` states |
| AiProvider.ZhipuRequest | ai-roleplay-backend/src/main/java/com/ai/roleplay/service/ZhipuAiService.java:29-54 | the Zhipu request: same URL shape, key, model and messages as Qiniu's, with no parameters; stated by `WithSystemPrompt` and `SkillRequestShape` |
| AiProvider.ZhipuChat | ai-roleplay-backend/src/main/java/com/ai/roleplay/service/ZhipuAiService.java:29-70 | one request, read by `InterpretZhipu`, whose contract states the reply; `VendorsAgreeOnPlainChoices` and `VendorsDisagree` compare it with Qiniu |
| AiProvider.ZhipuChatWithSkill | ai-roleplay-backend/src/main/java/com/ai/roleplay/service/ZhipuAiService.java:72-81 | the joined skill prompt and the one user message sent through `chat`, as `SkillRequestShape` states |
| AiProvider.InterpretZhipu | ai-roleplay-backend/src/main/java/com/ai/roleplay/service/ZhipuAiService.java:56-69 | any reply other than the apology needs an OK JSON body with `choices`; a good body whose `choices` has a first element gives exactly that element's content |
| AiProvider.ZhipuIgnoresErrorAndOutput | ai-roleplay-backend/src/main/java/com/ai/roleplay/service/ZhipuAiService.java:56-69 | Zhipu's reading is the same whatever the `error` and `output` keys hold |
| AiProvider.VendorsAgreeOnPlainChoices | ai-roleplay-backend/src/main/java/com/ai/roleplay/service/QiniuAiService.java:80-91 | on an OK body without `error` whose first choice has a message, both vendors return the same text |
| AiProvider.VendorsDisagree | ai-roleplay-backend/src/main/java/com/ai/roleplay/service/ZhipuAiService.java:56-69 | the vendors differ on an `output`-only body and on an `error` body that also carries choices |
| AiProvider.SelectProvider | ai-roleplay-backend/src/main/java/com/ai/roleplay/service/AiServiceFactory.java:27-53 | Qiniu is chosen exactly when the setting spells "qiniu" in any mix of upper and lower case; every other value, including the default "zhipu", picks Zhipu |
| AiProvider.LowerIsQiniu | ai-roleplay-backend/src/main/java/com/ai/roleplay/service/AiServiceFactory.java:27-53 | ASCII lower-casing yields "qiniu" exactly for the five-letter spellings of "qiniu" in any case mix |
| AiProvider.ProviderSelectionExamples | ai-roleplay-backend/src/main/java/com/ai/roleplay/service/AiServiceFactory.java:21-29 | "QiNiu" selects Qiniu; the default setting and an unknown name select Zhipu |
| AiProvider.SelectedRequest | ai-roleplay-backend/src/main/java/com/ai/roleplay/service/AiServiceFactory.java:77-91 | a facade call sends the selected vendor's completions URL with the caller's messages behind the optional system prompt |
| AiProvider.FacadeUsesOneRequest | ai-roleplay-backend/src/main/java/com/ai/roleplay/service/AiServiceFactory.java:77-91 | the facade's reply depends only on the transport's answer to that one request, so there is no second request and no fallback |
| AiProvider.FacadeSkillIsPlainChat | ai-roleplay-backend/src/main/java/com/ai/roleplay/service/AiServiceFactory.java:42-72 | the skill facade calls equal the plain facade with the joined prompt and the single user message |
| AiProvider.FactoryChat | ai-roleplay-backend/src/main/java/com/ai/roleplay/service/AiServiceFactory.java:77-79 | the selected adapter's sync chat, on one request, as `SelectedRequest` and `FacadeUsesOneRequest` state |
| AiProvider.FactoryChatAsync | ai-roleplay-backend/src/main/java/com/ai/roleplay/service/AiServiceFactory.java:81-83 | the selected adapter's async chat, with the same text as the sync one, as `FacadeUsesOneRequest` states |
| AiProvider.FactoryChatWithSkill | ai-roleplay-backend/src/main/java/com/ai/roleplay/service/AiServiceFactory.java:85-87 | the selected adapter's skill chat, equal to the plain facade with the joined prompt, as `FacadeSkillIsPlainChat` states |
| AiProvider.FactoryChatWithSkillAsync | ai-roleplay-backend/src/main/java/com/ai/roleplay/service/AiServiceFactory.java:89-91 | the async skill chat, equal to the plain facade with the joined prompt, as `FacadeSkillIsPlainChat` states |
| Characters.SelectNewestFirst | ai-roleplay-backend/src/main/java/com/ai/roleplay/service/CharacterService.java:20-30 | a `WHERE … ORDER BY create_time DESC` result holds only kept rows, holds every kept row, is newest first and adds no row |
| Characters.SearchCharacters | ai-roleplay-backend/src/main/java/com/ai/roleplay/service/CharacterService.java:20-30 | only enabled characters; with a keyword, each hit's name, description or category matches the SQL pattern `%keyword%`, the keyword's own `%` and `_` acting as wildcards; every such character is listed; newest first |
| Characters.SearchWithoutKeyword | ai-roleplay-backend/src/main/java/com/ai/roleplay/service/CharacterService.java:22-26 | an empty keyword behaves like a null one and lists every enabled character |
| Characters.LiteralKeywordIsSubstring | ai-roleplay-backend/src/main/java/com/ai/roleplay/service/CharacterService.java:24-26 | a keyword without `%` or `_` matches a character exactly when its name, description or category contains it |
| Characters.WildcardKeywords | ai-roleplay-backend/src/main/java/com/ai/roleplay/service/CharacterService.java:24-26 | the keyword "%" matches every non-null column and "_" every non-empty one, since `like` does not escape them |
| Characters.LikeContains | ai-roleplay-backend/src/main/java/com/ai/roleplay/service/CharacterService.java:24-26 | the pattern `%k%` for a literal `k` is the substring test |
| Characters.PrefixLiteral | ai-roleplay-backend/src/main/java/com/ai/roleplay/service/CharacterService.java:24-26 | a literal followed by `%` matches exactly the texts starting with it |
| Characters.LeadingPercent | ai-roleplay-backend/src/main/java/com/ai/roleplay/service/CharacterService.java:24-26 | a leading `%` matches when the rest of the pattern matches some suffix |
| Characters.MatchAnyTail | ai-roleplay-backend/src/main/java/com/ai/roleplay/service/CharacterService.java:24-26 | a lone `%` matches every text |
| Characters.GetCharacterSkills | ai-roleplay-backend/src/main/java/com/ai/roleplay/service/CharacterService.java:32-37 | exactly the character's skills, by ascending sort order; a null id gives the empty list |
| Characters.GetSkillById | ai-roleplay-backend/src/main/java/com/ai/roleplay/service/CharacterService.java:39-41 | a found skill is a stored row with that id; none is found when no row has it |
| Characters.GetCharacterById | ai-roleplay-backend/src/main/java/com/ai/roleplay/controller/CharacterController.java:31-37 | a found character is a stored row with that id, of any status; none is found when no row has it |
| Characters.LessIrreflexive | ai-roleplay-backend/src/main/java/com/ai/roleplay/service/CharacterService.java:43-54 | `String.compareTo` order, lexicographic by UTF-16 code unit: no string is before itself |
| Characters.LessTransitive | ai-roleplay-backend/src/main/java/com/ai/roleplay/service/CharacterService.java:43-54 | `compareTo` order by UTF-16 code unit is transitive |
| Characters.LessTotal | ai-roleplay-backend/src/main/java/com/ai/roleplay/service/CharacterService.java:43-54 | `compareTo` order by UTF-16 code unit is total on distinct strings, since distinct strings have distinct UTF-16 encodings |
| Characters.InsertDistinct | ai-roleplay-backend/src/main/java/com/ai/roleplay/service/CharacterService.java:43-54 | inserting into a strictly sorted list keeps it strictly sorted and adds exactly that element |
| Characters.SurrogatesSortLow | ai-roleplay-backend/src/main/java/com/ai/roleplay/service/CharacterService.java:43-54 | a string starting with a char beyond U+FFFF sorts by its high surrogate, so "😀趣味" comes before "（古典）" although U+1F600 is above U+FF08 |
| Characters.ConsSorted | ai-roleplay-backend/src/main/java/com/ai/roleplay/service/CharacterService.java:43-54 | a string below every element of a strictly sorted list may be put in front of it and the list stays strictly sorted |
| Characters.SortDistinct | ai-roleplay-backend/src/main/java/com/ai/roleplay/service/CharacterService.java:43-54 | `.distinct().sorted()` is strictly ascending in `String.compareTo` order (by UTF-16 code unit) and has exactly the input's elements |
| Characters.ListedCategories | ai-roleplay-backend/src/main/java/com/ai/roleplay/service/CharacterService.java:43-54 | exactly the non-null categories of enabled characters |
| Characters.GetAllCategories | ai-roleplay-backend/src/main/java/com/ai/roleplay/service/CharacterService.java:43-54 | strictly ascending in `String.compareTo` order (by UTF-16 code unit), and a category is listed exactly when some enabled character has it |
| Characters.CategoriesDistinct | ai-roleplay-backend/src/main/java/com/ai/roleplay/service/CharacterService.java:43-54 | no category is listed twice |
| Characters.GetCharactersByCategory | ai-roleplay-backend/src/main/java/com/ai/roleplay/service/CharacterService.java:56-63 | exactly the enabled characters of that category, newest first; a null category gives nothing |
| Characters.ListedNewestFirst | ai-roleplay-backend/src/main/java/com/ai/roleplay/service/CharacterService.java:65-73 | every enabled character, and only those, newest first |
| Characters.GetPopularCharacters | ai-roleplay-backend/src/main/java/com/ai/roleplay/service/CharacterService.java:65-73 | fails exactly for a null or negative limit; otherwise a prefix of the newest enabled characters, of length `limit` when there are that many |
| Characters.GetRecommendedCharacters | ai-roleplay-backend/src/main/java/com/ai/roleplay/service/CharacterService.java:75-83 | the user is ignored: the popular list with limit 5 |
| Characters.PopularPrefix | ai-roleplay-backend/src/main/java/com/ai/roleplay/service/CharacterService.java:65-73 | a smaller limit yields a prefix of a larger limit's list |
| Conversations.Window | ai-roleplay-backend/src/main/java/com/ai/roleplay/service/ConversationService.java:158-171 | the window holds at most `limit` messages and is either exactly `limit` long or the conversation's whole message list |
| Conversations.ReadHistory | ai-roleplay-backend/src/main/java/com/ai/roleplay/service/ConversationService.java:158-171 | the descending query read back to front by the index loop is the newest `limit` messages in creation order |
| Conversations.ConvertToAiMessages | ai-roleplay-backend/src/main/java/com/ai/roleplay/service/ConversationService.java:173-182 | one `{role, content}` entry per message, same length and order, nothing else copied |
| Conversations.Turn | ai-roleplay-backend/src/main/java/com/ai/roleplay/service/ConversationService.java:84-136 | one chat turn as a transaction; its properties are stated by `FailedTurnChangesNothing`, `SuccessfulTurnSteps`, `SuccessfulTurnAppendsTwo`, `SuccessfulTurnCounts`, `TurnKeepsCounts` and `TurnPreservesValid` |
| Conversations.Proceed | ai-roleplay-backend/src/main/java/com/ai/roleplay/service/ConversationService.java:88-135 | the turn after the conversation is open: the user message, the character lookup and the reply; stated by `ProceedKeepsValid` and by the method `ConversationService.ContinueTurn` |
| Conversations.Respond | ai-roleplay-backend/src/main/java/com/ai/roleplay/service/ConversationService.java:102-121 | the skill branch or the history branch of the model call; stated by `SkillPathChoice` and by the method `AskModel` |
| Conversations.Finish | ai-roleplay-backend/src/main/java/com/ai/roleplay/service/ConversationService.java:123-133 | the reply insert and the count update; stated by `FinishKeepsCounts` and `SuccessfulTurnCounts` |
| Conversations.OpenConversation | ai-roleplay-backend/src/main/java/com/ai/roleplay/service/ConversationService.java:138-156 | the lookup fails exactly for an unknown conversation id; a known id returns its row and leaves the store unchanged |
| Conversations.AskModel | ai-roleplay-backend/src/main/java/com/ai/roleplay/service/ConversationService.java:102-121 | the method's reply and skill label are those of the branch choice `Respond` describes |
| Conversations.ConversationRows | ai-roleplay-backend/src/main/java/com/ai/roleplay/service/ConversationService.java:184-189 | the rows with ids in the range, each a stored row, all of them listed |
| Conversations.GetUserConversations | ai-roleplay-backend/src/main/java/com/ai/roleplay/service/ConversationService.java:184-189 | exactly the user's stored conversations, most recently updated first |
| Conversations.SelectConversations | ai-roleplay-backend/src/main/java/com/ai/roleplay/service/ConversationService.java:184-189 | the owner filter over the id range: stored rows of that user only, all of them, by descending update time |
| Conversations.GetConversationMessages | ai-roleplay-backend/src/main/java/com/ai/roleplay/service/ConversationService.java:191-196 | exactly that conversation's messages, in creation order; a null id matches nothing |
| Conversations.MessagesOfNone | ai-roleplay-backend/src/main/java/com/ai/roleplay/service/ConversationService.java:191-196 | a conversation no message belongs to has no messages |
| Conversations.MessagesOfAppend | ai-roleplay-backend/src/main/java/com/ai/roleplay/service/ConversationService.java:88-93 | inserting a message extends only its own conversation's message list |
| Conversations.NewConversationNeedsCharacter | ai-roleplay-backend/src/main/java/com/ai/roleplay/service/ConversationService.java:144-146 | without a conversation id and a character id the turn fails and the store is unchanged |
| Conversations.UnknownConversationFails | ai-roleplay-backend/src/main/java/com/ai/roleplay/service/ConversationService.java:139-141 | an unknown conversation id fails with the store unchanged; the rollback also drops the user message |
| Conversations.FailedTurnChangesNothing | ai-roleplay-backend/src/main/java/com/ai/roleplay/service/ConversationService.java:84-136 | every failing turn leaves the store exactly as it was |
| Conversations.SuccessfulTurnSteps | ai-roleplay-backend/src/main/java/com/ai/roleplay/service/ConversationService.java:84-136 | a successful turn is the open, the two appends and the count update on the opened conversation |
| Conversations.SuccessfulTurnAppendsTwo | ai-roleplay-backend/src/main/java/com/ai/roleplay/service/ConversationService.java:88-135 | a successful turn appends exactly the user message (no skill label) and then the reply, which is also the return value |
| Conversations.SuccessfulTurnCounts | ai-roleplay-backend/src/main/java/com/ai/roleplay/service/ConversationService.java:131-133 | the conversation's count grows by 2 as a Java `Integer` and its update time is stamped; other conversations are unchanged |
| Conversations.TurnKeepsCounts | ai-roleplay-backend/src/main/java/com/ai/roleplay/service/ConversationService.java:83-136 | every turn keeps each stored count equal to its conversation's stored messages, as long as the counts are 2 below the `Integer` maximum |
| Conversations.OpenKeepsCounts | ai-roleplay-backend/src/main/java/com/ai/roleplay/service/ConversationService.java:138-156 | opening keeps the counts matching, and a new conversation starts with 0 messages and a count of 0 |
| Conversations.FinishKeepsCounts | ai-roleplay-backend/src/main/java/com/ai/roleplay/service/ConversationService.java:123-133 | the two inserts and the `+ 2` keep the counts matching |
| Conversations.AppendTwoCounts | ai-roleplay-backend/src/main/java/com/ai/roleplay/service/ConversationService.java:88-93 | two inserts into a conversation add 2 to its messages and none to any other's |
| Conversations.TurnOpensNew | ai-roleplay-backend/src/main/java/com/ai/roleplay/service/ConversationService.java:148-153 | a request without a conversation id but with a character id proceeds on a fresh conversation with the next id, title "新对话" and a count of 0 |
| Conversations.NewConversationShape | ai-roleplay-backend/src/main/java/com/ai/roleplay/service/ConversationService.java:148-153 | without an id, a new conversation owned by the caller with the requested character and the title "新对话" is created, and its count goes from 0 to 2 |
| Conversations.SkillPathChoice | ai-roleplay-backend/src/main/java/com/ai/roleplay/service/ConversationService.java:105-121 | the skill path runs exactly when a skill id is sent and found, and labels the reply with the skill's name |
| Conversations.WindowEndsWithUserMessage | ai-roleplay-backend/src/main/java/com/ai/roleplay/service/ConversationService.java:88-100 | the plain path's window ends with the user message just stored and holds at most 10 messages |
| Conversations.ExistingConversationIgnoresCallerAndCharacter | ai-roleplay-backend/src/main/java/com/ai/roleplay/service/ConversationService.java:138-141 | with a conversation id, the caller and the requested character make no difference; ownership is never checked |
| Conversations.OpenKeepsValid | ai-roleplay-backend/src/main/java/com/ai/roleplay/service/ConversationService.java:138-156 | opening a conversation keeps ids below the counters and every message attached to a stored conversation |
| Conversations.AppendKeepsValid | ai-roleplay-backend/src/main/java/com/ai/roleplay/service/ConversationService.java:88-93 | inserting a message into a stored conversation keeps the store valid |
| Conversations.UpdateKeepsValid | ai-roleplay-backend/src/main/java/com/ai/roleplay/service/ConversationService.java:132-133 | `updateById` of a stored conversation keeps the store valid |
| Conversations.ProceedKeepsValid | ai-roleplay-backend/src/main/java/com/ai/roleplay/service/ConversationService.java:88-135 | the rest of the turn keeps the store valid |
| Conversations.TurnPreservesValid | ai-roleplay-backend/src/main/java/com/ai/roleplay/service/ConversationService.java:84-136 | every turn, successful or not, keeps the store valid |
| Conversations.ConversationService.constructor | ai-roleplay-backend/src/main/java/com/ai/roleplay/service/ConversationService.java:22 | the service starts with empty tables, valid |
| Conversations.ConversationService.Chat | ai-roleplay-backend/src/main/java/com/ai/roleplay/service/ConversationService.java:84-136 | the tables after the call and the outcome are those of `Turn`, and the tables stay valid |
| Conversations.ConversationService.ContinueTurn | ai-roleplay-backend/src/main/java/com/ai/roleplay/service/ConversationService.java:88-135 | the steps after the open commit exactly the state `Proceed` describes |
| Conversations.ConversationService.UserConversations | ai-roleplay-backend/src/main/java/com/ai/roleplay/service/ConversationService.java:184-189 | returns the query's result and changes nothing |
| Conversations.ConversationService.ConversationMessages | ai-roleplay-backend/src/main/java/com/ai/roleplay/service/ConversationService.java:191-196 | returns the query's result and changes nothing |
| ConversationApi.ServiceRequest | ai-roleplay-backend/src/main/java/com/ai/roleplay/controller/ConversationController.java:41-90 | the service call carries the resolved conversation id and always a character id |
| ConversationApi.ChatEndpoint | ai-roleplay-backend/src/main/java/com/ai/roleplay/controller/ConversationController.java:30-104 | `chat`; stated by `LoginCheckedFirst`, `BlankContentRejected`, `ChatResponse`, `BlankReplyStillCommitted`, `ServiceFailureReported` and the method `HandleChat` |
| ConversationApi.ChatResponse | ai-roleplay-backend/src/main/java/com/ai/roleplay/controller/ConversationController.java:92-103 | success exactly when the service returned a non-blank reply, which is the response data; a service exception is reported as the system error |
| ConversationApi.HandleChat | ai-roleplay-backend/src/main/java/com/ai/roleplay/controller/ConversationController.java:30-104 | the live endpoint leaves the tables and returns the response `ChatEndpoint` describes, and keeps the tables valid |
| ConversationApi.LoginCheckedFirst | ai-roleplay-backend/src/main/java/com/ai/roleplay/controller/ConversationController.java:32-35 | without a logged-in user the answer is "not logged in" and nothing is stored |
| ConversationApi.BlankContentRejected | ai-roleplay-backend/src/main/java/com/ai/roleplay/controller/ConversationController.java:37-39 | a null or blank content is rejected before any id is resolved, and nothing is stored |
| ConversationApi.MissingCharacterUnreachable | ai-roleplay-backend/src/main/java/com/ai/roleplay/controller/ConversationController.java:51-82 | the endpoint always supplies a character id, so the service's missing-character failure never occurs |
| ConversationApi.BlankReplyStillCommitted | ai-roleplay-backend/src/main/java/com/ai/roleplay/controller/ConversationController.java:84-95 | a blank reply is reported as unavailable although the turn and its two messages are already committed |
| ConversationApi.ServiceFailureReported | ai-roleplay-backend/src/main/java/com/ai/roleplay/controller/ConversationController.java:100-103 | a failing service call changes nothing and is answered with the system error |
| ConversationApi.RecognizedText | ai-roleplay-backend/src/main/java/com/ai/roleplay/controller/ConversationController.java:250-260 | the chat text is never blank: the recognised text when usable, else the fixed failure text |
| ConversationApi.VoiceServiceRequest | ai-roleplay-backend/src/main/java/com/ai/roleplay/controller/ConversationController.java:207-262 | the service call of `voiceChat`; `VoiceUsesChatIdRules` states it resolves ids as `chat` does |
| ConversationApi.ExceptionMessage | ai-roleplay-backend/src/main/java/com/ai/roleplay/controller/ConversationController.java:289-293 | the text after "语音处理失败: ": the missing-character message, or the message of whichever null dereference happened; stated by `VoiceResponse` |
| ConversationApi.VoiceEndpoint | ai-roleplay-backend/src/main/java/com/ai/roleplay/controller/ConversationController.java:193-294 | `voiceChat`; stated by `VoiceResponseShape`, `RecognitionFailureStillChats` and the method `HandleVoiceChat` |
| ConversationApi.VoiceResponse | ai-roleplay-backend/src/main/java/com/ai/roleplay/controller/ConversationController.java:265-293 | success exactly when the turn succeeded, with the user message (first clock read) then the reply (second read + 1); a failure carries the prefixed exception message |
| ConversationApi.HandleVoiceChat | ai-roleplay-backend/src/main/java/com/ai/roleplay/controller/ConversationController.java:193-294 | the live endpoint leaves the tables and returns the response `VoiceEndpoint` describes, and keeps the tables valid |
| ConversationApi.VoiceUsesChatIdRules | ai-roleplay-backend/src/main/java/com/ai/roleplay/controller/ConversationController.java:207-248 | `voiceChat` resolves both ids exactly as `chat` does and sends no skill |
| ConversationApi.VoiceResponseShape | ai-roleplay-backend/src/main/java/com/ai/roleplay/controller/ConversationController.java:263-288 | after a successful turn the response lists the recognised text as the user message and the reply as the assistant message |
| ConversationApi.RecognitionFailureStillChats | ai-roleplay-backend/src/main/java/com/ai/roleplay/controller/ConversationController.java:257-263 | a recognition exception still runs a turn, with the fixed failure text as the user message |
| RequestIds.ResolveConversationId | ai-roleplay-backend/src/main/java/com/ai/roleplay/controller/ConversationController.java:41-49 | an id is used exactly when it is sent, is neither "default" nor an `s_` id, and parses as a `long`, and then it is that number |
| RequestIds.CharacterAlias | ai-roleplay-backend/src/main/java/com/ai/roleplay/controller/ConversationController.java:58-79 | the preset names map to 3, 4 and 2, and every other name, including the xiaozhi names, to 1 |
| RequestIds.ResolveCharacterId | ai-roleplay-backend/src/main/java/com/ai/roleplay/controller/ConversationController.java:51-82 | 1 when absent or blank; else the parsed `long`; else the alias of the untrimmed string; always within `long` range |
| RequestIds.SentinelsAreRedundant | ai-roleplay-backend/src/main/java/com/ai/roleplay/controller/ConversationController.java:43-49 | the "default" and `s_` tests never change the outcome, since neither parses as a `long` |
| RequestIds.LongStringHead | ai-roleplay-backend/src/main/java/com/ai/roleplay/controller/ConversationController.java:43 | a rendered `long` starts with a digit or a minus sign, so it is never an `s_` id |
| RequestIds.ConversationIdRoundTrip | ai-roleplay-backend/src/main/java/com/ai/roleplay/controller/ConversationController.java:41-49 | a conversation id the server issued comes back unchanged |
| RequestIds.CharacterIdRoundTrip | ai-roleplay-backend/src/main/java/com/ai/roleplay/controller/ConversationController.java:51-57 | a numeric character id comes back unchanged |
| RequestIds.AliasLookup | ai-roleplay-backend/src/main/java/com/ai/roleplay/controller/ConversationController.java:57-79 | a non-blank name that cannot be a number resolves through the alias table |
| RequestIds.UntrimmedCharacterId | ai-roleplay-backend/src/main/java/com/ai/roleplay/controller/ConversationController.java:53-57 | " 3" passes the blank check but does not parse, so it resolves to character 1; "3" resolves to 3 |
| RequestIds.ConversationIdExamples | ai-roleplay-backend/src/main/java/com/ai/roleplay/controller/ConversationController.java:43-49 | "default", an `s_` id, a non-number and a missing id all mean a new conversation |
| Users.FindBy | ai-roleplay-backend/src/main/java/com/ai/roleplay/service/UserService.java:17-27 | `getOne` finds no row exactly when none matches, one row when exactly one matches, and throws exactly when two or more match |
| Users.FindByUsername | ai-roleplay-backend/src/main/java/com/ai/roleplay/service/UserService.java:17-21 | `getOne` on `eq username`; stated by `FindBy`, `UniqueLookups` and `FreshNameFound` |
| Users.FindByEmail | ai-roleplay-backend/src/main/java/com/ai/roleplay/service/UserService.java:23-27 | `getOne` on `eq email`; stated by `FindBy` and `UniqueLookups` |
| Users.ExistsByUsername | ai-roleplay-backend/src/main/java/com/ai/roleplay/service/UserService.java:29-33 | `count > 0` on `eq username`; stated by `ExistsBy` and `RegisterRefusals` |
| Users.ExistsByEmail | ai-roleplay-backend/src/main/java/com/ai/roleplay/service/UserService.java:35-39 | `count > 0` on `eq email`; stated by `ExistsBy` and `RegisterRefusals` |
| Users.ExistsBy | ai-roleplay-backend/src/main/java/com/ai/roleplay/service/UserService.java:29-39 | `count > 0` holds exactly when some row matches |
| Users.FindById | ai-roleplay-backend/src/main/java/com/ai/roleplay/controller/UserController.java:89-92 | a found row has that id; none is found exactly when no row has it |
| Users.LoadUserByUsername | ai-roleplay-backend/src/main/java/com/ai/roleplay/service/UserService.java:42-51 | succeeds exactly when one row has the name, with its stored name, hash and no authorities; no row gives the not-found exception with its message |
| Users.FilterAtMostOne | ai-roleplay-backend/src/main/java/com/ai/roleplay/service/UserService.java:17-27 | rows that pairwise disagree on a condition select at most one row |
| Users.FilterNone | ai-roleplay-backend/src/main/java/com/ai/roleplay/service/UserService.java:17-27 | a condition no row meets selects nothing |
| Users.UniqueLookups | ai-roleplay-backend/src/main/java/com/ai/roleplay/service/UserService.java:17-27 | in a valid table, lookups by username or by email never throw |
| Users.RegisterViolations | ai-roleplay-backend/src/main/java/com/ai/roleplay/controller/UserController.java:132-145 | no constraint message exactly when the username, email and password pass `@NotBlank`, `@Size` (counting UTF-16 code units, as `String.length()` does) and the modelled `@Email` rules |
| Users.LoginViolations | ai-roleplay-backend/src/main/java/com/ai/roleplay/controller/UserController.java:149-155 | no constraint message exactly when both the username and the password are not blank |
| Users.SizeCountsCodeUnits | ai-roleplay-backend/src/main/java/com/ai/roleplay/controller/UserController.java:134 | a char beyond U+FFFF counts as two towards the 3-20 username size |
| Users.DomainSpecialsAccepted | ai-roleplay-backend/src/main/java/com/ai/roleplay/controller/UserController.java:138 | `@Email` accepts the specials ``!#$%&'*+/=?^_`{|}~`` inside a domain label, as in "a@b!c" |
| Users.SupplementaryRefused | ai-roleplay-backend/src/main/java/com/ai/roleplay/controller/UserController.java:138 | `@Email` refuses a char beyond U+FFFF, as in "😀@b" |
| Text.Utf16Length | ai-roleplay-backend/src/main/java/com/ai/roleplay/controller/UserController.java:134 | between one and two code units per char, and one per char exactly when every char is below U+10000 |
| Text.Utf16LengthAppend | ai-roleplay-backend/src/main/java/com/ai/roleplay/controller/UserController.java:134 | the code-unit length of a concatenation is the sum of the lengths |
| Text.CharUnits | ai-roleplay-backend/src/main/java/com/ai/roleplay/service/CharacterService.java:43-54 | a char below U+10000 is one unit equal to its code point; a char beyond is a high surrogate then a low surrogate that together encode the code point |
| Text.Utf16Units | ai-roleplay-backend/src/main/java/com/ai/roleplay/service/CharacterService.java:43-54 | the UTF-16 encoding compared by `compareTo` has `String.length()` units |
| Text.Utf16Injective | ai-roleplay-backend/src/main/java/com/ai/roleplay/service/CharacterService.java:43-54 | distinct strings have distinct UTF-16 encodings |
| Characters.UnitsLessIrreflexive | ai-roleplay-backend/src/main/java/com/ai/roleplay/service/CharacterService.java:43-54 | lexicographic order on code-unit sequences is irreflexive |
| Characters.UnitsLessTransitive | ai-roleplay-backend/src/main/java/com/ai/roleplay/service/CharacterService.java:43-54 | lexicographic order on code-unit sequences is transitive |
| Characters.UnitsLessTotal | ai-roleplay-backend/src/main/java/com/ai/roleplay/service/CharacterService.java:43-54 | lexicographic order on code-unit sequences is total on distinct sequences |
| Users.AdmitNewUser | ai-roleplay-backend/src/main/java/com/ai/roleplay/controller/UserController.java:47-58 | a valid body with an unused username and email is saved as a new row and echoed without the password |
| Users.GetUserInfo | ai-roleplay-backend/src/main/java/com/ai/roleplay/controller/UserController.java:87-103 | fails with "user not found" exactly when no row has the id; otherwise returns that row without the password |
| Users.Updated | ai-roleplay-backend/src/main/java/com/ai/roleplay/controller/UserController.java:112-119 | only the nickname and avatar change, each only when the request carries a non-null value |
| Users.ReplaceById | ai-roleplay-backend/src/main/java/com/ai/roleplay/controller/UserController.java:119 | `updateById` replaces the rows with that id and keeps every other row and the length |
| Users.RegisterRefusals | ai-roleplay-backend/src/main/java/com/ai/roleplay/controller/UserController.java:34-41 | a taken username is refused before the email is checked, and a refused registration saves nothing |
| Users.Registration | ai-roleplay-backend/src/main/java/com/ai/roleplay/controller/UserController.java:31-59 | `register` after bean validation; stated by `RegisterRefusals`, `RegisterStoresHash`, `RegisterKeepsValid` and `RegisterThenLogin` |
| Users.Admit | ai-roleplay-backend/src/main/java/com/ai/roleplay/controller/UserController.java:33-58 | the handler body after validation; stated by `AdmitNewUser` and `AdmitKeepsValid` |
| Users.Login | ai-roleplay-backend/src/main/java/com/ai/roleplay/controller/UserController.java:62-85 | `login`; stated by `LoginFailures`, `LoginFindsNewRow` and `RegisterThenLogin` |
| Users.UserUpdate | ai-roleplay-backend/src/main/java/com/ai/roleplay/controller/UserController.java:105-128 | `updateUser`; stated by `Updated`, `UpdateKeepsValid` and `UnknownIdUntouched` |
| Users.RegisterStoresHash | ai-roleplay-backend/src/main/java/com/ai/roleplay/controller/UserController.java:43-58 | a successful registration appends exactly one row with the encoder's hash of the password and returns it without the password |
| Users.RegisterKeepsValid | ai-roleplay-backend/src/main/java/com/ai/roleplay/controller/UserController.java:31-59 | registration keeps ids fresh and usernames and emails unique |
| Users.AdmitKeepsValid | ai-roleplay-backend/src/main/java/com/ai/roleplay/controller/UserController.java:43-58 | the save step keeps the table valid |
| Users.AppendFreshRow | ai-roleplay-backend/src/main/java/com/ai/roleplay/controller/UserController.java:44-50 | a row with the next id and an unused username and email can be appended to a valid table |
| Users.UpdateKeepsValid | ai-roleplay-backend/src/main/java/com/ai/roleplay/controller/UserController.java:105-128 | an update changes at most the matching row's nickname and avatar, and keeps the table valid |
| Users.UnknownIdUntouched | ai-roleplay-backend/src/main/java/com/ai/roleplay/controller/UserController.java:89-92 | an unknown id gives "user not found" for both reading and updating, and the table is unchanged |
| Users.FreshNameFound | ai-roleplay-backend/src/main/java/com/ai/roleplay/service/UserService.java:17-27 | once a row with an unused username is appended, looking that name up finds exactly that row |
| Users.RegisterThenLogin | ai-roleplay-backend/src/main/java/com/ai/roleplay/controller/UserController.java:62-85 | with a sound encoder, a freshly registered user logs in with the same name and password and gets a token for the new row's id and name |
| Users.LoginFindsNewRow | ai-roleplay-backend/src/main/java/com/ai/roleplay/controller/UserController.java:62-85 | a non-blank login naming a freshly appended row, with a password matching its hash, is answered with that row and a token for its id and username |
| Users.LoginFailures | ai-roleplay-backend/src/main/java/com/ai/roleplay/controller/UserController.java:65-72 | an unknown name gives "user not found"; a known name with a non-matching password gives "wrong password" |
| Users.UserStore.constructor | ai-roleplay-backend/src/main/java/com/ai/roleplay/service/UserService.java:15 | the table starts empty, with the next id 1 |
| Users.UserStore.Register | ai-roleplay-backend/src/main/java/com/ai/roleplay/controller/UserController.java:31-59 | the live table and the reply are those of `Registration`, and the table stays valid |
| Users.UserStore.AdmitRegistration | ai-roleplay-backend/src/main/java/com/ai/roleplay/controller/UserController.java:33-58 | the handler body leaves the table and reply of `Admit`: a taken username or email leaves the table as it was, otherwise one row is appended |
| Users.UserStore.UpdateUser | ai-roleplay-backend/src/main/java/com/ai/roleplay/controller/UserController.java:105-128 | the live table and the reply are those of `UserUpdate`, and the table stays valid |
| Jwt.UsernameFromToken | ai-roleplay-backend/src/main/java/com/ai/roleplay/util/JwtUtil.java:48-53 | succeeds exactly when the claims parse, and otherwise rethrows the parser's failure |
| Jwt.UserIdFromToken | ai-roleplay-backend/src/main/java/com/ai/roleplay/util/JwtUtil.java:55-61 | succeeds exactly when the claims parse, and otherwise rethrows the parser's failure |
| Jwt.IsTokenExpired | ai-roleplay-backend/src/main/java/com/ai/roleplay/util/JwtUtil.java:83-89 | true exactly when the claims parse and the expiration lies strictly before now; fails on a parse failure or a null expiration |
| Jwt.ValidateToken | ai-roleplay-backend/src/main/java/com/ai/roleplay/util/JwtUtil.java:70-81 | true exactly when the claims parse, the subject is the username, and the expiration exists and is not before now |
| Jwt.GeneratedTokenRoundTrip | ai-roleplay-backend/src/main/java/com/ai/roleplay/util/JwtUtil.java:31-46 | a generated token yields the userId, the username and the subject it was built with, until it expires |
| Jwt.GenerateToken | ai-roleplay-backend/src/main/java/com/ai/roleplay/util/JwtUtil.java:31-46 | the signed claims; stated by `GeneratedTokenRoundTrip`, `GeneratedTokenValidates` and `ExpiredTokenRejected` |
| Jwt.GeneratedTokenValidates | ai-roleplay-backend/src/main/java/com/ai/roleplay/util/JwtUtil.java:31-81 | a generated token validates for its own username until it expires, and never for another username |
| Jwt.ExpiredTokenRejected | ai-roleplay-backend/src/main/java/com/ai/roleplay/util/JwtUtil.java:91-113 | after the expiration a generated token no longer parses and never validates |
| Jwt.ExpiryCheckNeverTrue | ai-roleplay-backend/src/main/java/com/ai/roleplay/util/JwtUtil.java:83-89 | with a parser that refuses expired tokens itself, `isTokenExpired` never answers true |
| AuthFilter.BearerToken | ai-roleplay-backend/src/main/java/com/ai/roleplay/security/JwtAuthenticationFilter.java:33-40 | a token is read exactly when the header starts with "Bearer ", and it is the rest of the header |
| AuthFilter.TokenUsername | ai-roleplay-backend/src/main/java/com/ai/roleplay/security/JwtAuthenticationFilter.java:33-44 | a username is read only from a bearer token, as the token's subject; read failures are swallowed |
| AuthFilter.Decide | ai-roleplay-backend/src/main/java/com/ai/roleplay/security/JwtAuthenticationFilter.java:48-66 | throws exactly when a username was read, nobody is authenticated yet, and loading the user fails; authenticates exactly when the user loads and the token validates, with that user's details and the token's userId |
| AuthFilter.Filtered | ai-roleplay-backend/src/main/java/com/ai/roleplay/security/JwtAuthenticationFilter.java:29-73 | the request goes down the chain exactly when the decision does not throw, and the state changes only when the decision authenticates |
| AuthFilter.HttpRequest.constructor | ai-roleplay-backend/src/main/java/com/ai/roleplay/security/JwtAuthenticationFilter.java:31 | a request with the given header and attributes |
| AuthFilter.SecurityContext.constructor | ai-roleplay-backend/src/main/java/com/ai/roleplay/security/JwtAuthenticationFilter.java:48 | a context starts unauthenticated |
| AuthFilter.DoFilterInternal | ai-roleplay-backend/src/main/java/com/ai/roleplay/security/JwtAuthenticationFilter.java:29-73 | the attributes, the authentication and the outcome afterwards are those `Filtered` describes |
| AuthFilter.IssuedTokenAuthenticates | ai-roleplay-backend/src/main/java/com/ai/roleplay/security/JwtAuthenticationFilter.java:48-66 | a token issued to a registered user, presented before expiry, authenticates that user and sets the userId and username attributes |
| AuthFilter.SingleMatch | ai-roleplay-backend/src/main/java/com/ai/roleplay/service/UserService.java:42-51 | in a valid table, a user's name finds exactly that user's row |
| AuthFilter.UnknownUserPropagates | ai-roleplay-backend/src/main/java/com/ai/roleplay/security/JwtAuthenticationFilter.java:48-51 | a readable token naming a user the table lacks makes the request fail with the not-found exception |
| AuthFilter.NothingToDo | ai-roleplay-backend/src/main/java/com/ai/roleplay/security/JwtAuthenticationFilter.java:48 | an already authenticated request, or one without a readable token, passes through unchanged |
| SecurityUtil.CurrentUserId | ai-roleplay-backend/src/main/java/com/ai/roleplay/util/SecurityUtil.java:12-25 | a user id is returned exactly when there is a request whose "userId" attribute is a `Long`, and it is that value |
| SecurityUtil.CurrentUsername | ai-roleplay-backend/src/main/java/com/ai/roleplay/util/SecurityUtil.java:27-37 | a username is returned exactly when there is a request whose "username" attribute is a `String`, and it is that value |
| SecurityUtil.SetAttribute | ai-roleplay-backend/src/main/java/com/ai/roleplay/security/JwtAuthenticationFilter.java:63-65 | a null value removes the attribute, any other value stores it, and other attributes are untouched |
| SecurityUtil.LookupsAfterSet | ai-roleplay-backend/src/main/java/com/ai/roleplay/security/JwtAuthenticationFilter.java:63-65 | the attributes the filter sets are read back by `getCurrentUserId` and `getCurrentUsername` |
| SecurityUtil.NoRequestNoUser | ai-roleplay-backend/src/main/java/com/ai/roleplay/util/SecurityUtil.java:13-21 | without a current request both lookups give null |
| Files.LastIndexOf | ai-roleplay-backend/src/main/java/com/ai/roleplay/controller/FileController.java:110 | the index of the last occurrence, or none exactly when the character does not occur |
| Files.FileExtension | ai-roleplay-backend/src/main/java/com/ai/roleplay/controller/FileController.java:106-111 | empty exactly when the name is null or has no dot; otherwise the suffix from the last dot |
| Files.DatePath | ai-roleplay-backend/src/main/java/com/ai/roleplay/controller/FileController.java:71 | `yyyy/MM/dd`: ten characters, slashes at 4 and 7, and digits spelling the year, month and day |
| Files.DatePathInjective | ai-roleplay-backend/src/main/java/com/ai/roleplay/controller/FileController.java:71-72 | different days are stored in different directories |
| Files.UploadRefusal | ai-roleplay-backend/src/main/java/com/ai/roleplay/controller/FileController.java:50-63 | empty, too large and unsupported type are refused in that order; nothing is refused exactly when the size is within the limit and the type fits the kind |
| Files.UploadFile | ai-roleplay-backend/src/main/java/com/ai/roleplay/controller/FileController.java:49-94 | success exactly when nothing is refused and no I/O fails; a failure writes nothing; a success stores the file under type/date/uuid+extension and returns that URL |
| Files.LastSegment | ai-roleplay-backend/src/main/java/com/ai/roleplay/controller/FileController.java:125 | the last path component: a suffix of the path without '/' |
| Files.GetFileInfo | ai-roleplay-backend/src/main/java/com/ai/roleplay/controller/FileController.java:114-136 | found exactly when the URL with every "/files/" removed names a stored upload and nothing fails; the info gives its name, size and time (see Left out for paths outside the uploads) |
| Files.RemoveLeadingTarget | ai-roleplay-backend/src/main/java/com/ai/roleplay/controller/FileController.java:117 | removing "/files/" from a URL that starts with it is removing it from the rest |
| Files.UploadedUrlResolves | ai-roleplay-backend/src/main/java/com/ai/roleplay/controller/FileController.java:83-87 | the URL an upload returns leads the info endpoint back to the stored file |
| Files.StoredNameIsLastSegment | ai-roleplay-backend/src/main/java/com/ai/roleplay/controller/FileController.java:66-72 | the info endpoint names an uploaded file by its stored name |
| Files.EndpointTypes | ai-roleplay-backend/src/main/java/com/ai/roleplay/controller/FileController.java:96-104 | avatar and image uploads accept exactly `image/` types, audio exactly `audio/` types, and a null type is always refused |
| Files.IsValidFileType | ai-roleplay-backend/src/main/java/com/ai/roleplay/controller/FileController.java:96-104 | `isValidFileType`; stated by `EndpointTypes` and `UploadRefusal` |
| Files.StoredName | ai-roleplay-backend/src/main/java/com/ai/roleplay/controller/FileController.java:65-67 | the UUID and the original extension; stated by `FileExtension` and `UploadedUrlResolves` |
| Files.RelativePath | ai-roleplay-backend/src/main/java/com/ai/roleplay/controller/FileController.java:70-71 | type, date directory and stored name; stated by `DatePathInjective`, `StoredNameIsLastSegment` and `UploadedUrlResolves` |
| ChatModel.Merge | ai-roleplay-frontend/src/features/chat/store.js:67 | `{ ...m, ...patch }`: the keys the patch carries are taken from it, and every other key, such as the status or the retry data, is kept |
| ChatModel.ThreadsAgree | ai-roleplay-frontend/src/features/chat/store.js:42-45 | states that differ only in one thread show the same messages in every other thread |
| ChatModel.GetMessages | ai-roleplay-frontend/src/features/chat/store.js:42-45 | the given thread, or the active one, empty when absent; stated by `ThreadsAgree`, `SetMessages` and `AppendMessage` |
| ChatModel.SetMessages | ai-roleplay-frontend/src/features/chat/store.js:47-52 | the thread (the given id, or the active one) now holds exactly the given list, and nothing else changes |
| ChatModel.AppendMessage | ai-roleplay-frontend/src/features/chat/store.js:54-62 | the message is added at the end of the thread under its own id, or a fresh one when it has none, and that id is returned; other threads are untouched |
| ChatModel.MergeWhere | ai-roleplay-frontend/src/features/chat/store.js:67 | same length; exactly the messages with the target id are merged with the patch |
| ChatModel.ReplaceMessage | ai-roleplay-frontend/src/features/chat/store.js:64-71 | the thread keeps its length and only the messages with the target id are merged; other threads are untouched |
| ChatModel.FindMessage | ai-roleplay-frontend/src/features/chat/store.js:333 | `find`: the first message with the id, or none exactly when no message has it |
| ChatModel.LastRetryable | ai-roleplay-frontend/src/features/chat/store.js:206-213 | the index of the last retryable answer, or none exactly when there is none |
| ChatModel.CountZero | ai-roleplay-frontend/src/features/chat/store.js:206-213 | a thread has no retryable answer exactly when the count is zero |
| ChatModel.CountTwo | ai-roleplay-frontend/src/features/chat/store.js:206-213 | two distinct retryable answers make the count at least two |
| ChatModel.CountAppend | ai-roleplay-frontend/src/features/chat/store.js:54-62 | appending a message raises the count by one exactly when that message is retryable |
| ChatModel.UpdateSessions | ai-roleplay-frontend/src/features/chat/store.js:110-114 | same length; exactly the sessions with the id are changed |
| ChatModel.RenameSession | ai-roleplay-frontend/src/features/chat/store.js:110-114 | only the titles of the sessions with that id change |
| ChatModel.Reveal | ai-roleplay-frontend/src/features/chat/store.js:196-198 | the sessions with the id are stamped with the time and unhidden; nothing else changes |
| ChatModel.CreateSession | ai-roleplay-frontend/src/features/chat/store.js:81-97 | a hidden session with id "s_" + time and title `title \|\| characterName \|\| ''` is put first, becomes active, and gets an empty thread; the other sessions and threads are kept |
| ChatModel.DeleteSession | ai-roleplay-frontend/src/features/chat/store.js:99-108 | every session with the id and its thread are removed, and all others kept in order; when the active session is deleted the first remaining one (or "default") becomes active |
| ChatModel.HydrateFromStorage | ai-roleplay-frontend/src/features/chat/store.js:73-78 | the caches replace the threads and sessions, loading is kept; the active thread is never empty and is either "default" or the id of a cached session, the first one whenever its id is non-empty |
| ChatModel.RenameTwice | ai-roleplay-frontend/src/features/chat/store.js:110-114 | renaming twice is renaming once with the last title |
| ChatModel.CreateThenDelete | ai-roleplay-frontend/src/features/chat/store.js:81-108 | a session created and then deleted leaves the session list as it was |
| ChatModel.PrependedSessionFiltered | ai-roleplay-frontend/src/features/chat/store.js:100 | filtering out the id of a session prepended with a fresh id gives back the old list |
| ChatActions.FromBackend | ai-roleplay-frontend/src/features/chat/store.js:289-297 | a voice reply keeps its role and content and carries no status |
| ChatActions.VoiceReplies | ai-roleplay-frontend/src/features/chat/store.js:287-297 | no voice reply is retryable |
| ChatActions.BusyAnswer | ai-roleplay-frontend/src/features/chat/store.js:214-223 | the failure answer is retryable |
| ChatActions.AppendReplies | ai-roleplay-frontend/src/features/chat/store.js:195 | the `forEach` leaves the thread extended by exactly the replies, in order, and changes nothing else |
| ChatActions.Touch | ai-roleplay-frontend/src/features/chat/store.js:129-130 | only the `updatedAt` of the sessions with that id changes |
| ChatActions.DemoteLastError | ai-roleplay-frontend/src/features/chat/store.js:206-213 | the last retryable answer, if any, is set to 'sent' by its id; the thread keeps its length; with at most one retryable answer before, none remains |
| ChatActions.DemotedNoneLeft | ai-roleplay-frontend/src/features/chat/store.js:206-213 | setting the only retryable answer to 'sent' leaves none |
| ChatActions.LoadHistory | ai-roleplay-frontend/src/features/chat/store.js:116-137 | as written, the thread is reset to empty, the session is stamped, loading ends, and other threads are untouched |
| ChatActions.SetActiveThread | ai-roleplay-frontend/src/features/chat/store.js:30-40 | the active thread becomes the id only when a session has it |
| ChatActions.SwitchingKeepsThreads | ai-roleplay-frontend/src/features/chat/store.js:30-40 | switching never changes what any other thread shows |
| ChatActions.SendText | ai-roleplay-frontend/src/features/chat/store.js:139-230 | the action throws exactly when the request failed; the active thread and the loading flag are kept |
| ChatActions.SendTextAppendsTwo | ai-roleplay-frontend/src/features/chat/store.js:142-193 | a successful send appends the user's message and then the answer (the apology for an empty response); other threads are untouched |
| ChatActions.SendTextNamesNewThread | ai-roleplay-frontend/src/features/chat/store.js:196-203 | the active session is stamped and shown, and takes the first 30 characters of the content as its title only when its thread was empty |
| ChatActions.SendTextFailureLeavesOneRetry | ai-roleplay-frontend/src/features/chat/store.js:204-228 | a failed send adds two messages and leaves exactly one retryable answer, the last, which repeats the text and refers to the user's message |
| ChatActions.FailureAppendsOne | ai-roleplay-frontend/src/features/chat/store.js:205-225 | the failure handling adds one message and leaves exactly one retryable answer, the new busy answer |
| ChatActions.SendTextSuccessKeepsInvariant | ai-roleplay-frontend/src/features/chat/store.js:176-203 | a successful send keeps at most one retryable answer |
| ChatActions.TextAnswered | ai-roleplay-frontend/src/features/chat/store.js:176-203 | the answer (or the apology) appended, the session shown, and a first message naming it; stated by `SendTextAppendsTwo`, `SendTextNamesNewThread` and `SendTextSuccessKeepsInvariant` |
| ChatActions.SendFailed | ai-roleplay-frontend/src/features/chat/store.js:204-228 | the failure branch; stated by `FailureAppendsOne` and `SendTextFailureLeavesOneRetry` |
| ChatActions.AsrTitle | ai-roleplay-frontend/src/features/chat/store.js:256-271 | a first voice message names the session after non-empty recognized text; stated by `SendAudioNamesNewThread` |
| ChatActions.SendAudioNamesNewThread | ai-roleplay-frontend/src/features/chat/store.js:256-300 | after a delivered voice reply only the active session changes: it is stamped and shown, and takes the first 30 characters of a non-empty recognized text as its title exactly when its thread was empty |
| ChatActions.SendAudio | ai-roleplay-frontend/src/features/chat/store.js:232-327 | the action throws exactly when the voice request failed; the active thread and the loading flag are kept |
| ChatActions.SendAudioAppends | ai-roleplay-frontend/src/features/chat/store.js:232-300 | a delivered reply appends the user's audio message and then every reply message, in order |
| ChatActions.SendAudioFailureLeavesOneRetry | ai-roleplay-frontend/src/features/chat/store.js:303-325 | a failed voice send leaves exactly one retryable answer, the last, which repeats the recording |
| ChatActions.RetryMessage | ai-roleplay-frontend/src/features/chat/store.js:330-405 | a retry never changes the active thread |
| ChatActions.RetryOnlyRetryable | ai-roleplay-frontend/src/features/chat/store.js:332-334 | nothing happens unless the first message with the id is a retryable answer |
| ChatActions.RetryReplies | ai-roleplay-frontend/src/features/chat/store.js:338-388 | the replies a retry obtains, none when the request gives nothing; stated by `RetryReplacesInPlace` and `RetryFailureKeepsRetryable` |
| ChatActions.Retried | ai-roleplay-frontend/src/features/chat/store.js:336-403 | the answer set to sending, then merged with the first reply or cleared; stated by `RetriedWithReplies` and `RetryReplacesInPlace` |
| ChatActions.RetryReplacesInPlace | ai-roleplay-frontend/src/features/chat/store.js:336-400 | a successful retry merges the first reply into the answer in place with status 'sent', keeps every other message, and appends the remaining replies |
| ChatActions.RetryFailureKeepsRetryable | ai-roleplay-frontend/src/features/chat/store.js:401-403 | a failed retry keeps the thread's length and leaves the answer retryable again, with the busy text and the same retry data |
| ChatStore.Store.constructor | ai-roleplay-frontend/src/features/chat/store.js:23-27 | the store starts in the initial state: thread "default", no messages, no sessions |
| ChatStore.Store.SetMessages | ai-roleplay-frontend/src/features/chat/store.js:47-52 | the fields afterwards are the state `ChatModel.SetMessages` describes |
| ChatStore.Store.AppendMessage | ai-roleplay-frontend/src/features/chat/store.js:54-62 | the fields afterwards and the returned id are those of `ChatModel.AppendMessage` |
| ChatStore.Store.ReplaceMessage | ai-roleplay-frontend/src/features/chat/store.js:64-71 | the fields afterwards are those of `ChatModel.ReplaceMessage` |
| ChatStore.Store.HydrateFromStorage | ai-roleplay-frontend/src/features/chat/store.js:73-78 | the fields afterwards are those of `ChatModel.HydrateFromStorage` |
| ChatStore.Store.CreateSession | ai-roleplay-frontend/src/features/chat/store.js:81-97 | the fields afterwards and the returned id are those of `ChatModel.CreateSession` |
| ChatStore.Store.DeleteSession | ai-roleplay-frontend/src/features/chat/store.js:99-108 | the fields afterwards are those of `ChatModel.DeleteSession` |
| ChatStore.Store.RenameSession | ai-roleplay-frontend/src/features/chat/store.js:110-114 | the fields afterwards are those of `ChatModel.RenameSession` |
| ChatStore.Store.LoadHistory | ai-roleplay-frontend/src/features/chat/store.js:116-137 | the fields afterwards are those of `ChatActions.LoadHistory` |
| ChatStore.Store.SetActiveThread | ai-roleplay-frontend/src/features/chat/store.js:30-40 | the fields afterwards are those of `ChatActions.SetActiveThread` |
| ChatStore.Store.AppendReplies | ai-roleplay-frontend/src/features/chat/store.js:195 | the loop appending the replies one by one leaves the state `ChatActions.AppendReplies` describes |
| ChatStore.Store.DemoteLastError | ai-roleplay-frontend/src/features/chat/store.js:206-213 | the fields afterwards are those of `ChatActions.DemoteLastError` |
| ChatStore.Store.SendText | ai-roleplay-frontend/src/features/chat/store.js:139-230 | the fields afterwards and whether the action throws are those of `ChatActions.SendText` |
| ChatStore.Store.Fail | ai-roleplay-frontend/src/features/chat/store.js:204-228 | the failure handling leaves the state `ChatActions.SendFailed` describes |
| ChatStore.Store.SendAudio | ai-roleplay-frontend/src/features/chat/store.js:232-327 | the fields afterwards and whether the action throws are those of `ChatActions.SendAudio` |
| ChatStore.Store.RetryMessage | ai-roleplay-frontend/src/features/chat/store.js:330-405 | the fields afterwards and whether the action throws are those of `ChatActions.RetryMessage` |
| AuthSession.TokenOrEmpty | ai-roleplay-frontend/src/features/auth/store.js:15 | `token \|\| ''` is empty exactly for a missing or empty token, and is otherwise the token |
| AuthSession.SetSession | ai-roleplay-frontend/src/features/auth/store.js:11-16 | the user and `token \|\| ''` are stored; the state is authenticated exactly when the token is truthy; only a truthy token is persisted, and otherwise the old persisted token stays |
| AuthSession.ClearSession | ai-roleplay-frontend/src/features/auth/store.js:17-22 | no user, no token, nothing persisted |
| AuthSession.HydrateFromStorage | ai-roleplay-frontend/src/features/auth/store.js:23-29 | a non-empty persisted token becomes the access token; the user and the storage are untouched |
| AuthSession.SignInSurvivesReload | ai-roleplay-frontend/src/features/auth/store.js:11-29 | after signing in with a token and reloading, hydrating restores that token, but not the user |
| AuthSession.EmptyTokenKeepsStaleLogin | ai-roleplay-frontend/src/features/auth/store.js:13-15 | setting a session with an empty token leaves an older persisted token, which a reload restores |
| AuthSession.SignOutIsFinal | ai-roleplay-frontend/src/features/auth/store.js:17-29 | after signing out, neither the store nor a reload is authenticated |
| AuthSession.HydrateIdempotent | ai-roleplay-frontend/src/features/auth/store.js:23-29 | hydrating twice is hydrating once |
| AuthStore.Store.constructor | ai-roleplay-frontend/src/features/auth/store.js:3-9 | the store starts with no user and no token, over whatever the storage holds |
| AuthStore.Store.IsAuthenticated | ai-roleplay-frontend/src/features/auth/store.js:10 | authenticated exactly when the token is non-empty |
| AuthStore.Store.SetSession | ai-roleplay-frontend/src/features/auth/store.js:11-16 | the fields afterwards are the state `AuthSession.SetSession` describes |
| AuthStore.Store.ClearSession | ai-roleplay-frontend/src/features/auth/store.js:17-22 | the fields afterwards are those of `AuthSession.ClearSession` |
| AuthStore.Store.HydrateFromStorage | ai-roleplay-frontend/src/features/auth/store.js:23-29 | the fields afterwards are those of `AuthSession.HydrateFromStorage` |
| ApiClient.GetAccessToken | ai-roleplay-frontend/src/lib/api.js:13-24 | the store's token when non-empty, else the persisted token, else ''; empty exactly when both are empty |
| ApiClient.AuthorizationHeader | ai-roleplay-frontend/src/lib/api.js:39-42 | a header exactly for a non-empty token, and the backend's bearer rule reads that token back from it |
| ApiClient.InterceptRequest | ai-roleplay-frontend/src/lib/api.js:36-47 | other headers are kept; without a token nothing changes; with one, Authorization carries it as a bearer token |
| ApiClient.SignedInRequestsCarryToken | ai-roleplay-frontend/src/lib/api.js:13-47 | after signing in, requests carry the session token that the backend filter reads; after signing out and with nothing persisted, they carry none |
| ApiClient.OrElse | ai-roleplay-frontend/src/lib/api.js:28-31 | `a \|\| b`: a when it is non-empty, else b |
| ApiClient.NormalizeError | ai-roleplay-frontend/src/lib/api.js:27-33 | status 0 exactly when there is no non-zero status; the message is the body's, else the error's own, else "Network Error"; the code is the body's or "UNKNOWN_ERROR"; the raw error is kept |
| ApiClient.IsApiError | ai-roleplay-frontend/src/lib/api.js:98-100 | true exactly for an object that has both a `status` and a `message` key |
| ApiClient.NormalizedIsApiError | ai-roleplay-frontend/src/lib/api.js:27-100 | every normalized error passes `isApiError` |
| ApiClient.OnResponseError | ai-roleplay-frontend/src/lib/api.js:50-77 | the rejection is the normalized error; a 401 clears the session and its persisted token; any other status leaves the session alone |
| ApiClient.ReplaceFirst | ai-roleplay-frontend/src/lib/api.js:109 | other names are untouched; the name keeps one value, placed where its first pair was |
| ApiClient.SetPair | ai-roleplay-frontend/src/lib/api.js:109 | `URLSearchParams.set`: other names are untouched, the name now has exactly the one value, and a new name is appended at the end |
| ApiClient.AppendWithout | ai-roleplay-frontend/src/lib/api.js:108 | appending a pair changes the other names' pairs only when the pair has another name |
| ApiClient.AppendValues | ai-roleplay-frontend/src/lib/api.js:108 | appending a pair adds its value to its own name's values |
| ApiClient.NoValuesWithout | ai-roleplay-frontend/src/lib/api.js:109 | a name with no pairs has no values |
| ApiClient.ItemPairs | ai-roleplay-frontend/src/lib/api.js:108 | an array value appends one pair per element, in order |
| ApiClient.HexDigit | ai-roleplay-frontend/src/lib/api.js:111 | percent-encoding uses upper-case hex digits |
| ApiClient.Utf8 | ai-roleplay-frontend/src/lib/api.js:111 | a character is 1 to 4 bytes, a single byte exactly for ASCII; `Utf8RoundTrip` shows the bytes decode back to it |
| ApiClient.PercentBytes | ai-roleplay-frontend/src/lib/api.js:111 | three characters per byte, '%' and two hex digits; `PercentRunOf` shows they read back as the bytes |
| ApiClient.PercentBytesDigits | ai-roleplay-frontend/src/lib/api.js:111 | byte `i` is written at `3 * i` as '%' and its high and low upper-case hex digit |
| ApiClient.EncodeChar | ai-roleplay-frontend/src/lib/api.js:111 | unreserved characters stay, a space becomes '+', everything else is the percent escapes of its UTF-8 bytes; the output holds only safe characters; `DecodeEncodeChar` shows it decodes back |
| ApiClient.Encode | ai-roleplay-frontend/src/lib/api.js:111 | an encoded name or value never contains '&' or '='; `DecodeEncode` shows decoding gives the text back |
| ApiClient.EncodePair | ai-roleplay-frontend/src/lib/api.js:111 | an encoded pair never contains '&' |
| ApiClient.Serialize | ai-roleplay-frontend/src/lib/api.js:111-112 | the serialized string is empty exactly when there are no pairs |
| ApiClient.ToQuery | ai-roleplay-frontend/src/lib/api.js:103-113 | the loop over the entries returns the query string of the parameters |
| ApiClient.PairNames | ai-roleplay-frontend/src/lib/api.js:106-110 | every name in the builder is the key of some entry |
| ApiClient.WithoutMembers | ai-roleplay-frontend/src/lib/api.js:109 | a pair with another name is in the list exactly when it survives the name's removal |
| ApiClient.DistinctKeysConcat | ai-roleplay-frontend/src/lib/api.js:106-110 | with distinct keys, as an object has, the builder is each entry's pairs in entry order; `set` never reorders |
| ApiClient.EmptyQuery | ai-roleplay-frontend/src/lib/api.js:104-112 | the result is '' exactly when the parameters are absent or no entry contributes a pair, since null, undefined and empty arrays add nothing |
| ApiClient.NoPairs | ai-roleplay-frontend/src/lib/api.js:106-110 | the builder is empty exactly when no entry contributes a pair |
| ApiClient.Split | ai-roleplay-frontend/src/lib/api.js:111 | splitting always yields at least one part |
| ApiClient.SplitNoSeparator | ai-roleplay-frontend/src/lib/api.js:111 | a string without the separator splits into itself |
| ApiClient.SplitAtSeparator | ai-roleplay-frontend/src/lib/api.js:111 | a separator splits off the part before it |
| ApiClient.SerializeSplits | ai-roleplay-frontend/src/lib/api.js:111-112 | the serialized string splits on '&' into exactly the encoded pairs, in order |
| ApiClient.EncodedPairSplits | ai-roleplay-frontend/src/lib/api.js:106-110 | an encoded pair splits on '=' into the encoded name and the encoded value, so the query can be decoded back |
| ApiClient.HexRoundTrip | ai-roleplay-frontend/src/lib/api.js:111 | every hex digit the encoder writes reads back as its value |
| ApiClient.Utf8RoundTrip | ai-roleplay-frontend/src/lib/api.js:111 | the UTF-8 bytes of any character announce their length in the lead byte and decode back to the character |
| ApiClient.TwoBytes | ai-roleplay-frontend/src/lib/api.js:111 | a two-byte sequence has a valid lead and continuation byte and spells the scalar value |
| ApiClient.ThreeBytes | ai-roleplay-frontend/src/lib/api.js:111 | a three-byte sequence has a valid lead and continuation bytes and spells the scalar value |
| ApiClient.FourBytes | ai-roleplay-frontend/src/lib/api.js:111 | a four-byte sequence has a valid lead and continuation bytes and spells the scalar value |
| ApiClient.PercentRunOf | ai-roleplay-frontend/src/lib/api.js:111 | the escapes of a byte sequence read back as those bytes |
| ApiClient.DecodeEncodeChar | ai-roleplay-frontend/src/lib/api.js:111 | decoding an encoded character followed by any text gives the character, then the decoded text |
| ApiClient.DecodeEncode | ai-roleplay-frontend/src/lib/api.js:111 | decoding undoes the encoding of every name and value |
| ApiClient.SplitFirst | ai-roleplay-frontend/src/lib/api.js:106-112 | the part before the first separator holds none, and the parts and the separator rebuild the text |
| ApiClient.SplitFirstAt | ai-roleplay-frontend/src/lib/api.js:106-112 | an encoded name splits off at the "=" that follows it |
| ApiClient.DecodeEncodePair | ai-roleplay-frontend/src/lib/api.js:106-112 | an encoded pair is non-empty and decodes back to the pair |
| ApiClient.DecodeEncodedPairs | ai-roleplay-frontend/src/lib/api.js:106-112 | the encoded pairs decode back to the pairs, in order |
| ApiClient.ParseSerialize | ai-roleplay-frontend/src/lib/api.js:106-112 | the serialized query parses back into exactly the pairs, in order, repeated names included |
| Sidebar.Filtered | ai-roleplay-frontend/src/components/layout/Sidebar.jsx:16-22 | a session is listed exactly when it is stored, not hidden, and its title contains the keyword ignoring ASCII case; newest first; no session is added |
| Sidebar.FilteredFacts | ai-roleplay-frontend/src/components/layout/Sidebar.jsx:16-22 | the sort-then-filter pipeline lists exactly the shown sessions, sorted |
| Sorting.FilterMembers | ai-roleplay-frontend/src/components/layout/Sidebar.jsx:20-21 | an element is kept exactly when it is present and accepted |
| Sidebar.FilterBound | ai-roleplay-frontend/src/components/layout/Sidebar.jsx:20-21 | a lower bound on every session's key still holds after filtering |
| Sidebar.FilterSorted | ai-roleplay-frontend/src/components/layout/Sidebar.jsx:20-21 | filtering keeps the list sorted |
| Sidebar.WithKeyFilter | ai-roleplay-frontend/src/components/layout/Sidebar.jsx:17-21 | selecting by time and filtering commute |
| Sidebar.WithKeyAppend | ai-roleplay-frontend/src/components/layout/Sidebar.jsx:17-19 | selecting by time distributes over concatenation |
| Sidebar.FilteredStable | ai-roleplay-frontend/src/components/layout/Sidebar.jsx:17-21 | sessions with the same time are listed in their store order |
| Sidebar.EmptyKeywordListsAllVisible | ai-roleplay-frontend/src/components/layout/Sidebar.jsx:20-21 | with an empty keyword, every session that is not hidden is listed |
| Sidebar.LowerIdempotent | ai-roleplay-frontend/src/components/layout/Sidebar.jsx:21 | lower-casing twice is lower-casing once |
| Sidebar.KeywordCaseIgnored | ai-roleplay-frontend/src/components/layout/Sidebar.jsx:21 | a keyword and its lower-cased form list the same sessions |
| Sidebar.OnRename | ai-roleplay-frontend/src/components/layout/Sidebar.jsx:29-32 | a rename happens exactly when the prompt was not cancelled and the answer is not blank, and the title is the trimmed answer |
| Sidebar.PromptRename | ai-roleplay-frontend/src/components/layout/Sidebar.jsx:29-32 | only the matching sessions' titles change, each to a non-blank trimmed title, and nothing changes when the rename is refused |
| Sidebar.CommitTitle | ai-roleplay-frontend/src/components/layout/Sidebar.jsx:84-88 | never empty: the trimmed input, or "新会话" when the input is blank |
| Sidebar.CommitUnedited | ai-roleplay-frontend/src/components/layout/Sidebar.jsx:64-88 | committing an unedited title writes back a trimmed stored title unchanged, and an untitled session shows the default |
| Sidebar.NewSessionNotListed | ai-roleplay-frontend/src/components/layout/Sidebar.jsx:24-27 | a new session is titled "新会话", becomes first and active, and stays out of the list until it is revealed |
| Text.Trim | ai-roleplay-backend/src/main/java/com/ai/roleplay/controller/ConversationController.java:37 | the trimmed string is the factor left once the leading and trailing spaces are removed |
| Text.BlankIffAllJavaSpace | ai-roleplay-backend/src/main/java/com/ai/roleplay/controller/ConversationController.java:37 | `trim().isEmpty()` holds exactly when every character is at most U+0020 |
| Text.TrimIdempotent | ai-roleplay-frontend/src/components/layout/Sidebar.jsx:31 | trimming twice is trimming once |
| Text.AsciiLower | ai-roleplay-frontend/src/components/layout/Sidebar.jsx:21 | lower-casing keeps the length and maps each character on its own |
| Text.Wrap32 | ai-roleplay-backend/src/main/java/com/ai/roleplay/service/ConversationService.java:132 | Java `int` arithmetic: the value is reduced into the 32-bit range, and values already in range are unchanged |
| Text.NatToDecimal | ai-roleplay-frontend/src/features/chat/store.js:82 | the decimal rendering of a number is a non-empty string of digits |
| Text.DecimalRoundTrip | ai-roleplay-backend/src/main/java/com/ai/roleplay/controller/ConversationController.java:45 | reading back a rendered number gives the number |
| Text.ParseLong | ai-roleplay-backend/src/main/java/com/ai/roleplay/controller/ConversationController.java:43-49 | a string `Long.parseLong` accepts is an optional sign followed by digits, and its value lies within `long` range |
| Text.LongRoundTrip | ai-roleplay-backend/src/main/java/com/ai/roleplay/controller/ConversationController.java:45 | every `long` survives `Long.toString` followed by `Long.parseLong` |
| Text.ZeroPad | ai-roleplay-backend/src/main/java/com/ai/roleplay/controller/FileController.java:71 | a zero-padded rendering has the requested width when the number fits, and has the number's value |
| Text.RemoveAll | ai-roleplay-backend/src/main/java/com/ai/roleplay/controller/FileController.java:117 | `replace(target, "")` never lengthens the string |
| Text.RemoveAbsent | ai-roleplay-backend/src/main/java/com/ai/roleplay/controller/FileController.java:117 | removing a target that never occurs changes nothing |
| Sorting.Filter | ai-roleplay-frontend/src/components/layout/Sidebar.jsx:20-21 | the kept elements are accepted, every accepted element is kept, and nothing is added |
| Sorting.SortBy | ai-roleplay-frontend/src/components/layout/Sidebar.jsx:17-19 | the result is sorted by the key and is a permutation of the input |
| Sorting.SortStable | ai-roleplay-frontend/src/components/layout/Sidebar.jsx:19 | elements with equal keys keep their input order |
| Sorting.Select | ai-roleplay-backend/src/main/java/com/ai/roleplay/service/CharacterService.java:20-30 | `WHERE … ORDER BY`: sorted by the key, only kept elements, every kept element, and no element added |
| Sorting.Take | ai-roleplay-frontend/src/features/chat/store.js:200-203 | the first n elements, or all of them when there are fewer |
| Sorting.ReverseTakeReverse | ai-roleplay-backend/src/main/java/com/ai/roleplay/service/ConversationService.java:158-171 | the first n of the reversed sequence, read back to front, are the last n of the sequence in order |

## Left out

- Outbound HTTP and JSON (hutool `HttpRequest`/`JSONUtil`, axios): a vendor reply is a datatype that the transport parameter returns; the float sampling parameters `temperature` and `top_p` are not modelled.
- The async variants (`chatAsync`, `chatWithSkillAsync`, `@Async`, `CompletableFuture`, `aiTaskExecutor`): only the text they complete with is modelled, which is that of the sync call; concurrent turns on one conversation are not modelled, and `@Transactional` is one atomic step.
- Cryptography: jjwt HS256 signing and parsing and BCrypt hashing are function parameters; what the model assumes of them is stated as predicates that the lemmas require.
- Jwt.IsTokenExpired: jjwt truncates the expiry to whole seconds; the model keeps milliseconds.
- `JwtUtil.getExpirationDateFromToken` is a getter over the same parsed claims and is not modelled separately; the logging in `getClaimsFromToken` is left out, its rethrowing is the `Result` error path.
- MyBatis-Plus internals and `@TableLogic`: a table is a sequence of rows, and deleted rows do not exist.
- Spring wiring, SecurityConfig, WebConfig, OpenApiConfig, CharacterSkillMapper and GlobalExceptionHandler's handler resolution are not part of this model; a request that fails bean validation is a rejection with the constraint's message.
- SpeechService, SpeechController and SystemController are not part of this model; speech recognition in `voiceChat` is a parameter.
- The four-argument `chat` overload in ConversationService.java:29-81 calls a two-argument `getOrCreateConversation` that does not exist, so it is not modelled.
- `createConversation`, `deleteConversation` and `updateConversationTitle` in ConversationController.java:125-169 call service methods that do not exist, and `getConversationDetail` builds on them; none of them is modelled.
- AiServiceFactory.java:56-71 calls `chatSync` and `chatWithSkillSync` on ZhipuAiService, which defines only `chat` and `chatWithSkill`; the model takes those two as Zhipu's sync methods. The chat turn itself calls Zhipu directly, not the factory, as ConversationService.java:109-120 does.
- Files.UploadFile: creating directories and writing the file (`createDirectories`, `transferTo`) are I/O and are not modelled, nor is `Paths` normalisation; the UUID and the date are parameters.
- Files.DatePath: years are formatted with four digits; years above 9999 are not modelled.
- Clocks, UUIDs, `Math.random` ids and `URL.createObjectURL` are parameters everywhere.
- Users.FindBy: `eq username` and `eq email` (UserService.java:17-27) compare under the column's collation, and the schema is not part of this model. Under MySQL's default case-insensitive collations, "ALICE" finds the row "alice" and so logs in as "alice"; the model compares strings exactly. The same holds for `Users.FindByUsername`, `Users.FindByEmail`, `Users.UniqueLookups` and `Users.Login`.
- Users.ExistsBy: `count > 0` on `eq username` or `eq email` (UserService.java:29-39) has the same collation gap. Under a case-insensitive collation, registering "ALICE" is refused when "alice" exists; the model accepts it. This carries over to `Users.Registration`, `Users.RegisterRefusals` and `Users.RegisterKeepsValid`, whose uniqueness is exact-string uniqueness.
- Characters.GetCharactersByCategory: `eq category` (CharacterService.java:59) compares exactly in the model, not under the column's collation.
- Characters.GetAllCategories: `DISTINCT category` (CharacterService.java:45) merges values that the collation deems equal, such as "Anime" and "anime", and keeps one of them without saying which. The model keeps every exactly-distinct value. Its `compareTo` sort is Java's and is modelled exactly.
- Conversations.Window: `create_time` is taken as strictly increasing in insertion order. Ties are resolved by storage order, which the database does not promise. `create_time` is a DATETIME with whole seconds, so two messages of one turn can tie. `ORDER BY create_time DESC LIMIT n` (ConversationService.java:158-171) may then return tied rows in either order, and may keep either of two tied rows at the limit. The same holds for `Conversations.ReadHistory`, `Conversations.WindowEndsWithUserMessage` and `Conversations.GetConversationMessages`; `update_time` ties in `Conversations.GetUserConversations` and `Conversations.SelectConversations` are treated the same way.
- Characters.GetPopularCharacters: `ORDER BY create_time DESC` with `LIMIT` (CharacterService.java:65-83) resolves `create_time` ties by storage order in the model, which the database does not promise. The same holds for `Characters.GetRecommendedCharacters`, `Characters.ListedNewestFirst`, `Characters.SelectNewestFirst`, `Characters.SearchCharacters`, `Characters.GetCharactersByCategory` and `Sorting.Select`.
- Characters.GetCharacterSkills: skills with the same `sort_order` (CharacterService.java:35) are listed in storage order in the model; the database may list them in any order.
- Characters.SearchCharacters: the database collation is not modelled. A case-insensitive collation would match "ABC" against "abc"; the model compares characters exactly. The LIKE escape character (`\` by default in MySQL) is not modelled either, but the keyword is bound without escaping, so `%` and `_` in it act as wildcards as modelled.
- Users.RegisterViolations: `@Email` is modelled as dot-separated atoms in the local part and labels in the domain, over Hibernate Validator 6's character class (ASCII letters and digits, ``!#$%&'*+/=?^_`{|}~-``, and U+0080 to U+FFFF; no leading or trailing `-` in a label), with the 64- and 255-unit limits. Not modelled: Hibernate's 63-character limit per domain label, IP-literal domains such as `[127.0.0.1]`, quoted local parts, and the IDN (punycode) form of the domain whose length is what the 255 limit checks.
- Files.GetFileInfo: the lookup is modelled as a search among the uploaded files. `Paths.get(uploadPath, name)` with `File.exists()` also finds directories (such as "image"), any other file under the upload root, and paths that leave the root through "..", such as "../application.yml". Separator normalisation by `Paths.get` is not modelled either.
- ConversationApi.ExceptionMessage: the three null dereferences of a turn throw different JVM messages: a null conversation from `getById`, a null character, and unboxing a null message count. The model passes one message, as a parameter, for whichever of them happened.
- ApiClient.DecodeForm is a strict reference decoder that refuses broken escapes, where a browser's URLSearchParams parser keeps them literally or substitutes U+FFFD; it is only used to state the round trip.
- Text.AsciiLower: Java and JavaScript lower-casing is modelled for ASCII letters only.
- Sorting.Take: JavaScript `slice(0, 30)` counts UTF-16 code units; the model counts characters.
- Text.ParseLong: only ASCII digits are accepted, whereas `Long.parseLong` also accepts other Unicode decimal digits.
- Frontend local storage: the stores read and write the cached messages, sessions and token as values; a storage exception, and the JSON encoding of the cache, are not modelled.
- The frontend mock mode (`isMock`) and the 401 redirect through `window.location` are left out.
- `Object.entries` order and `String(v)` in `toQuery` are taken as given: the parameters are a list of keys with already rendered values.
- The chat store's `loadHistory` does not fetch: the store's own `get` shadows the imported HTTP `get`, so the action resets the thread to an empty list, and the model does exactly that.
- `characterId` parsing with `parseInt` and the parsing of `createTime` in the chat store's backend-message mapping are taken as given values.
- The intermediate UI states of an action (loading flags set and cleared within one action, a message shown as sending) are collapsed: each action is one step from its start state to its end state.
- The Sidebar's delete confirmation dialog, SessionMenu and all other pages, layouts and components are UI and are not modelled.
