# LinguaConnect chat orchestration, modelled in Dafny

This project models the core of the LinguaConnect backend. Two parties, or a
user and the `lingo-bot` assistant, exchange chat messages that are translated
on the way. The model covers:

- **Chat service:** conversation and message orchestration. This means
  conversation creation and lookup, language detection, the routing decision
  (bot branch, translation branch, unchanged), message persistence, the unread
  counters, ending a conversation and exporting it.
- **Socket gateway:** authentication, joining rooms, and sending with
  moderation ahead of persistence.
- **Services around it:** language detection, the NLLB tag table, the two
  translator caches, the chatbot client and the blocklist moderation.
- **HTTP handlers:** the auth guard, the response envelopes, the
  translate/detect handlers and the FAQ upload/lookup handlers with their
  records.
- **Chat screen:** the pure logic of the front-end chat screen (language
  table, search, send guard, transcript export).

## How the model is built

- **Stores:** maps from ids to records plus a fresh-id counter
  (`ChatService.Store`, `FaqModels.FaqStore`). Database ids are natural
  numbers.
- **Clock:** a `now: nat` parameter.
- **Collaborators as parameters:** everything the code calls but does not
  define is a function-typed parameter. That covers:
  - the language identifier and the ISO 639-3 table (`DetectService.Detector`);
  - the transformer pipeline (`TranslationService.Engine`: load a model, run
    a loaded model; either may fail);
  - the chatbot HTTP endpoint (`LingoModelService.Endpoint`);
  - the session-token verifier (`AuthMiddleware.Verifier`);
  - the dashboard statistics;
  - whether a given database write succeeds.
- **Exceptions** become `Result` failures.
- **JavaScript values** are modelled where they matter:
  - truthiness, `??` and optional property access are in `Json`;
  - `String.prototype.replace` with a string pattern is `Strings.ReplaceFirst`;
  - `trim` is `Strings.Trim`, with the ECMAScript white-space set restricted
    to the characters listed in `Strings.IsSpace`.
- **Mongoose validation** follows the schemas: a required string path refuses
  both a missing value and the empty string.

Modules follow the source files. Shared helpers come first:

- `Wrappers`, `Json`, `Strings`, `Sequences`;
- services: `DetectService`, `ModerationService`, `TranslationService`,
  `TranslateService`, `LingoModelService`;
- records: `ChatModels`, `FaqModels`;
- orchestration and transport: `ChatService`, `ChatSocket`;
- HTTP handlers: `ResponseHandler`, `AuthMiddleware`,
  `TranslationController`, `FaqController`, `FaqService`;
- the screen: `ChatInterface`.

## Where the code and the design disagree

Where the code and the design disagree, the model follows the code. The one
place where the model does not follow the code is the chatbot's empty-string
reply (chatService.js line 38, see "## Findings"). The send path uses the
corrected bot branch there, and `ChatService.BotRouteDiffersOnlyOnEmptyReply`
shows that this is the only answer on which the two differ. The differences
between code and design are:

- **Bot branch with a non-string reply.** When the chatbot returns no string
  reply, the code falls back to the user's own text. If a target language
  other than English is given, it then translates that text from English.
  The design says the user's text is never translated in the bot branch.
  `ChatService.BotRoute` states this fallback.
- **Unread counters of non-participants.** The design says `unreadCounts`
  only holds participants. The code accepts any user id:
  - `resetUnread` writes a counter for whatever user it is given
    (`ChatService.ResetUnreadAddsOutsider`);
  - `sendMessage` into an existing conversation increments the counter of
    whatever receiver it is given.
- **Counter updates are not atomic.** The design asks for an atomic
  increment. The code reads the conversation, changes the counter in memory
  and saves it. The model runs requests one at a time, so it shows the
  single-request effect only (see Left out).
- **No single-flight translator start-up.** The design asks for a guarded,
  single-flight translator initialization. The code fills a module-level slot
  after an `await`. The model proves "loaded at most once" only for
  sequential calls (`TranslationService.InitTranslatorLoadsOnce`,
  `TranslateService.LoadedAtMostOnce`).
- **`closedAt` is refreshed.** Ending a conversation sets `closedAt` to the
  current time again on every call, and the model follows that.
- **Error ordering on the socket.** A failed statistics query is reported to
  the sender as an `error` after `receive_message` was already broadcast.
  Persistence errors reach the client with their message text.
- **FAQ tags are mapped twice.** The FAQ controller passes NLLB tags to a
  translation function that maps its arguments again. Every FAQ model call
  therefore asks for `eng_Latn` to `eng_Latn`
  (`FaqController.UploadAlwaysAsksEnglishToEnglish`). It is modelled as
  written.
- **Language table size.** The chat screen's language table has 74 entries,
  although its heading advertises more than 100.

## Model

| member | source | states |
|---|---|---|
| Strings.ToLower | backend/dist/services/moderationService.js:3 | lower-casing keeps the length and maps every character on its own (ASCII case mapping) |
| Strings.ReplaceFirst | backend/dist/middleware/authMiddleware.js:8 | only the first occurrence of the pattern is replaced; a text without the pattern is returned unchanged |
| Strings.Trim | src/components/ChatInterface.tsx:186 | the trimmed text is a slice of the input with only white space before and after it, and it starts and ends with a non-space character or is empty |
| Strings.TrimEmptyIffAllSpace | src/components/ChatInterface.tsx:186 | a text trims to nothing exactly when it is all white space |
| Strings.Join | src/components/ChatInterface.tsx:216 | joining no parts gives the empty text; one part gives that part |
| Strings.JoinAppend | src/components/ChatInterface.tsx:216 | joining two non-empty lists equals joining each and putting the separator between |
| DetectService.Find | backend/dist/services/detectService.js:13 | `find` returns the first row with the code, or reports that no row has it |
| DetectService.DetectLanguage | backend/dist/services/detectService.js:9-15 | `und` gives `en`; an unknown code or a row without an ISO 639-1 code gives `en`; otherwise the first matching row's ISO 639-1 code; never empty |
| DetectService.MapToNLLB | backend/dist/services/detectService.js:19-33 | a code of the table maps to its own tag, and a code outside the table maps to `eng_Latn`; every result is a tag of the table and never itself an ISO code of the table |
| DetectService.MapToNLLBListed | backend/dist/services/detectService.js:20-31 | each of the ten listed codes maps to its fixed NLLB-200 tag (`fr` to `fra_Latn`, `hi` to `hin_Deva`, and so on) |
| DetectService.NllbTableSize | backend/dist/services/detectService.js:20-31 | the table has exactly ten languages |
| DetectService.MapToNLLBInjective | backend/dist/services/detectService.js:20-31 | two known codes with the same tag are the same code |
| DetectService.MapToNLLBTwice | backend/dist/services/detectService.js:19-33 | mapping an already mapped tag always gives `eng_Latn` |
| DetectService.MapToNLLBEnglish | backend/dist/services/detectService.js:21-32 | English maps to the default tag, so unknown codes are treated as English |
| ModerationService.FirstBlocked | backend/dist/services/moderationService.js:4-6 | finds a blocklisted word the text contains, and finds none exactly when it contains none |
| ModerationService.ModerateText | backend/dist/services/moderationService.js:1-8 | flagged exactly when the lower-cased text (missing text read as empty) contains `badword1` or `badword2`; flagged verdicts, and only those, carry reason `profanity` |
| ModerationService.MissingTextNotFlagged | backend/dist/services/moderationService.js:3 | a missing text is not flagged and carries no reason |
| ModerationService.ModerationCaseInsensitive | backend/dist/services/moderationService.js:3-5 | texts with the same lower-case form get the same verdict |
| ModerationService.ModerationMonotone | backend/dist/services/moderationService.js:3-6 | surrounding a flagged text with more text keeps it flagged |
| TranslationService.ModelName | backend/dist/services/translationService.js:14-16 | key `3.3B` selects the 3.3B model and every other key the distilled 600M model |
| TranslationService.InitTranslator | backend/dist/services/translationService.js:12-21 | a cached translator is returned without loading; otherwise the key's model is loaded and cached on success; a failed load leaves the cache unchanged |
| TranslationService.InitTranslatorLoadsOnce | backend/dist/services/translationService.js:12-21 | after one successful initialization, a second one loads nothing and returns the same translator |
| TranslationService.FirstText | backend/dist/services/translationService.js:31 | a result is the first output element's non-empty translation text |
| TranslationService.TranslateText | backend/dist/services/translationService.js:25-38 | never fails; the model is run on the NLLB tags of the two codes; the result echoes the ISO codes; the translation is the model's first non-empty output, else the input text; non-empty for non-empty input |
| TranslationService.TranslateFailureEchoesText | backend/dist/services/translationService.js:34-37 | when the model fails to load or to run, the result is the input text with the codes echoed |
| TranslateService.InitTranslator | backend/dist/services/translateService.js:7-13 | a filled slot is reused; an empty one loads the distilled model |
| TranslateService.TranslateText | backend/dist/services/translateService.js:17-36 | fails exactly when the slot is empty and loading fails; a slot filled by the call holds what loading the distilled model returned; otherwise tags pass unmapped to the model and the result is the first non-empty output or the text |
| TranslateService.LoadedAtMostOnce | backend/dist/services/translateService.js:7-13 | after one successful call, the next call succeeds and keeps the same translator |
| LingoModelService.ReplyOf | backend/dist/services/lingoModelService.js:7-8 | the payload is the non-nullish `data` envelope, or else the body; the reply is the payload's non-nullish `reply`, or else the whole payload; a nullish body gives `null` |
| LingoModelService.QueryLingoModel | backend/dist/services/lingoModelService.js:2-14 | never fails: a transport failure gives `null`, and every other reply comes from the response body |
| LingoModelService.ReplyShapes | backend/dist/services/lingoModelService.js:6-8 | `{reply: s}` and `{data: {reply: s}}` both yield `s` |
| LingoModelService.EnvelopeTransparent | backend/dist/services/lingoModelService.js:7 | wrapping a payload in a `data` envelope does not change the reply |
| LingoModelService.NonStringReply | backend/dist/services/lingoModelService.js:8 | a body without `reply` is returned whole |
| ChatModels.ParseStatus | backend/dist/models/ChatMessage.js:10 | only `active` and `ended` pass the enum, and each parses back to its own name |
| ChatModels.StatusRoundTrip | backend/dist/models/ChatMessage.js:10 | every status survives the trip through its stored name |
| ChatModels.ErrorMessage | backend/dist/models/ChatMessage.js:2-11 | a single failing path gives `<Model> validation failed: <path>: <validator message>`; not-found and store failures carry their own message |
| ChatModels.ValidationMessageAppend | backend/dist/models/ChatMessage.js:2-11 | each further failing path adds `, ` and that path's message to the validation message |
| ChatModels.InvalidPaths | backend/dist/models/ChatMessage.js:2-11 | a draft is valid exactly when conversation id, sender, receiver and text are given and non-empty and any status is in the enum |
| ChatModels.CreateMessage | backend/dist/models/ChatMessage.js:2-11 | validation failures are reported; otherwise every given field is kept, `sourceLang` defaults to `auto`, `targetLang` to `en`, `status` to active, timestamps are now |
| ChatModels.CreateConversation | backend/dist/models/Conversation.js:2-14 | `meta` defaults to empty unread counters and no `closedAt`; no last message; timestamps are now |
| ChatModels.DefaultMetaNoUnread | backend/dist/models/Conversation.js:4-7 | a conversation with the default `meta` reports no unread messages for anyone |
| ChatService.NewConversation | backend/dist/services/chatService.js:8-11 | the pair as participants, unread counters for exactly both at zero |
| ChatService.CreateChat | backend/dist/services/chatService.js:7-13 | stores one new conversation under a fresh id, nothing else changes, returns its id and the participants |
| ChatService.ConversationsOf | backend/dist/services/chatService.js:15-17 | exactly the stored conversations the user takes part in, each once, most recently updated first |
| ChatService.GetChats | backend/dist/services/chatService.js:14-22 | every conversation of the user once, newest first, each annotated with that user's counter (0 when absent) |
| ChatService.SelectedConversations | backend/dist/services/chatService.js:15-17 | a distinct, sorted list whose elements are the stored conversations that pass the filter holds each of them once, in key order |
| ChatService.ExportConversation | backend/dist/services/chatService.js:86-88 | exactly the stored messages of the conversation, each once, with non-decreasing `createdAt` |
| ChatService.SelectedMessages | backend/dist/services/chatService.js:87 | a distinct, sorted list whose elements are the stored messages that pass the filter holds each of them once, in key order |
| ChatService.EndConversation | backend/dist/services/chatService.js:82-85 | every message of the conversation becomes ended, no other message changes, no message appears or disappears; an existing conversation gets `closedAt` = now |
| ChatService.EndConversationIdempotent | backend/dist/services/chatService.js:82-85 | ending twice leaves the same message statuses as ending once |
| ChatService.EndedExport | backend/dist/services/chatService.js:82-88 | after ending, the export holds only ended messages |
| ChatService.ResetUnread | backend/dist/services/chatService.js:89-98 | fails with `Conversation not found` exactly when the conversation is missing; otherwise the user's counter is 0 and the other counters are unchanged |
| ChatService.ResetUnreadAddsOutsider | backend/dist/services/chatService.js:93-95 | resetting a non-participant adds a counter for that user |
| ChatService.TranslateRoute | backend/dist/services/chatService.js:49-58 | the text is translated exactly when a target is given and differs from the detected source; otherwise it is kept; never empty for non-empty text |
| ChatService.BotBase | backend/dist/services/chatService.js:38 | corrected, not as written: the chatbot's non-empty string reply, or else the user's text, so never empty for non-empty text; the code as written also keeps an empty string reply (`ChatService.BotBaseAsWritten`) |
| ChatService.BotRouteWith | backend/dist/services/chatService.js:35-48 | asks the chatbot the user's text; translates the starting text from English exactly when a target other than English is given |
| ChatService.BotRouteAsWritten | backend/dist/services/chatService.js:35-48 | the bot branch as written: without translation the result is the string reply, or the text when the reply is not a string |
| ChatService.BotEmptyReplyAsWritten | backend/dist/services/chatService.js:38 | as written, a chatbot answering `""` to `hello` leaves an empty translated text |
| ChatService.BotRoute | backend/dist/services/chatService.js:35-48 | the corrected bot branch: translates the chatbot's non-empty reply, or the user's text when there is none, and never returns an empty text for a non-empty input |
| ChatService.BotRouteDiffersOnlyOnEmptyReply | backend/dist/services/chatService.js:35-48 | the corrected bot branch and the branch as written give the same result for every chatbot answer except the empty string |
| ChatService.BotTranslationFallbackInert | backend/dist/services/chatService.js:39-42 | the `\|\| translatedText` fallback after translating the chatbot's answer leaves the translated text unchanged, whatever the answer |
| ChatService.BotReplyKeptWhenTranslationFails | backend/dist/services/chatService.js:39-42 | when translating the reply fails, the raw reply is kept |
| ChatService.RouteMessage | backend/dist/services/chatService.js:35-58 | the corrected bot branch for the bot receiver, the translation branch otherwise; never empty for non-empty text (the code as written can return `""` for the bot receiver) |
| ChatService.ResolveConversation | backend/dist/services/chatService.js:24-32 | an existing requested conversation is used unchanged; otherwise a new one for the pair is stored under a fresh id |
| ChatService.RecordDelivery | backend/dist/services/chatService.js:70-75 | the receiver's counter rises by exactly one, every other counter is unchanged, the last message is this one |
| ChatService.SendMessage | backend/dist/services/chatService.js:23-81 | fails exactly on a validation or insert failure, and then stores no message; otherwise stores one active message under a fresh id with the detected source, the target (or the source), a non-empty translated text from the routing (with the corrected bot branch), in the resolved conversation; messages stored earlier are untouched |
| ChatService.InsertMessage | backend/dist/services/chatService.js:59-68 | the message lands under a fresh id; conversations and every earlier message stay as they were |
| ChatService.SaveConversation | backend/dist/services/chatService.js:70-79 | only the saved conversation changes; no message changes |
| ChatService.SendMessageTouchesOnlyResolved | backend/dist/services/chatService.js:23-81 | no conversation other than the resolved one changes; a failed send leaves the store as conversation resolution left it |
| ChatService.SendMessageUpdatesConversation | backend/dist/services/chatService.js:24-79 | the message lands in the requested conversation when it exists, otherwise in a new one for sender and receiver; a successful save increments the receiver's counter by one, leaves every other counter alone and records the message as the last one; a failed save leaves the conversation as resolved |
| ChatService.CreateThenSend | backend/dist/services/chatService.js:7-81 | after creating a chat and sending one message with no target, the message is untranslated, the receiver's counter is 1 and the sender's is 0 |
| ChatSocket.Connect | backend/dist/socket/chatSocket.js:6 | a new connection has no user and no rooms |
| ChatSocket.Authenticate | backend/dist/socket/chatSocket.js:8-11 | binds the user to the socket and answers `authenticated` to that socket only |
| ChatSocket.JoinConversation | backend/dist/socket/chatSocket.js:12 | adds the room to the socket and emits nothing |
| ChatSocket.SendMessage | backend/dist/socket/chatSocket.js:13-30 | an unknown socket does nothing; unauthenticated: `error Not auth` and no change; flagged: `message_blocked` with `profanity` and no change; otherwise the step is the gateway's handling of the chat service's outcome for the request built from the bound user and the payload; messages stored earlier are untouched, and any new message carries the bound user as sender and the sent text |
| ChatSocket.AfterService | backend/dist/socket/chatSocket.js:22-28 | a failed service call emits one error to the sender; a delivered message goes to its conversation's room as `receive_message`, followed by `dashboard_update` to everyone or the statistics error to the sender |
| ChatSocket.SendMessageEmissions | backend/dist/socket/chatSocket.js:13-30 | at most one error, and errors and blocks reach only the sender; a `receive_message` happens only for an authenticated socket, carries a message stored under that user, goes to its room and is followed by exactly one statistics emission |
| ChatSocket.SendMessageDelivers | backend/dist/socket/chatSocket.js:21-29 | for an authenticated sender with clean text the chat service's store is adopted; a stored message is emitted first, as `receive_message` to its conversation's room, and is in the store; a service failure sends only its error to the sender |
| ChatSocket.RejectionsReachOnlySender | backend/dist/socket/chatSocket.js:13-30 | `error` and `message_blocked` reach the sending socket and no other |
| ChatSocket.Handle | backend/dist/socket/chatSocket.js:6-31 | every socket event keeps the store well formed |
| ChatSocket.Run | backend/dist/socket/chatSocket.js:6-31 | any sequence of socket events keeps the store well formed |
| ChatSocket.SendKeepsClean | backend/dist/socket/chatSocket.js:17-21 | one `send_message` never stores a text moderation flags |
| ChatSocket.RunStoresOnlyModeratedText | backend/dist/socket/chatSocket.js:17-21 | after any sequence of socket events, every stored message passed moderation |
| ResponseHandler.SendResponse | backend/dist/utils/responseHandler.js:1-3 | the status is kept, `success` holds exactly below 400, message and data are kept |
| ResponseHandler.SendResponseWellFormed | backend/dist/utils/responseHandler.js:2 | a reply's `success` agrees with its status code |
| ResponseHandler.Success | backend/dist/utils/responseHandler.js:4 | an object with exactly `status: success`, the message and the data |
| ResponseHandler.Failure | backend/dist/utils/responseHandler.js:5 | an object with exactly `status: error`, the message, and the error's truthy `message` or else the error itself |
| ResponseHandler.FailureUnwrapsMessage | backend/dist/utils/responseHandler.js:5 | an error object with a non-empty message is reduced to it; a non-object error is kept |
| ResponseHandler.FailureKeepsEmptyMessageObject | backend/dist/utils/responseHandler.js:5 | an error object whose message is empty is reported whole |
| AuthMiddleware.StripBearer | backend/dist/middleware/authMiddleware.js:8 | the token is the header with its first `Bearer ` removed, wherever it occurs |
| AuthMiddleware.StripBearerConventional | backend/dist/middleware/authMiddleware.js:8 | `Bearer <token>` yields exactly the token |
| AuthMiddleware.Authenticate | backend/dist/middleware/authMiddleware.js:2-25 | 401 without header, then 401 without session id, then the verifier is asked; 401 when it finds no user, 500 exactly when it fails, and the request passes with the user exactly when it finds one |
| AuthMiddleware.HeaderCheckFirst | backend/dist/middleware/authMiddleware.js:4-7 | without a truthy Authorization header the answer does not depend on the session or the verifier |
| AuthMiddleware.ConventionalRequest | backend/dist/middleware/authMiddleware.js:8-19 | a `Bearer <token>` request with a session asks the verifier about exactly that token |
| TranslationController.SourceLanguage | backend/dist/controllers/translationController.js:9 | the given source language, or else the detected one |
| TranslationController.Translate | backend/dist/controllers/translationController.js:4-16 | 400 without a call when text or target is missing; otherwise 200 with the translation service's result for the source and target |
| TranslationController.Detect | backend/dist/controllers/translationController.js:17-28 | 400 exactly without text; otherwise 200 with the detected language |
| TranslationController.TranslateAgreesWithDetect | backend/dist/controllers/translationController.js:9-28 | without a source language, `translate` reports the language `detect` reports |
| FaqModels.FaqInvalidPaths | backend/dist/models/FAQ.js:3-4 | a draft is valid exactly when title and content are non-empty |
| FaqModels.MissingTitleMessage | backend/dist/models/FAQ.js:3 | a FAQ with content and no title is refused with `FAQ validation failed: ` followed by the title path's required message alone |
| FaqModels.CreateFaq | backend/dist/models/FAQ.js:2-7 | fails exactly without title or content; otherwise keeps the fields and defaults the language to `en` |
| FaqModels.CreateFaqTranslation | backend/dist/models/FAQTranslation.js:2-6 | succeeds exactly when language and translated text are non-empty |
| FaqModels.EnabledLanguages | backend/dist/services/faqService.js:11 | exactly the stored languages that are enabled |
| FaqModels.FindTranslation | backend/dist/services/faqService.js:34 | the first stored translation for the FAQ and language, or none exactly when there is none |
| FaqModels.TranslateInto | backend/dist/controllers/faqController.js:28-43 | every created translation belongs to the FAQ and has text; at most one outcome per language |
| FaqModels.TranslateIntoCreatesOnlyListed | backend/dist/controllers/faqController.js:31-39 | every created translation is for a listed language other than the skipped one, and its text is the translator's output for the FAQ content from the FAQ's language into that language |
| FaqModels.TranslateIntoCoversAccepted | backend/dist/controllers/faqController.js:31-39 | every listed, non-skipped language whose write succeeds gets a translation |
| FaqModels.TranslateIntoReportsFailures | backend/dist/controllers/faqController.js:38-42 | the failures recorded are exactly the listed, non-skipped languages whose write failed, with their errors |
| FaqModels.TranslateIntoCalls | backend/dist/controllers/faqController.js:33 | every model call translates the FAQ content with the tagged languages |
| FaqModels.InsertFaq | backend/dist/controllers/faqController.js:19-24 | the FAQ is stored under a fresh id and nothing else changes |
| FaqModels.AddTranslations | backend/dist/controllers/faqController.js:34-38 | translations are appended and nothing else changes |
| FaqModels.EnabledCodesPresent | backend/dist/models/Language.js:3 | enabled languages of a valid store all have a code |
| FaqController.DefaultLanguage | backend/dist/controllers/faqController.js:17 | the given language, or the one detected in the content |
| FaqController.NewFaq | backend/dist/controllers/faqController.js:19-24 | the FAQ keeps title, content and category with the chosen language |
| FaqController.UploadFaq | backend/dist/controllers/faqController.js:10-51 | 400 without title or content; 500 with the error when the FAQ insert or the language lookup fails; otherwise 200 with the stored FAQ, whatever the translations do |
| FaqController.UploadSkipsDefaultAndIsolatesFailures | backend/dist/controllers/faqController.js:28-43 | an accepted upload stores no translation into the FAQ's own language, and one for every other enabled language whose write succeeds |
| FaqController.UploadAlwaysAsksEnglishToEnglish | backend/dist/controllers/faqController.js:33 | because the tags are mapped twice, every model call asks for `eng_Latn` to `eng_Latn` |
| FaqController.GetFaq | backend/dist/controllers/faqController.js:55-78 | 400 without id; with a language and a stored translation, that translation; else 200 with the stored FAQ itself, or 404 exactly when it is missing |
| FaqService.DefaultLanguage | backend/dist/services/faqService.js:9 | the given language, or `en` |
| FaqService.UploadFaq | backend/dist/services/faqService.js:6-26 | only 200 or 500; 500 with the validation error without title or content; 500 when any write fails; a stored FAQ is exactly the given title, content and category under a fresh id, with the given language or `en`; 200 with the FAQ exactly when every write succeeds |
| FaqService.UploadCoversEveryEnabledLanguage | backend/dist/services/faqService.js:11-20 | every enabled language, the FAQ's own included, whose write succeeds gets a translation |
| FaqService.UploadSucceedsIffAllWritesSucceed | backend/dist/services/faqService.js:13-24 | the upload answers 200 exactly when no translation write fails |
| FaqService.FailedTranslationKeepsFaq | backend/dist/services/faqService.js:10-24 | a failed translation write does not undo the stored FAQ |
| FaqService.GetFaq | backend/dist/services/faqService.js:27-44 | 400 exactly without id; otherwise 200: with a language and a stored translation, exactly the first such translation; else exactly the stored FAQ; else no FAQ |
| FaqService.GetFaqAgreesWithController | backend/dist/services/faqService.js:27-44 | the two lookups give the same reply except where the controller answers 404 and this one 200 with no FAQ |
| ChatInterface.TableSize | src/components/ChatInterface.tsx:21-96 | the language table has 74 entries |
| ChatInterface.CodesDistinct | src/components/ChatInterface.tsx:21-96 | no two entries share a code |
| ChatInterface.FindByCode | src/components/ChatInterface.tsx:279 | the first entry with the code, or none exactly when no entry has it |
| ChatInterface.CurrentLanguage | src/components/ChatInterface.tsx:279 | the entry shown has the selected code |
| ChatInterface.CurrentLanguageOfEntry | src/components/ChatInterface.tsx:279 | looking up an entry's code finds that entry |
| ChatInterface.SearchResults | src/components/ChatInterface.tsx:274-276 | the entries, a subsequence of the table in table order, that are exactly those whose lower-cased name contains the query |
| ChatInterface.FilteredLanguages | src/components/ChatInterface.tsx:268-277 | the first seven entries while the search trims to nothing; otherwise exactly the entries whose names match the query, ignoring case, in table order |
| ChatInterface.AllSpaceToLower | src/components/ChatInterface.tsx:273-275 | lower-casing never makes a text all space or stops it being all space |
| ChatInterface.SearchIgnoresCase | src/components/ChatInterface.tsx:273-276 | queries with the same lower-case form show the same languages |
| ChatInterface.SearchFindsOwnName | src/components/ChatInterface.tsx:274-276 | searching for an entry's own name finds it |
| ChatInterface.InitialState | src/components/ChatInterface.tsx:107-118 | English selected, no messages, empty input and search, popup closed |
| ChatInterface.SendMsg | src/components/ChatInterface.tsx:185-198 | an input that trims to nothing changes nothing; otherwise one user message with the input as typed is appended, the input is cleared and the assistant is typing |
| ChatInterface.EndChat | src/components/ChatInterface.tsx:578-581 | the messages are emptied and nothing else changes |
| ChatInterface.OpenLanguagePopup | src/components/ChatInterface.tsx:446-447 | the popup opens with an empty search, showing the first seven languages |
| ChatInterface.SelectLanguage | src/components/ChatInterface.tsx:282-285 | selects the code and closes the popup, nothing else |
| ChatInterface.SelectEntryShowsIt | src/components/ChatInterface.tsx:279-285 | picking an entry makes it the current language |
| ChatInterface.ChatText | src/components/ChatInterface.tsx:215-216 | no messages give an empty transcript; one message gives its line |
| ChatInterface.SenderLabels | src/components/ChatInterface.tsx:216 | the labels are `USER` and `ASSISTANT` |
| ChatInterface.ChatTextAppend | src/components/ChatInterface.tsx:215-216 | appending a message appends a blank line and its line |
| ChatInterface.SendExtendsTranscript | src/components/ChatInterface.tsx:185-216 | sending into a non-empty chat extends the transcript by exactly one separator and the line of the new user message; End Chat leaves it empty |
| ChatInterface.UserLine | src/components/ChatInterface.tsx:215-216 | a user message's transcript line is `USER: ` followed by its text |

## Left out

- I/O and transport are not modelled:
  - HTTP requests and responses are values;
  - socket rooms are sets on the session;
  - database reads and writes are map operations;
  - console logging is dropped.
- Concurrency is not modelled. Every request and socket event runs to
  completion before the next. Specifically:
  - `Promise.all` in the FAQ fan-out runs the languages one after another, in
    list order;
  - the read-modify-write counter update cannot lose an increment here;
  - translator initialization cannot race.
- Timestamps are a `now` parameter. Mongoose `createdAt`/`updatedAt` are set
  from it.
- Translation rows are kept in insertion order, and the first matching row is
  returned.
- ObjectId casting errors are not modelled. An unknown id is just absent.
- JavaScript `undefined` and `null` are one value (`JNull`). Upper and lower
  case mapping covers ASCII letters only.
- Mongoose change tracking of the untyped `meta` object is not modelled. A
  successful `save` is taken to persist the new counters.
- The database write oracles are booleans or per-code fault functions, fixed
  for the call.
- The `Conversation.create` failure in `sendMessage` and `createChat` is not
  modelled: creation always succeeds.
- The FAQ lookup's database faults are not modelled either. The `Failed to
  fetch FAQ` and `Fetch failed` 500 replies are therefore never produced.
- The catch blocks in `sendMessage` (chatService.js 44-47 and 54-57) and in
  the `translate`/`detect` handlers are unreachable in the model, because the
  functions they guard never throw. The bot branch's fallback
  `t.translated || translatedText` (chatService.js line 41) never changes the
  result, because a non-empty starting text always translates to a non-empty
  text (`ChatService.BotTranslationFallbackInert`).
- `verifyClerkToken` (backend/dist/utils/clerkUtils.js) is the `Verifier`
  parameter. The parameter may also answer `Failure`, which stands for an
  error thrown inside the handler's `try` and gives the 500 reply of
  authMiddleware.js lines 21-23. The `verifyClerkToken` shown catches every
  error and returns `null`, so with it a Clerk failure gives the 401
  `Invalid or expired token` reply, and the model's `Failure` answer is never
  produced.
- `getDashboardStats` (adminService) is not part of this model. Its result,
  or its error message, is a parameter of `ChatSocket.SendMessage`.
- The language identifier and the ISO 639-3 table are parameters. Their
  contents are not modelled.
- The transformer pipeline is a parameter. What it outputs is not modelled.
- The chatbot service (chatbotService.js) and the routes are not modelled.
  The chat, admin and translation-memory controllers and the Glossary and
  TranslationMemory records lie outside the orchestration core.
- Socket `disconnect` only logs, so it is not modelled.
- On the chat screen, these parts are not modelled:
  - the flags and the rendering;
  - the simulated assistant reply sent after one second;
  - speech recognition, file upload, download and sharing.
- `ChatInterface.ChatText`: the contract states the zero- and one-message
  cases. The general shape follows from `ChatInterface.ChatTextAppend`.
- ChatSocket.SendMessageEmissions: states what any emitted `receive_message`
  carries. The converse, that a stored message is always delivered, is
  `ChatSocket.SendMessageDelivers`.
- `ChatModels.ErrorMessage`: follows Mongoose's default validator messages
  for `required` and `enum`. Failing paths are listed in schema order, which
  is taken to be the order Mongoose reports them in. Cast errors and custom
  validators are not modelled.
- `FaqModels.TranslateInto`: its own contract is kept light. What it creates,
  covers, reports and asks the model is stated by the four `TranslateInto…`
  lemmas.
- ChatService.RouteMessage: for the bot receiver it uses the corrected bot
  branch `ChatService.BotRoute`, not the code as written. When the chatbot
  answers `""`, the code routes `""` while the model routes the user's text.
  The discrepancy is logged under "## Findings". On every other answer the two
  agree (`ChatService.BotRouteDiffersOnlyOnEmptyReply`).
- ChatService.SendMessage: inherits the corrected bot branch from
  `ChatService.RouteMessage`. With the code as written, a message to the bot
  answered by `""` is stored with `translatedText` `""`, so the promise of a
  non-empty translated text holds only with the correction.
- ChatSocket.SendMessage and ChatSocket.Run: reach the chat service through
  `ChatService.SendMessage`, so they store the corrected bot text as well.
- `ChatSocket.Handle` and `ChatSocket.Run` state only that the store stays
  well formed. Moderation over runs is `ChatSocket.RunStoresOnlyModeratedText`.

## Findings

| source | as written | input that shows it | evidently intended | confidence | as-written member | corrected member |
|---|---|---|---|---|---|---|
| backend/dist/services/chatService.js:38 | any string reply of the chatbot, the empty string included, becomes the translated text | the chatbot answers `{reply: ""}` to the text `hello` with no target language: the stored `translatedText` is `""` | a non-empty text always yields a non-empty `translatedText`, with the user's text as the fallback | medium, not executed | ChatService.BotRouteAsWritten, ChatService.BotEmptyReplyAsWritten | ChatService.BotRoute |
