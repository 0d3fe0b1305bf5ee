/** The chat orchestration service (backend/dist/services/chatService.js):
    a sequential state machine over the conversation and message stores.
    Every external collaborator (language identifier, chatbot endpoint,
    translation pipeline, store faults, clock) is a parameter. */
module ChatService {
  import opened Wrappers
  import opened Json
  import opened ChatModels
  import DetectService
  import TS = TranslationService
  import LingoModelService
  import Sequences

  /** The receiver id that routes a message to the chatbot. */
  const BotId := "lingo-bot"
  /** The language the chatbot answers in. */
  const BotLanguage := "en"

  /** Both collections, keyed by id, and the next fresh id. */
  datatype Store = Store(conversations: map<Id, Conversation>, messages: map<Id, ChatMessage>, nextId: Id)

  const EmptyStore := Store(map[], map[], 0)

  /** Records are stored under their own ids, all ids are below the fresh-id
      counter, and every message belongs to a stored conversation. */
  predicate Valid(s: Store) {
    && (forall id :: id in s.conversations ==> id < s.nextId && s.conversations[id].id == id)
    && (forall id :: id in s.messages ==>
          id < s.nextId && s.messages[id].id == id && s.messages[id].conversationId in s.conversations)
  }

  lemma EmptyStoreValid()
    ensures Valid(EmptyStore)
  {
  }

  /** No message disappears and no ended message becomes active again. */
  predicate EndedStaysEnded(s: Store, t: Store) {
    forall id :: id in s.messages ==>
      id in t.messages && (s.messages[id].status == Ended ==> t.messages[id].status == Ended)
  }

  lemma ValidInjective(s: Store)
    requires Valid(s)
    ensures Sequences.Injective(s.conversations) && Sequences.Injective(s.messages)
  {
  }

  // ---------------------------------------------------------------------------
  // createChat
  // ---------------------------------------------------------------------------

  /** A conversation between the two users, both with no unread messages. */
  function NewConversation(id: Id, senderId: string, receiverId: string, now: nat): (c: Conversation)
    ensures c.id == id && c.participants == [senderId, receiverId]
    ensures c.meta.unreadCounts.Keys == {senderId, receiverId}
    ensures UnreadOf(c, senderId) == 0 && UnreadOf(c, receiverId) == 0
    ensures c.lastMessage.None? && c.meta.closedAt.None?
    ensures c.createdAt == now && c.updatedAt == now
  {
    CreateConversation(id, [senderId, receiverId], Some(Meta(map[senderId := 0, receiverId := 0], None)), now)
  }

  datatype Created = Created(store: Store, conversationId: Id, participants: seq<string>)

  /** `createChat(senderId, receiverId)`: stores a new conversation under a
      fresh id and returns that id with the participant list. */
  function CreateChat(s: Store, senderId: string, receiverId: string, now: nat): (r: Created)
    requires Valid(s)
    ensures Valid(r.store)
    ensures r.conversationId !in s.conversations
    ensures r.store.conversations
            == s.conversations[r.conversationId := NewConversation(r.conversationId, senderId, receiverId, now)]
    ensures r.store.messages == s.messages
    ensures r.participants == [senderId, receiverId]
    ensures EndedStaysEnded(s, r.store)
  {
    var id := s.nextId;
    var c := NewConversation(id, senderId, receiverId, now);
    Created(Store(s.conversations[id := c], s.messages, id + 1), id, c.participants)
  }

  // ---------------------------------------------------------------------------
  // getChats
  // ---------------------------------------------------------------------------

  /** A conversation annotated with one user's unread count. */
  datatype ChatSummary = ChatSummary(conversation: Conversation, unreadCount: nat)

  /** The stored conversations of one user, each once, most recently
      updated first. */
  function ConversationsOf(s: Store, userId: string): (r: seq<Conversation>)
    requires Valid(s)
    ensures forall i :: 0 <= i < |r| ==>
      r[i].id in s.conversations && s.conversations[r[i].id] == r[i] && userId in r[i].participants
    ensures forall id :: id in s.conversations && userId in s.conversations[id].participants ==>
      exists i :: 0 <= i < |r| && r[i].id == id
    ensures forall i, j :: 0 <= i < j < |r| ==> r[i].id != r[j].id
    ensures forall i, j :: 0 <= i < j < |r| ==> r[i].updatedAt >= r[j].updatedAt
  {
    ValidInjective(s);
    var keep := (c: Conversation) => userId in c.participants;
    var key: Conversation -> int := (c: Conversation) => -(c.updatedAt as int);
    var convs := Sequences.SelectSorted(s.conversations, s.nextId, keep, key);
    SelectedConversations(s, convs, keep, key);
    convs
  }

  /** `getChats(userId)`: every stored conversation the user takes part in,
      exactly once, most recently updated first, each with the user's unread
      count (0 when the user has no counter). */
  function GetChats(s: Store, userId: string): (r: seq<ChatSummary>)
    requires Valid(s)
    ensures forall i :: 0 <= i < |r| ==>
      && r[i].conversation.id in s.conversations
      && s.conversations[r[i].conversation.id] == r[i].conversation
      && userId in r[i].conversation.participants
      && r[i].unreadCount == UnreadOf(r[i].conversation, userId)
    ensures forall id :: id in s.conversations && userId in s.conversations[id].participants ==>
      exists i :: 0 <= i < |r| && r[i].conversation.id == id
    ensures forall i, j :: 0 <= i < j < |r| ==> r[i].conversation.id != r[j].conversation.id
    ensures forall i, j :: 0 <= i < j < |r| ==> r[i].conversation.updatedAt >= r[j].conversation.updatedAt
  {
    var convs := ConversationsOf(s, userId);
    var r := Annotate(convs, userId);
    forall id | id in s.conversations && userId in s.conversations[id].participants
      ensures exists i :: 0 <= i < |r| && r[i].conversation.id == id
    {
      var i :| 0 <= i < |convs| && convs[i].id == id;
      assert r[i].conversation == convs[i];
    }
    r
  }

  /** Pairs each conversation with the user's unread count, in order. */
  function Annotate(convs: seq<Conversation>, userId: string): (r: seq<ChatSummary>)
    ensures |r| == |convs|
    ensures forall i :: 0 <= i < |r| ==> r[i] == ChatSummary(convs[i], UnreadOf(convs[i], userId))
  {
    if |convs| == 0 then []
    else [ChatSummary(convs[0], UnreadOf(convs[0], userId))] + Annotate(convs[1..], userId)
  }

  /** What a sorted selection of conversations says about the store. */
  lemma SelectedConversations(s: Store, r: seq<Conversation>, keep: Conversation -> bool,
                              key: Conversation -> int)
    requires Valid(s)
    requires Sequences.Distinct(r) && Sequences.SortedBy(r, key)
    requires forall x :: x in r <==> x in s.conversations.Values && keep(x)
    ensures forall i :: 0 <= i < |r| ==>
      r[i].id in s.conversations && s.conversations[r[i].id] == r[i] && keep(r[i])
    ensures forall id :: id in s.conversations && keep(s.conversations[id]) ==>
      exists i :: 0 <= i < |r| && r[i].id == id
    ensures forall i, j :: 0 <= i < j < |r| ==> r[i].id != r[j].id
    ensures forall i, j :: 0 <= i < j < |r| ==> key(r[i]) <= key(r[j])
  {
    forall i | 0 <= i < |r|
      ensures r[i].id in s.conversations && s.conversations[r[i].id] == r[i] && keep(r[i])
    {
      assert r[i] in r;
      var k :| k in s.conversations && s.conversations[k] == r[i];
    }
    forall id | id in s.conversations && keep(s.conversations[id])
      ensures exists i :: 0 <= i < |r| && r[i].id == id
    {
      assert s.conversations[id] in s.conversations.Values;
      assert s.conversations[id] in r;
      var i :| 0 <= i < |r| && r[i] == s.conversations[id];
    }
  }

  // ---------------------------------------------------------------------------
  // exportConversation
  // ---------------------------------------------------------------------------

  /** `exportConversation(conversationId)`: every stored message of the
      conversation, exactly once, in non-decreasing `createdAt` order. */
  function ExportConversation(s: Store, conversationId: Id): (r: seq<ChatMessage>)
    requires Valid(s)
    ensures forall i :: 0 <= i < |r| ==>
      r[i].id in s.messages && s.messages[r[i].id] == r[i] && r[i].conversationId == conversationId
    ensures forall id :: id in s.messages && s.messages[id].conversationId == conversationId ==>
      exists i :: 0 <= i < |r| && r[i].id == id
    ensures forall i, j :: 0 <= i < j < |r| ==> r[i].id != r[j].id
    ensures forall i, j :: 0 <= i < j < |r| ==> r[i].createdAt <= r[j].createdAt
  {
    ValidInjective(s);
    var keep := (m: ChatMessage) => m.conversationId == conversationId;
    var key: ChatMessage -> int := (m: ChatMessage) => m.createdAt as int;
    var r := Sequences.SelectSorted(s.messages, s.nextId, keep, key);
    SelectedMessages(s, r, keep, key);
    r
  }

  /** What a sorted selection of messages says about the store. */
  lemma SelectedMessages(s: Store, r: seq<ChatMessage>, keep: ChatMessage -> bool, key: ChatMessage -> int)
    requires Valid(s)
    requires Sequences.Distinct(r) && Sequences.SortedBy(r, key)
    requires forall x :: x in r <==> x in s.messages.Values && keep(x)
    ensures forall i :: 0 <= i < |r| ==> r[i].id in s.messages && s.messages[r[i].id] == r[i] && keep(r[i])
    ensures forall id :: id in s.messages && keep(s.messages[id]) ==> exists i :: 0 <= i < |r| && r[i].id == id
    ensures forall i, j :: 0 <= i < j < |r| ==> r[i].id != r[j].id
    ensures forall i, j :: 0 <= i < j < |r| ==> key(r[i]) <= key(r[j])
  {
    forall i | 0 <= i < |r|
      ensures r[i].id in s.messages && s.messages[r[i].id] == r[i] && keep(r[i])
    {
      assert r[i] in r;
      var k :| k in s.messages && s.messages[k] == r[i];
    }
    forall id | id in s.messages && keep(s.messages[id])
      ensures exists i :: 0 <= i < |r| && r[i].id == id
    {
      assert s.messages[id] in s.messages.Values;
      assert s.messages[id] in r;
      var i :| 0 <= i < |r| && r[i] == s.messages[id];
    }
  }

  // ---------------------------------------------------------------------------
  // endConversation and resetUnread
  // ---------------------------------------------------------------------------

  /** `endConversation(conversationId)`: every message of the conversation
      becomes ended (and is touched); messages of other conversations are
      untouched; a stored conversation gets `meta.closedAt = now`. An unknown
      id changes no conversation. */
  function EndConversation(s: Store, conversationId: Id, now: nat): (r: Store)
    requires Valid(s)
    ensures Valid(r)
    ensures EndedStaysEnded(s, r)
    ensures r.messages.Keys == s.messages.Keys && r.nextId == s.nextId
    ensures forall id :: id in s.messages && s.messages[id].conversationId == conversationId ==>
      r.messages[id] == s.messages[id].(status := Ended, updatedAt := now)
    ensures forall id :: id in s.messages && s.messages[id].conversationId != conversationId ==>
      r.messages[id] == s.messages[id]
    ensures conversationId in s.conversations ==>
      var c := s.conversations[conversationId];
      r.conversations == s.conversations[conversationId := c.(meta := c.meta.(closedAt := Some(now)), updatedAt := now)]
    ensures conversationId !in s.conversations ==> r.conversations == s.conversations
  {
    var messages := map id | id in s.messages ::
      if s.messages[id].conversationId == conversationId
      then s.messages[id].(status := Ended, updatedAt := now)
      else s.messages[id];
    var conversations :=
      if conversationId in s.conversations then
        var c := s.conversations[conversationId];
        s.conversations[conversationId := c.(meta := c.meta.(closedAt := Some(now)), updatedAt := now)]
      else s.conversations;
    Store(conversations, messages, s.nextId)
  }

  /** The status of every stored message. */
  function Statuses(s: Store): map<Id, Status> {
    map id | id in s.messages :: s.messages[id].status
  }

  /** Ending a conversation twice leaves the same statuses as ending it once;
      only the timestamps are refreshed. */
  lemma EndConversationIdempotent(s: Store, conversationId: Id, t1: nat, t2: nat)
    requires Valid(s)
    ensures var once := EndConversation(s, conversationId, t1);
            Statuses(EndConversation(once, conversationId, t2)) == Statuses(once)
  {
    var once := EndConversation(s, conversationId, t1);
    var twice := EndConversation(once, conversationId, t2);
    forall id | id in once.messages
      ensures twice.messages[id].status == once.messages[id].status
    {
      assert once.messages[id].conversationId == s.messages[id].conversationId;
    }
  }

  /** After a conversation is ended its export holds only ended messages. */
  lemma EndedExport(s: Store, conversationId: Id, now: nat)
    requires Valid(s)
    ensures forall m :: m in ExportConversation(EndConversation(s, conversationId, now), conversationId) ==>
      m.status == Ended
  {
    var e := EndConversation(s, conversationId, now);
    var r := ExportConversation(e, conversationId);
    forall m | m in r
      ensures m.status == Ended
    {
      var i :| 0 <= i < |r| && r[i] == m;
      assert e.messages[m.id] == m;
      assert s.messages[m.id].conversationId == conversationId;
    }
  }

  datatype Reset = Reset(store: Store, conversation: Conversation)

  /** `resetUnread(conversationId, userId)`: fails with "Conversation not
      found" for an unknown id; otherwise sets the user's counter to 0 (adding
      it if missing), leaves every other counter and every other record as it
      was, touches the conversation and returns it. */
  function ResetUnread(s: Store, conversationId: Id, userId: string, now: nat): (r: Result<Reset, Error>)
    requires Valid(s)
    ensures r.Failure? <==> conversationId !in s.conversations
    ensures r.Failure? ==> r.error == NotFound("Conversation not found")
    ensures r.Success? ==>
      var c := s.conversations[conversationId];
      var c' := r.value.conversation;
      && Valid(r.value.store)
      && r.value.store.messages == s.messages
      && r.value.store.conversations == s.conversations[conversationId := c']
      && userId in c'.meta.unreadCounts && UnreadOf(c', userId) == 0
      && c'.meta.unreadCounts.Keys == c.meta.unreadCounts.Keys + {userId}
      && (forall k :: k in c.meta.unreadCounts && k != userId ==> c'.meta.unreadCounts[k] == c.meta.unreadCounts[k])
      && c'.id == c.id && c'.participants == c.participants && c'.lastMessage == c.lastMessage
      && c'.meta.closedAt == c.meta.closedAt && c'.createdAt == c.createdAt && c'.updatedAt == now
  {
    if conversationId !in s.conversations then Failure(NotFound("Conversation not found"))
    else
      var c := s.conversations[conversationId];
      var c' := c.(meta := c.meta.(unreadCounts := c.meta.unreadCounts[userId := 0]), updatedAt := now);
      Success(Reset(s.(conversations := s.conversations[conversationId := c']), c'))
  }

  /** Resetting the counter of a user who is not a participant adds a counter
      for that user: the counters' keys are not confined to the participants. */
  lemma ResetUnreadAddsOutsider()
    ensures var s := CreateChat(EmptyStore, "u1", "u2", 0);
            var r := ResetUnread(s.store, s.conversationId, "u3", 1);
            r.Success? && "u3" in r.value.conversation.meta.unreadCounts
            && "u3" !in r.value.conversation.participants
  {
    var s := CreateChat(EmptyStore, "u1", "u2", 0);
    assert s.conversationId == 0;
  }

  // ---------------------------------------------------------------------------
  // sendMessage
  // ---------------------------------------------------------------------------

  /** `sendMessage(senderId, receiverId, conversationId, text, targetLangIso,
      model)`; an absent `conversationId` is `None`. */
  datatype SendRequest = SendRequest(
    senderId: string,
    receiverId: string,
    conversationId: Option<Id>,
    text: string,
    targetLang: Option<string>,
    model: string)

  /** The collaborators of one `sendMessage` call: the language identifier,
      the chatbot endpoint, the translation pipeline, the clock, and whether
      the message insert and the conversation save succeed. */
  datatype SendEnv = SendEnv(
    detector: DetectService.Detector,
    bot: LingoModelService.Endpoint,
    engine: TS.Engine,
    now: nat,
    insertOk: bool,
    saveOk: bool)

  /** A request to translate `text` from ISO code `srcIso` to `tgtIso`. */
  datatype TranslationRequest = TranslationRequest(text: string, srcIso: string, tgtIso: string)

  /** The outcome of routing: the translated text, the translator cache
      afterwards, and what the chatbot and the translator were asked. */
  datatype Route = Route(
    cache: TS.Cache,
    translatedText: string,
    botQuestion: Option<string>,
    translation: Option<TranslationRequest>)

  /** Translates `text` for the receiver when a target language is given and
      differs from the detected source; otherwise the text is kept. */
  function TranslateRoute(cache: TS.Cache, text: string, srcIso: string, target: Option<string>,
                          model: string, engine: TS.Engine): (r: Route)
    ensures r.botQuestion.None?
    ensures r.translation.Some? <==> Present(target) && target.value != srcIso
    ensures r.translation.Some? ==>
      && r.translation.value == TranslationRequest(text, srcIso, target.value)
      && r.translatedText == TS.TranslateText(cache, text, srcIso, target.value, model, engine).result.translated
      && r.cache == TS.TranslateText(cache, text, srcIso, target.value, model, engine).cache
    ensures r.translation.None? ==> r.translatedText == text && r.cache == cache
    ensures text != "" ==> r.translatedText != ""
  {
    if Present(target) && target.value != srcIso then
      var t := TS.TranslateText(cache, text, srcIso, target.value, model, engine);
      Route(t.cache, t.result.translated, None, Some(TranslationRequest(text, srcIso, target.value)))
    else Route(cache, text, None, None)
  }

  /** The text the bot branch starts from, as the source computes it: the
      reply when it is a string, the user's text otherwise. */
  function BotBaseAsWritten(reply: Json, text: string): string {
    if reply.JStr? then reply.s else text
  }

  /** The text the bot branch starts from: the reply when it is a non-empty
      string, the user's text otherwise. */
  function BotBase(reply: Json, text: string): (r: string)
    ensures reply.JStr? && reply.s != "" ==> r == reply.s
    ensures !(reply.JStr? && reply.s != "") ==> r == text
    ensures text != "" ==> r != ""
  {
    if reply.JStr? && reply.s != "" then reply.s else text
  }

  /** The bot branch, parameterized by how the starting text is chosen: ask
      the chatbot, then translate its answer from English when a target
      language other than English is given, keeping the untranslated answer
      when the translation comes back empty. */
  function BotRouteWith(base: (Json, string) -> string, cache: TS.Cache, text: string, conversationId: Id,
                        target: Option<string>, model: string, bot: LingoModelService.Endpoint,
                        engine: TS.Engine): (r: Route)
    ensures r.botQuestion == Some(text)
    ensures r.translation.Some? <==> Present(target) && target.value != BotLanguage
    ensures var start := base(LingoModelService.QueryLingoModel(bot, text, conversationId), text);
      && (r.translation.Some? ==> r.translation.value == TranslationRequest(start, BotLanguage, target.value))
      && (r.translation.None? ==> r.translatedText == start && r.cache == cache)
      && (start != "" ==> r.translatedText != "")
  {
    var reply := LingoModelService.QueryLingoModel(bot, text, conversationId);
    var start := base(reply, text);
    if Present(target) && target.value != BotLanguage then
      var t := TS.TranslateText(cache, start, BotLanguage, target.value, model, engine);
      var translated := if t.result.translated != "" then t.result.translated else start;
      Route(t.cache, translated, Some(text), Some(TranslationRequest(start, BotLanguage, target.value)))
    else Route(cache, start, Some(text), None)
  }

  /** The bot branch exactly as the source writes it. */
  function BotRouteAsWritten(cache: TS.Cache, text: string, conversationId: Id, target: Option<string>,
                             model: string, bot: LingoModelService.Endpoint, engine: TS.Engine): (r: Route)
    ensures r.botQuestion == Some(text)
    ensures r.translation.None? ==>
      r.translatedText == BotBaseAsWritten(LingoModelService.QueryLingoModel(bot, text, conversationId), text)
  {
    BotRouteWith(BotBaseAsWritten, cache, text, conversationId, target, model, bot, engine)
  }

  /** As written, a chatbot that answers with an empty string leaves the
      message with an empty translation although the user's text is not
      empty. */
  lemma BotEmptyReplyAsWritten(cache: TS.Cache, engine: TS.Engine)
    ensures var bot := (q: string, c: nat) => Success(JObj(map["reply" := JStr("")]));
            BotRouteAsWritten(cache, "hello", 0, None, TS.DefaultModel, bot, engine).translatedText == ""
  {
    var bot := (q: string, c: nat) => Success(JObj(map["reply" := JStr("")]));
    LingoModelService.ReplyShapes("");
    assert LingoModelService.QueryLingoModel(bot, "hello", 0) == JStr("");
  }

  /** The bot branch with the empty-reply fallback: the chatbot's non-empty
      string answer, possibly translated, and the user's text when there is
      none. The result is never empty for a non-empty text. */
  function BotRoute(cache: TS.Cache, text: string, conversationId: Id, target: Option<string>,
                    model: string, bot: LingoModelService.Endpoint, engine: TS.Engine): (r: Route)
    ensures r.botQuestion == Some(text)
    ensures r.translation.Some? <==> Present(target) && target.value != BotLanguage
    ensures var reply := LingoModelService.QueryLingoModel(bot, text, conversationId);
      && (reply.JStr? && reply.s != "" && r.translation.Some? ==>
            r.translation.value == TranslationRequest(reply.s, BotLanguage, target.value))
      && (reply.JStr? && reply.s != "" && r.translation.None? ==> r.translatedText == reply.s)
      && (!(reply.JStr? && reply.s != "") && r.translation.Some? ==>
            r.translation.value == TranslationRequest(text, BotLanguage, target.value))
      && (!(reply.JStr? && reply.s != "") && r.translation.None? ==> r.translatedText == text)
    ensures r.translation.None? ==> r.cache == cache
    ensures text != "" ==> r.translatedText != ""
  {
    BotRouteWith(BotBase, cache, text, conversationId, target, model, bot, engine)
  }

  /** The corrected bot branch departs from the source only when the chatbot
      answers with the empty string; on every other answer the two agree. */
  lemma BotRouteDiffersOnlyOnEmptyReply(cache: TS.Cache, text: string, conversationId: Id, target: Option<string>,
                                        model: string, bot: LingoModelService.Endpoint, engine: TS.Engine)
    ensures LingoModelService.QueryLingoModel(bot, text, conversationId) != JStr("") ==>
      BotRoute(cache, text, conversationId, target, model, bot, engine)
        == BotRouteAsWritten(cache, text, conversationId, target, model, bot, engine)
  {
    var reply := LingoModelService.QueryLingoModel(bot, text, conversationId);
    if reply != JStr("") {
      assert BotBase(reply, text) == BotBaseAsWritten(reply, text);
    }
  }

  /** The `||` fallback after translating the chatbot's answer never changes
      the result: a non-empty starting text translates to a non-empty text,
      and an empty one falls back to itself. */
  lemma BotTranslationFallbackInert(cache: TS.Cache, start: string, target: string, model: string,
                                    engine: TS.Engine)
    ensures var t := TS.TranslateText(cache, start, BotLanguage, target, model, engine).result.translated;
      (if t != "" then t else start) == t
  {
  }

  /** A failed translation of the chatbot's answer leaves the raw answer. */
  lemma BotReplyKeptWhenTranslationFails(cache: TS.Cache, text: string, conversationId: Id, target: string,
                                         model: string, bot: LingoModelService.Endpoint, engine: TS.Engine)
    requires target != "" && target != BotLanguage
    requires LingoModelService.QueryLingoModel(bot, text, conversationId) == JStr("ok")
    requires TS.InitTranslator(cache, model, engine).translator.Failure?
    ensures BotRoute(cache, text, conversationId, Some(target), model, bot, engine).translatedText == "ok"
  {
  }

  /** The routing decision: the chatbot branch for the bot receiver, the
      translation branch for everyone else. */
  function RouteMessage(cache: TS.Cache, req: SendRequest, conversationId: Id, srcIso: string, env: SendEnv)
    : (r: Route)
    ensures req.receiverId == BotId ==>
      r == BotRoute(cache, req.text, conversationId, req.targetLang, req.model, env.bot, env.engine)
    ensures req.receiverId != BotId ==>
      r == TranslateRoute(cache, req.text, srcIso, req.targetLang, req.model, env.engine)
    ensures req.text != "" ==> r.translatedText != ""
  {
    if req.receiverId == BotId then BotRoute(cache, req.text, conversationId, req.targetLang, req.model, env.bot, env.engine)
    else TranslateRoute(cache, req.text, srcIso, req.targetLang, req.model, env.engine)
  }

  datatype Resolved = Resolved(store: Store, conversation: Conversation)

  /** Finds the requested conversation, or stores a new one for the pair when
      no id is given or the id is unknown. */
  function ResolveConversation(s: Store, req: SendRequest, now: nat): (r: Resolved)
    requires Valid(s)
    ensures Valid(r.store)
    ensures r.conversation.id in r.store.conversations
    ensures r.store.conversations[r.conversation.id] == r.conversation
    ensures r.store.messages == s.messages && r.store.nextId >= s.nextId
    ensures req.conversationId.Some? && req.conversationId.value in s.conversations ==>
      r.store == s && r.conversation == s.conversations[req.conversationId.value]
    ensures !(req.conversationId.Some? && req.conversationId.value in s.conversations) ==>
      && r.conversation.id !in s.conversations
      && r.conversation == NewConversation(r.conversation.id, req.senderId, req.receiverId, now)
      && r.store.conversations == s.conversations[r.conversation.id := r.conversation]
  {
    if req.conversationId.Some? && req.conversationId.value in s.conversations then
      Resolved(s, s.conversations[req.conversationId.value])
    else
      var created := CreateChat(s, req.senderId, req.receiverId, now);
      Resolved(created.store, created.store.conversations[created.conversationId])
  }

  /** The conversation after a delivered message: the receiver's counter
      goes up by exactly one (from 0 when missing), no other counter changes,
      `lastMessage` records the message, and the conversation is touched. */
  function RecordDelivery(c: Conversation, senderId: string, receiverId: string, text: string,
                          translatedText: string, now: nat): (r: Conversation)
    ensures UnreadOf(r, receiverId) == UnreadOf(c, receiverId) + 1
    ensures r.meta.unreadCounts.Keys == c.meta.unreadCounts.Keys + {receiverId}
    ensures forall k :: k != receiverId ==> UnreadOf(r, k) == UnreadOf(c, k)
    ensures r.lastMessage == Some(LastMessage(text, translatedText, senderId, now))
    ensures r.id == c.id && r.participants == c.participants && r.meta.closedAt == c.meta.closedAt
    ensures r.createdAt == c.createdAt && r.updatedAt == now
  {
    var counts := c.meta.unreadCounts[receiverId := UnreadOf(c, receiverId) + 1];
    c.(meta := c.meta.(unreadCounts := counts),
       lastMessage := Some(LastMessage(text, translatedText, senderId, now)),
       updatedAt := now)
  }

  /** Stores a new message under the fresh id; the store stays valid and
      no other record changes. */
  function InsertMessage(s: Store, m: ChatMessage): (r: Store)
    requires Valid(s) && m.id == s.nextId && m.conversationId in s.conversations
    ensures Valid(r) && EndedStaysEnded(s, r)
    ensures m.id !in s.messages && r.messages == s.messages[m.id := m]
    ensures r.conversations == s.conversations && r.nextId == s.nextId + 1
  {
    s.(messages := s.messages[m.id := m], nextId := m.id + 1)
  }

  /** Saves a new version of a stored conversation; the store stays valid
      and no other record changes. */
  function SaveConversation(s: Store, c: Conversation): (r: Store)
    requires Valid(s) && c.id in s.conversations
    ensures Valid(r) && EndedStaysEnded(s, r)
    ensures r.conversations == s.conversations[c.id := c]
    ensures r.messages == s.messages && r.nextId == s.nextId
  {
    s.(conversations := s.conversations[c.id := c])
  }

  /** The result of `sendMessage`: the stores and translator cache
      afterwards, the persisted message or the error thrown, and the routing
      taken. */
  datatype SendOutcome = SendOutcome(store: Store, cache: TS.Cache, result: Result<ChatMessage, Error>, route: Route)

  /** `sendMessage`: resolves the conversation, detects the language, routes
      the text, persists an active message and then updates the
      conversation. A failed conversation update is swallowed; a failed
      message insert is thrown, after a newly created conversation has
      already been stored. */
  function SendMessage(s: Store, cache: TS.Cache, req: SendRequest, env: SendEnv): (r: SendOutcome)
    requires Valid(s)
    ensures Valid(r.store)
    ensures EndedStaysEnded(s, r.store)
    ensures forall id :: id in s.messages ==> r.store.messages[id] == s.messages[id]
    ensures r.result.Failure? <==> req.senderId == "" || req.receiverId == "" || req.text == "" || !env.insertOk
    ensures r.result.Failure? ==> r.store.messages == s.messages
    ensures r.result.Success? ==>
      var m := r.result.value;
      var src := DetectService.DetectLanguage(env.detector, req.text);
      && m.id !in s.messages
      && r.store.messages == s.messages[m.id := m]
      && m.status == Active
      && m.senderId == req.senderId && m.receiverId == req.receiverId && m.text == req.text
      && m.sourceLang == src
      && m.targetLang == OrElse(req.targetLang, src)
      && m.translatedText == Some(r.route.translatedText) && r.route.translatedText != ""
      && r.route == RouteMessage(cache, req, m.conversationId, src, env)
      && m.conversationId == ResolveConversation(s, req, env.now).conversation.id
      && m.createdAt == env.now
      && m.conversationId in r.store.conversations
  {
    var resolved := ResolveConversation(s, req, env.now);
    var conv := resolved.conversation;
    var src := DetectService.DetectLanguage(env.detector, req.text);
    var route := RouteMessage(cache, req, conv.id, src, env);
    var draft := MessageDraft(Some(conv.id), req.senderId, req.receiverId, req.text, Some(route.translatedText),
                              Some(src), Some(OrElse(req.targetLang, src)), Some(StatusName(Active)));
    var s1 := resolved.store;
    var id := s1.nextId;
    match CreateMessage(draft, id, env.now)
    case Failure(e) => SendOutcome(s1, route.cache, Failure(e), route)
    case Success(m) =>
      if !env.insertOk then SendOutcome(s1, route.cache, Failure(StoreFailure("insert failed")), route)
      else
        var s2 := InsertMessage(s1, m);
        var s3 :=
          if env.saveOk
          then SaveConversation(s2, RecordDelivery(conv, req.senderId, req.receiverId, req.text,
                                                   route.translatedText, env.now))
          else s2;
        SendOutcome(s3, route.cache, Success(m), route)
  }

  /** `sendMessage` changes at most the resolved conversation, and a failed
      insert leaves the store as resolution left it. */
  lemma SendMessageTouchesOnlyResolved(s: Store, cache: TS.Cache, req: SendRequest, env: SendEnv)
    requires Valid(s)
    ensures var r := SendMessage(s, cache, req, env);
      && (forall id :: id in s.conversations && id != ResolveConversation(s, req, env.now).conversation.id ==>
            id in r.store.conversations && r.store.conversations[id] == s.conversations[id])
      && (r.result.Failure? ==> r.store == ResolveConversation(s, req, env.now).store)
  {
  }

  /** Where a delivered message lands and what happens to its conversation:
      the requested conversation when it exists, otherwise a new one for the
      pair; a successful save increments the receiver's counter by one,
      leaves every other counter alone and records the message as the last
      one; a failed save leaves the conversation as it was resolved. */
  lemma SendMessageUpdatesConversation(s: Store, cache: TS.Cache, req: SendRequest, env: SendEnv)
    requires Valid(s)
    ensures var r := SendMessage(s, cache, req, env);
      && (r.result.Success? && req.conversationId.Some? && req.conversationId.value in s.conversations ==>
            r.result.value.conversationId == req.conversationId.value)
      && (r.result.Success? && !(req.conversationId.Some? && req.conversationId.value in s.conversations) ==>
            && r.result.value.conversationId !in s.conversations
            && r.result.value.conversationId in r.store.conversations
            && r.store.conversations[r.result.value.conversationId].participants == [req.senderId, req.receiverId])
    ensures var r := SendMessage(s, cache, req, env);
      r.result.Success? && env.saveOk ==>
        r.result.value.conversationId in r.store.conversations &&
        var before := ResolveConversation(s, req, env.now).conversation;
        var after := r.store.conversations[r.result.value.conversationId];
        && UnreadOf(after, req.receiverId) == UnreadOf(before, req.receiverId) + 1
        && (forall k :: k != req.receiverId ==> UnreadOf(after, k) == UnreadOf(before, k))
        && after.lastMessage == Some(LastMessage(req.text, r.route.translatedText, req.senderId, env.now))
    ensures var r := SendMessage(s, cache, req, env);
      r.result.Success? && !env.saveOk ==>
        r.store.conversations == ResolveConversation(s, req, env.now).store.conversations
  {
  }

  /** A chat created between two users, then one message from the first to
      the second without a target language: the message lands in that
      conversation untranslated, the receiver has exactly one unread message
      and the sender none. */
  lemma CreateThenSend(s: Store, cache: TS.Cache, a: string, b: string, text: string, t0: nat, env: SendEnv)
    requires Valid(s)
    requires a != "" && b != "" && a != b && b != BotId && text != ""
    requires env.insertOk && env.saveOk
    ensures var created := CreateChat(s, a, b, t0);
            var req := SendRequest(a, b, Some(created.conversationId), text, None, TS.DefaultModel);
            var out := SendMessage(created.store, cache, req, env);
      && out.result.Success?
      && out.result.value.conversationId == created.conversationId
      && out.result.value.translatedText == Some(text)
      && created.conversationId in out.store.conversations
      && UnreadOf(out.store.conversations[created.conversationId], b) == 1
      && UnreadOf(out.store.conversations[created.conversationId], a) == 0
  {
    var created := CreateChat(s, a, b, t0);
    var req := SendRequest(a, b, Some(created.conversationId), text, None, TS.DefaultModel);
    var before := ResolveConversation(created.store, req, env.now).conversation;
    assert before == NewConversation(created.conversationId, a, b, t0);
    SendMessageUpdatesConversation(created.store, cache, req, env);
  }
}
