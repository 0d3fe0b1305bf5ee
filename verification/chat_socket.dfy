/** The real-time gateway (backend/dist/socket/chatSocket.js): per-socket
    sessions, conversation rooms, and the `send_message` pipeline
    authenticate → moderate → send → room broadcast → stats broadcast.
    Emissions are recorded as an ordered trace; the dashboard statistics
    service is a parameter. */
module ChatSocket {
  import opened Wrappers
  import opened Json
  import opened ChatModels
  import CS = ChatService
  import TS = TranslationService
  import ModerationService

  type SocketId = nat

  /** What the server keeps per connection: the user bound by
      `authenticate` and the rooms joined. */
  datatype Session = Session(userId: Option<string>, rooms: set<Id>)

  datatype Server = Server(sessions: map<SocketId, Session>, store: CS.Store, cache: TS.Cache)

  /** `socket.emit`, `io.to(room).emit` and `io.emit`. */
  datatype Audience = ToSocket(socket: SocketId) | ToRoom(room: Id) | ToEveryone

  datatype Payload =
    | UserPayload(userId: string)
    | ReasonPayload(reason: Option<string>)
    | MessagePayload(message: ChatMessage)
    | StatsPayload(stats: Json)
    | ErrorPayload(text: string)

  datatype Emission = Emission(audience: Audience, event: string, payload: Payload)

  /** The `send_message` payload; it carries no sender. */
  datatype SendPayload = SendPayload(conversationId: Option<Id>, receiverId: string, text: string,
                                     targetLang: Option<string>)

  datatype Step = Step(server: Server, emitted: seq<Emission>)

  const NotAuthMessage := "Not auth"

  /** The sockets an emission reaches. */
  function Recipients(srv: Server, a: Audience): set<SocketId> {
    match a
    case ToSocket(s) => if s in srv.sessions then {s} else {}
    case ToRoom(c) => set s | s in srv.sessions && c in srv.sessions[s].rooms
    case ToEveryone => srv.sessions.Keys
  }

  /** How many emissions of the trace carry the given event name. */
  function CountEvent(es: seq<Emission>, name: string): nat {
    if |es| == 0 then 0
    else (if es[0].event == name then 1 else 0) + CountEvent(es[1..], name)
  }

  /** A new connection: no user, no rooms. */
  function Connect(srv: Server, sid: SocketId): (r: Server)
    ensures r.sessions == srv.sessions[sid := Session(None, {})]
    ensures r.store == srv.store && r.cache == srv.cache
  {
    srv.(sessions := srv.sessions[sid := Session(None, {})])
  }

  /** `authenticate(userId)`: binds the user to the socket and answers that
      socket alone with `authenticated {userId}`. */
  function Authenticate(srv: Server, sid: SocketId, userId: string): (r: Step)
    ensures sid !in srv.sessions ==> r == Step(srv, [])
    ensures sid in srv.sessions ==>
      && r.server.sessions == srv.sessions[sid := srv.sessions[sid].(userId := Some(userId))]
      && r.server.store == srv.store && r.server.cache == srv.cache
      && r.emitted == [Emission(ToSocket(sid), "authenticated", UserPayload(userId))]
  {
    if sid !in srv.sessions then Step(srv, [])
    else
      var sess := srv.sessions[sid];
      Step(srv.(sessions := srv.sessions[sid := sess.(userId := Some(userId))]),
           [Emission(ToSocket(sid), "authenticated", UserPayload(userId))])
  }

  /** `join_conversation(conversationId)`: adds the room to the socket and
      changes nothing else. */
  function JoinConversation(srv: Server, sid: SocketId, conversationId: Id): (r: Step)
    ensures sid !in srv.sessions ==> r == Step(srv, [])
    ensures sid in srv.sessions ==>
      && r.server.sessions.Keys == srv.sessions.Keys
      && r.server.sessions[sid].rooms == srv.sessions[sid].rooms + {conversationId}
      && r.server.sessions[sid].userId == srv.sessions[sid].userId
      && (forall s :: s in srv.sessions && s != sid ==> r.server.sessions[s] == srv.sessions[s])
      && r.server.store == srv.store && r.server.cache == srv.cache
      && r.emitted == []
  {
    if sid !in srv.sessions then Step(srv, [])
    else
      var sess := srv.sessions[sid];
      Step(srv.(sessions := srv.sessions[sid := sess.(rooms := sess.rooms + {conversationId})]), [])
  }

  /** The request the gateway hands to the chat service: the sender is the
      user bound to the socket, never a field of the payload. */
  function RequestFor(userId: string, data: SendPayload): CS.SendRequest {
    CS.SendRequest(userId, data.receiverId, data.conversationId, data.text, data.targetLang, TS.DefaultModel)
  }

  /** `send_message(data)`. An unauthenticated socket gets `error "Not auth"`
      and a flagged text gets `message_blocked {reason}`, both sent to the
      sender alone and with no change to the stores. Otherwise the chat
      service runs; its error goes to the sender alone; its message goes to
      the conversation's room, followed by the dashboard statistics to every
      socket, or by an error to the sender when the statistics fail. */
  function SendMessage(srv: Server, sid: SocketId, data: SendPayload, env: CS.SendEnv,
                       stats: Result<Json, string>): (r: Step)
    requires CS.Valid(srv.store)
    ensures CS.Valid(r.server.store)
    ensures CS.EndedStaysEnded(srv.store, r.server.store)
    ensures r.server.sessions == srv.sessions
    ensures sid !in srv.sessions ==> r == Step(srv, [])
    ensures sid in srv.sessions && !Present(srv.sessions[sid].userId) ==>
      r == Step(srv, [Emission(ToSocket(sid), "error", ErrorPayload(NotAuthMessage))])
    ensures sid in srv.sessions && Present(srv.sessions[sid].userId)
            && ModerationService.ModerateText(Some(data.text)).flagged ==>
      r == Step(srv, [Emission(ToSocket(sid), "message_blocked",
                               ReasonPayload(Some(ModerationService.ProfanityReason)))])
    ensures forall id :: id in srv.store.messages ==> r.server.store.messages[id] == srv.store.messages[id]
    ensures r.server.store.messages != srv.store.messages ==>
      && sid in srv.sessions && Present(srv.sessions[sid].userId)
      && !ModerationService.ModerateText(Some(data.text)).flagged
    ensures forall id :: id in r.server.store.messages && id !in srv.store.messages ==>
      && sid in srv.sessions && Present(srv.sessions[sid].userId)
      && r.server.store.messages[id].senderId == srv.sessions[sid].userId.value
      && r.server.store.messages[id].text == data.text
    ensures sid in srv.sessions && Present(srv.sessions[sid].userId)
            && !ModerationService.ModerateText(Some(data.text)).flagged ==>
      r == AfterService(srv, sid, CS.SendMessage(srv.store, srv.cache, RequestFor(srv.sessions[sid].userId.value, data), env), stats)
  {
    if sid !in srv.sessions then Step(srv, [])
    else
      var sess := srv.sessions[sid];
      if !Present(sess.userId) then Step(srv, [Emission(ToSocket(sid), "error", ErrorPayload(NotAuthMessage))])
      else
        var verdict := ModerationService.ModerateText(Some(data.text));
        if verdict.flagged then Step(srv, [Emission(ToSocket(sid), "message_blocked", ReasonPayload(verdict.reason))])
        else
          AfterService(srv, sid, CS.SendMessage(srv.store, srv.cache, RequestFor(sess.userId.value, data), env), stats)
  }

  /** What the gateway does with the chat service's outcome: adopts its
      stores; reports its error to the sender alone; or sends the message to
      its conversation's room, followed by the statistics to everyone or the
      statistics error to the sender. At most one error is emitted. */
  function AfterService(srv: Server, sid: SocketId, out: CS.SendOutcome, stats: Result<Json, string>): (r: Step)
    ensures r.server == srv.(store := out.store, cache := out.cache)
    ensures out.result.Failure? ==>
      r.emitted == [Emission(ToSocket(sid), "error", ErrorPayload(ErrorMessage(out.result.error)))]
    ensures out.result.Success? ==>
      && |r.emitted| == 2
      && r.emitted[0] == Emission(ToRoom(out.result.value.conversationId), "receive_message",
                                  MessagePayload(out.result.value))
      && (stats.Success? ==> r.emitted[1] == Emission(ToEveryone, "dashboard_update", StatsPayload(stats.value)))
      && (stats.Failure? ==> r.emitted[1] == Emission(ToSocket(sid), "error", ErrorPayload(stats.error)))
    ensures CountEvent(r.emitted, "error") <= 1
    ensures forall e :: e in r.emitted && (e.event == "error" || e.event == "message_blocked") ==>
      e.audience == ToSocket(sid)
  {
    var srv' := srv.(store := out.store, cache := out.cache);
    match out.result
    case Failure(e) => Step(srv', [Emission(ToSocket(sid), "error", ErrorPayload(ErrorMessage(e)))])
    case Success(m) =>
      var delivered := Emission(ToRoom(m.conversationId), "receive_message", MessagePayload(m));
      match stats
      case Failure(e) =>
        CountPair(delivered, Emission(ToSocket(sid), "error", ErrorPayload(e)), "error");
        Step(srv', [delivered, Emission(ToSocket(sid), "error", ErrorPayload(e))])
      case Success(st) =>
        CountPair(delivered, Emission(ToEveryone, "dashboard_update", StatsPayload(st)), "error");
        Step(srv', [delivered, Emission(ToEveryone, "dashboard_update", StatsPayload(st))])
  }

  /** What `send_message` emits: at most one error; errors and block notices
      addressed to the sending socket; and a delivered message sent to its
      own conversation's room, carrying the bound user as sender and stored,
      followed by exactly one more emission: the statistics to everyone, or
      the statistics error to the sender. */
  lemma SendMessageEmissions(srv: Server, sid: SocketId, data: SendPayload, env: CS.SendEnv,
                             stats: Result<Json, string>)
    requires CS.Valid(srv.store)
    ensures var r := SendMessage(srv, sid, data, env, stats);
      && CountEvent(r.emitted, "error") <= 1
      && (forall e :: e in r.emitted && (e.event == "error" || e.event == "message_blocked") ==>
            e.audience == ToSocket(sid))
    ensures var r := SendMessage(srv, sid, data, env, stats);
      |r.emitted| > 0 && r.emitted[0].event == "receive_message" ==>
        && sid in srv.sessions && Present(srv.sessions[sid].userId)
        && r.emitted[0].payload.MessagePayload?
        && r.emitted[0].audience == ToRoom(r.emitted[0].payload.message.conversationId)
        && r.emitted[0].payload.message.senderId == srv.sessions[sid].userId.value
        && r.emitted[0].payload.message in r.server.store.messages.Values
        && |r.emitted| == 2
        && (stats.Success? ==> r.emitted[1] == Emission(ToEveryone, "dashboard_update", StatsPayload(stats.value)))
        && (stats.Failure? ==> r.emitted[1] == Emission(ToSocket(sid), "error", ErrorPayload(stats.error)))
  {
    if sid in srv.sessions && Present(srv.sessions[sid].userId)
       && !ModerationService.ModerateText(Some(data.text)).flagged {
      var out := CS.SendMessage(srv.store, srv.cache, RequestFor(srv.sessions[sid].userId.value, data), env);
      if out.result.Success? {
        var m := out.result.value;
        assert m.id in out.store.messages && out.store.messages[m.id] == m;
      }
    }
  }

  /** The converse of `SendMessageEmissions`: an authenticated sender whose
      text passes moderation gets whatever the chat service decides. When
      the service stores a message, that message is delivered first, to its
      conversation's room, and it is in the adopted store; when the service
      fails, its error alone goes to the sender. */
  lemma SendMessageDelivers(srv: Server, sid: SocketId, data: SendPayload, env: CS.SendEnv,
                            stats: Result<Json, string>)
    requires CS.Valid(srv.store)
    requires sid in srv.sessions && Present(srv.sessions[sid].userId)
    requires !ModerationService.ModerateText(Some(data.text)).flagged
    ensures var out := CS.SendMessage(srv.store, srv.cache, RequestFor(srv.sessions[sid].userId.value, data), env);
      var r := SendMessage(srv, sid, data, env, stats);
      && r.server.store == out.store
      && (out.result.Success? ==>
            && |r.emitted| == 2
            && r.emitted[0] == Emission(ToRoom(out.result.value.conversationId), "receive_message",
                                        MessagePayload(out.result.value))
            && out.result.value in r.server.store.messages.Values)
      && (out.result.Failure? ==>
            r.emitted == [Emission(ToSocket(sid), "error", ErrorPayload(ErrorMessage(out.result.error)))])
  {
    var out := CS.SendMessage(srv.store, srv.cache, RequestFor(srv.sessions[sid].userId.value, data), env);
    if out.result.Success? {
      var m := out.result.value;
      assert m.id in out.store.messages && out.store.messages[m.id] == m;
    }
  }

  lemma CountPair(a: Emission, b: Emission, name: string)
    ensures CountEvent([a, b], name) == (if a.event == name then 1 else 0) + (if b.event == name then 1 else 0)
  {
    assert [a, b][0] == a && [a, b][1..] == [b];
    assert [b][0] == b && [b][1..] == [];
    assert CountEvent([b], name) == (if b.event == name then 1 else 0) + CountEvent([], name);
  }

  /** Errors and block notices reach the sending socket and no other. */
  lemma RejectionsReachOnlySender(srv: Server, sid: SocketId, data: SendPayload, env: CS.SendEnv,
                                  stats: Result<Json, string>)
    requires CS.Valid(srv.store)
    ensures var r := SendMessage(srv, sid, data, env, stats);
      forall e :: e in r.emitted && (e.event == "error" || e.event == "message_blocked") ==>
        Recipients(r.server, e.audience) <= {sid}
  {
    SendMessageEmissions(srv, sid, data, env, stats);
  }

  // ---------------------------------------------------------------------------
  // Event traces
  // ---------------------------------------------------------------------------

  /** An inbound socket event, with the collaborators' behaviour for it. */
  datatype Event =
    | ConnectEvent(socket: SocketId)
    | AuthenticateEvent(socket: SocketId, userId: string)
    | JoinEvent(socket: SocketId, conversationId: Id)
    | SendEvent(socket: SocketId, data: SendPayload, env: CS.SendEnv, stats: Result<Json, string>)

  function Handle(srv: Server, e: Event): (r: Step)
    requires CS.Valid(srv.store)
    ensures CS.Valid(r.server.store)
  {
    match e
    case ConnectEvent(s) => Step(Connect(srv, s), [])
    case AuthenticateEvent(s, u) => Authenticate(srv, s, u)
    case JoinEvent(s, c) => JoinConversation(srv, s, c)
    case SendEvent(s, d, env, st) => SendMessage(srv, s, d, env, st)
  }

  /** Handles the events in order, one at a time. */
  function Run(srv: Server, events: seq<Event>): (r: Step)
    requires CS.Valid(srv.store)
    ensures CS.Valid(r.server.store)
    decreases |events|
  {
    if |events| == 0 then Step(srv, [])
    else
      var first := Handle(srv, events[0]);
      var rest := Run(first.server, events[1..]);
      Step(rest.server, first.emitted + rest.emitted)
  }

  /** Every stored message passed moderation. */
  predicate Clean(store: CS.Store) {
    forall id :: id in store.messages ==> !ModerationService.ModerateText(Some(store.messages[id].text)).flagged
  }

  /** One `send_message` keeps the store free of flagged text: it either
      stores nothing or stores a text that passed the gate. */
  lemma SendKeepsClean(srv: Server, sid: SocketId, data: SendPayload, env: CS.SendEnv,
                       stats: Result<Json, string>)
    requires CS.Valid(srv.store) && Clean(srv.store)
    ensures Clean(SendMessage(srv, sid, data, env, stats).server.store)
  {
    var after := SendMessage(srv, sid, data, env, stats).server.store.messages;
    forall id | id in after
      ensures !ModerationService.ModerateText(Some(after[id].text)).flagged
    {
      if id !in srv.store.messages {
        assert after[id].text == data.text;
      }
    }
  }

  /** Starting from a store of moderated messages, no sequence of socket
      events stores a text the moderation gate flags. */
  lemma {:induction false} RunStoresOnlyModeratedText(srv: Server, events: seq<Event>)
    requires CS.Valid(srv.store) && Clean(srv.store)
    ensures Clean(Run(srv, events).server.store)
    decreases |events|
  {
    if |events| > 0 {
      var first := Handle(srv, events[0]);
      if events[0].SendEvent? {
        var e := events[0];
        SendKeepsClean(srv, e.socket, e.data, e.env, e.stats);
      }
      RunStoresOnlyModeratedText(first.server, events[1..]);
    }
  }
}
