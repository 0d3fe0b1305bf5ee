/** The two persisted records of the chat core: `ChatMessage`
    (backend/dist/models/ChatMessage.js) and `Conversation`
    (backend/dist/models/Conversation.js), with the schema's required
    fields, enum and defaults. Store-maintained timestamps are plain numbers
    supplied by the caller. */
module ChatModels {
  import opened Wrappers
  import Strings

  /** A document id. */
  type Id = nat

  /** One schema path that failed validation: a required path that is
      missing or empty, or a value outside the path's enum. */
  datatype PathError = Required(path: string) | NotInEnum(path: string, value: string)

  /** The errors the core can raise. A validation error lists its failing
      paths in schema order. */
  datatype Error =
    | ValidationError(model: string, errors: seq<PathError>)
    | NotFound(message: string)
    | StoreFailure(message: string)

  const ValidationFailed := " validation failed: "
  const PathSeparator := ", "

  /** A path's part of a validation message: the path, a colon, and the
      validator's default message. */
  function PathErrorMessage(e: PathError): string {
    match e
    case Required(p) => p + ": Path `" + p + "` is required."
    case NotInEnum(p, v) => p + ": `" + v + "` is not a valid enum value for path `" + p + "`."
  }

  function PathErrorMessages(es: seq<PathError>): (r: seq<string>)
    ensures |r| == |es| && forall i :: 0 <= i < |es| ==> r[i] == PathErrorMessage(es[i])
  {
    seq(|es|, i requires 0 <= i < |es| => PathErrorMessage(es[i]))
  }

  /** `e.message`. A validation error names the model, then lists every
      failing path with its message, separated by commas; the other errors
      carry their own text. */
  function ErrorMessage(e: Error): (r: string)
    ensures e.ValidationError? && |e.errors| == 1 ==>
      r == e.model + ValidationFailed + PathErrorMessage(e.errors[0])
    ensures e.NotFound? || e.StoreFailure? ==> r == e.message
  {
    match e
    case ValidationError(model, errors) => model + ValidationFailed + Strings.Join(PathErrorMessages(errors), PathSeparator)
    case NotFound(m) => m
    case StoreFailure(m) => m
  }

  /** One more failing path adds a comma and that path's message to the end
      of a validation message. */
  lemma ValidationMessageAppend(model: string, es: seq<PathError>, e: PathError)
    requires es != []
    ensures ErrorMessage(ValidationError(model, es + [e]))
         == ErrorMessage(ValidationError(model, es)) + PathSeparator + PathErrorMessage(e)
  {
    var ms, m := PathErrorMessages(es), PathErrorMessage(e);
    assert PathErrorMessages(es + [e]) == ms + [m];
    Strings.JoinAppend(ms, [m], PathSeparator);
    var head, j := model + ValidationFailed, Strings.Join(ms, PathSeparator);
    Strings.ConcatAssoc(head, j + PathSeparator, m);
    Strings.ConcatAssoc(head, j, PathSeparator);
  }

  // ---------------------------------------------------------------------------
  // ChatMessage
  // ---------------------------------------------------------------------------

  /** The `status` enum. */
  datatype Status = Active | Ended

  function StatusName(s: Status): string {
    match s
    case Active => "active"
    case Ended => "ended"
  }

  /** The enum validator: only `"active"` and `"ended"` are accepted. */
  function ParseStatus(name: string): (r: Option<Status>)
    ensures r.Some? <==> name == "active" || name == "ended"
    ensures r.Some? ==> StatusName(r.value) == name
  {
    if name == "active" then Some(Active)
    else if name == "ended" then Some(Ended)
    else None
  }

  /** Every status survives the trip through its stored name. */
  lemma StatusRoundTrip(s: Status)
    ensures ParseStatus(StatusName(s)) == Some(s)
  {
  }

  /** The fields given to `ChatMessage.create`; `None` is an absent field. */
  datatype MessageDraft = MessageDraft(
    conversationId: Option<Id>,
    senderId: string,
    receiverId: string,
    text: string,
    translatedText: Option<string>,
    sourceLang: Option<string>,
    targetLang: Option<string>,
    status: Option<string>)

  datatype ChatMessage = ChatMessage(
    id: Id,
    conversationId: Id,
    senderId: string,
    receiverId: string,
    text: string,
    translatedText: Option<string>,
    sourceLang: string,
    targetLang: string,
    status: Status,
    createdAt: nat,
    updatedAt: nat)

  const DefaultSourceLang := "auto"
  const DefaultTargetLang := "en"

  /** The schema paths that fail validation, in schema order: a required
      string path fails when it is absent or empty, and `status` fails when it
      is present but not in the enum. */
  function InvalidPaths(d: MessageDraft): (r: seq<PathError>)
    ensures r == [] <==>
      && d.conversationId.Some? && d.senderId != "" && d.receiverId != "" && d.text != ""
      && (d.status.Some? ==> ParseStatus(d.status.value).Some?)
  {
    (if d.conversationId.None? then [Required("conversationId")] else [])
    + (if d.senderId == "" then [Required("senderId")] else [])
    + (if d.receiverId == "" then [Required("receiverId")] else [])
    + (if d.text == "" then [Required("text")] else [])
    + (if d.status.Some? && ParseStatus(d.status.value).None? then [NotInEnum("status", d.status.value)] else [])
  }

  /** `ChatMessage.create(draft)` with the given fresh id at time `now`:
      validation failures are reported; otherwise the record keeps every
      given field, `sourceLang` defaults to `"auto"`, `targetLang` to `"en"`,
      `status` to active, and both timestamps are `now`. */
  function CreateMessage(d: MessageDraft, id: Id, now: nat): (r: Result<ChatMessage, Error>)
    ensures r.Failure? <==> InvalidPaths(d) != []
    ensures r.Failure? ==> r.error == ValidationError("ChatMessage", InvalidPaths(d))
    ensures r.Success? ==>
      && r.value.id == id
      && Some(r.value.conversationId) == d.conversationId
      && r.value.senderId == d.senderId && r.value.receiverId == d.receiverId
      && r.value.text == d.text && r.value.text != ""
      && r.value.translatedText == d.translatedText
      && r.value.sourceLang == d.sourceLang.GetOr(DefaultSourceLang)
      && r.value.targetLang == d.targetLang.GetOr(DefaultTargetLang)
      && (d.status.None? ==> r.value.status == Active)
      && (d.status.Some? ==> StatusName(r.value.status) == d.status.value)
      && r.value.createdAt == now && r.value.updatedAt == now
  {
    var bad := InvalidPaths(d);
    if bad != [] then Failure(ValidationError("ChatMessage", bad))
    else
      var status := if d.status.Some? then ParseStatus(d.status.value).value else Active;
      Success(ChatMessage(id, d.conversationId.value, d.senderId, d.receiverId, d.text, d.translatedText,
                          d.sourceLang.GetOr(DefaultSourceLang), d.targetLang.GetOr(DefaultTargetLang),
                          status, now, now))
  }

  // ---------------------------------------------------------------------------
  // Conversation
  // ---------------------------------------------------------------------------

  /** The `lastMessage` snapshot. */
  datatype LastMessage = LastMessage(text: string, translatedText: string, senderId: string, createdAt: nat)

  /** The free-form `meta` object: unread counters per user and the time the
      conversation was ended. */
  datatype Meta = Meta(unreadCounts: map<string, nat>, closedAt: Option<nat>)

  datatype Conversation = Conversation(
    id: Id,
    participants: seq<string>,
    meta: Meta,
    lastMessage: Option<LastMessage>,
    createdAt: nat,
    updatedAt: nat)

  /** The schema default for `meta`. */
  const DefaultMeta := Meta(map[], None)

  /** `meta.unreadCounts[user] || 0` */
  function UnreadOf(c: Conversation, user: string): nat {
    if user in c.meta.unreadCounts then c.meta.unreadCounts[user] else 0
  }

  /** `Conversation.create(...)`: `meta` defaults to empty counters, there is
      no last message yet, and both timestamps are `now`. */
  function CreateConversation(id: Id, participants: seq<string>, meta: Option<Meta>, now: nat): (r: Conversation)
    ensures r.id == id && r.participants == participants
    ensures meta.None? ==> r.meta.unreadCounts == map[] && r.meta.closedAt.None?
    ensures meta.Some? ==> r.meta == meta.value
    ensures r.lastMessage.None? && r.createdAt == now && r.updatedAt == now
  {
    Conversation(id, participants, meta.GetOr(DefaultMeta), None, now, now)
  }

  /** Without a `meta` of its own a conversation reports no unread messages
      for anyone. */
  lemma DefaultMetaNoUnread(id: Id, participants: seq<string>, now: nat, user: string)
    ensures UnreadOf(CreateConversation(id, participants, None, now), user) == 0
  {
  }
}
