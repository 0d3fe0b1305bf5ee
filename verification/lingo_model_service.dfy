/** The client of the external chatbot endpoint
    (backend/dist/services/lingoModelService.js). The HTTP transport is a
    parameter: given the question and the conversation id it returns the
    response body or fails. */
module LingoModelService {
  import opened Wrappers
  import opened Json

  /** `axios.post(url, {question, conversationId})`, reduced to its body. */
  type Endpoint = (string, nat) -> Result<Json, string>

  /** `r` is taken from `body`: the body itself, its `data` envelope, or the
      `reply` field of either. */
  predicate FromBody(r: Json, body: Json) {
    r == body || r == Prop(body, "data") || r == Prop(body, "reply") || r == Prop(Prop(body, "data"), "reply")
  }

  /** The reply the service extracts from a response body: the payload is the
      `data` envelope when it is non-nullish and the body otherwise; the reply
      is the payload's `reply` when non-nullish and the whole payload
      otherwise. Reading `reply` of a nullish payload throws, which yields
      `null`. */
  function ReplyOf(body: Json): (r: Json)
    ensures r == JNull || FromBody(r, body)
    ensures Nullish(body) ==> r == JNull
    ensures var data := Prop(body, "data");
      && (!Nullish(data) && !Nullish(Prop(data, "reply")) ==> r == Prop(data, "reply"))
      && (!Nullish(data) && Nullish(Prop(data, "reply")) ==> r == data)
      && (Nullish(data) && !Nullish(body) && !Nullish(Prop(body, "reply")) ==> r == Prop(body, "reply"))
      && (Nullish(data) && !Nullish(body) && Nullish(Prop(body, "reply")) ==> r == body)
  {
    var payload := Coalesce(Prop(body, "data"), body);
    if Nullish(payload) then JNull
    else Coalesce(Prop(payload, "reply"), payload)
  }

  /** `queryLingoModel(text, conversationId)`: never fails; a transport
      failure is the `null` reply, and a reply is never made up. */
  function QueryLingoModel(endpoint: Endpoint, text: string, conversationId: nat): (r: Json)
    ensures endpoint(text, conversationId).Failure? ==> r == JNull
    ensures r == JNull || (endpoint(text, conversationId).Success? && FromBody(r, endpoint(text, conversationId).value))
  {
    match endpoint(text, conversationId)
    case Failure(_) => JNull
    case Success(body) => ReplyOf(body)
  }

  /** `{reply: s}` and `{data: {reply: s}}` both yield `s`. */
  lemma ReplyShapes(s: string)
    ensures ReplyOf(JObj(map["reply" := JStr(s)])) == JStr(s)
    ensures ReplyOf(JObj(map["data" := JObj(map["reply" := JStr(s)])])) == JStr(s)
  {
    var inner := JObj(map["reply" := JStr(s)]);
    assert Prop(inner, "data") == JNull;
  }

  /** Wrapping a payload in a `data` envelope does not change the reply, as
      long as the payload has no `data` field of its own. */
  lemma EnvelopeTransparent(x: Json)
    requires !Nullish(x) && Nullish(Prop(x, "data"))
    ensures ReplyOf(JObj(map["data" := x])) == ReplyOf(x)
  {
  }

  /** A body without a usable `reply` is returned whole, which is why the chat
      service checks that the reply is a string. */
  lemma NonStringReply(n: int)
    ensures ReplyOf(JObj(map["answer" := JNum(n)])) == JObj(map["answer" := JNum(n)])
  {
    var body := JObj(map["answer" := JNum(n)]);
    assert Prop(body, "data") == JNull;
    assert Prop(body, "reply") == JNull;
  }
}
