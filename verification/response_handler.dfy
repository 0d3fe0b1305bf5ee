/** The response envelopes of backend/dist/utils/responseHandler.js. */
module ResponseHandler {
  import opened Wrappers
  import opened Json

  /** The JSON body `{success, message, data}`; an absent `data` is `None`. */
  datatype Envelope<+T> = Envelope(success: bool, message: string, data: Option<T>)

  /** An HTTP reply: the status code and the body. */
  datatype Reply<+T> = Reply(status: nat, body: Envelope<T>)

  /** Codes from 400 up are errors. */
  predicate IsError(status: nat) {
    status >= 400
  }

  /** `sendResponse(res, statusCode, message, data)`: the status is the one
      given, the body's `success` is true exactly for non-error codes, and
      message and data are passed through. */
  function SendResponse<T>(status: nat, message: string, data: Option<T>): (r: Reply<T>)
    ensures r.status == status
    ensures r.body.success <==> !IsError(status)
    ensures r.body.message == message && r.body.data == data
  {
    Reply(status, Envelope(status < 400, message, data))
  }

  /** A reply is well formed when its `success` flag agrees with its code. */
  predicate WellFormed<T>(r: Reply<T>) {
    r.body.success <==> !IsError(r.status)
  }

  /** Whatever is sent through `sendResponse` is well formed, and only a
      2xx or 3xx code yields a successful envelope. */
  lemma SendResponseWellFormed<T>(status: nat, message: string, data: Option<T>)
    ensures WellFormed(SendResponse(status, message, data))
    ensures SendResponse(status, message, data).body.success ==> status < 400
  {
  }

  /** `success(message, data)`: `{status: 'success', message, data}`. */
  function Success(message: string, data: Json): (r: Json)
    ensures Prop(r, "status") == JStr("success")
    ensures Prop(r, "message") == JStr(message)
    ensures Prop(r, "data") == data
    ensures r.JObj? && r.fields.Keys == {"status", "message", "data"}
  {
    JObj(map["status" := JStr("success"), "message" := JStr(message), "data" := data])
  }

  /** `failure(message, error)`: `{status: 'error', message, error}` where
      the error is the error's own truthy `message` property, or the error
      value itself otherwise. */
  function Failure(message: string, error: Json): (r: Json)
    ensures Prop(r, "status") == JStr("error")
    ensures Prop(r, "message") == JStr(message)
    ensures Truthy(Prop(error, "message")) ==> Prop(r, "error") == Prop(error, "message")
    ensures !Truthy(Prop(error, "message")) ==> Prop(r, "error") == error
    ensures r.JObj? && r.fields.Keys == {"status", "message", "error"}
  {
    var inner := Prop(error, "message");
    JObj(map["status" := JStr("error"), "message" := JStr(message),
             "error" := if Truthy(inner) then inner else error])
  }

  /** An error object with a non-empty message is reduced to that message;
      a string, a number or null is reported as it is. */
  lemma FailureUnwrapsMessage(message: string, text: string, other: map<string, Json>, error: Json)
    requires text != ""
    requires !error.JObj?
    ensures Prop(Failure(message, JObj(other["message" := JStr(text)])), "error") == JStr(text)
    ensures Prop(Failure(message, error), "error") == error
  {
  }

  /** An object whose `message` is the empty string is reported whole. */
  lemma FailureKeepsEmptyMessageObject(message: string, other: map<string, Json>)
    ensures var e := JObj(other["message" := JStr("")]);
      Prop(Failure(message, e), "error") == e
  {
  }
}
