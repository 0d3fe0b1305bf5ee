/** The request guard of backend/dist/middleware/authMiddleware.js. The
    session verifier of backend/dist/utils/clerkUtils.js is a parameter: it
    answers with a user, with none, or fails. */
module AuthMiddleware {
  import opened Wrappers
  import opened Strings

  datatype User = User(id: string)

  /** `verifyClerkToken(sessionId, token)`. */
  type Verifier = (string, string) -> Result<Option<User>, string>

  /** The two request headers the guard reads; a missing header is `None`. */
  datatype Headers = Headers(authorization: Option<string>, sessionId: Option<string>)

  /** The question put to the verifier. */
  datatype Query = Query(sessionId: string, token: string)

  /** Either the request is answered here with `{success: false, message}`
      (and, for 500, the error), or `next()` runs with `req.user` set. */
  datatype Outcome =
    | Reject(status: nat, message: string, error: Option<string>)
    | Next(user: User)

  datatype Decision = Decision(outcome: Outcome, query: Option<Query>)

  const NoHeaderMessage := "No auth header provided"
  const NoSessionMessage := "No session ID provided"
  const InvalidTokenMessage := "Invalid or expired token"
  const ErrorMessage := "Authentication error"
  const BearerPrefix := "Bearer "

  /** The token: the header with its first `"Bearer "` removed, wherever it
      occurs. */
  function StripBearer(header: string): (r: string)
    ensures !Contains(header, BearerPrefix) ==> r == header
    ensures Contains(header, BearerPrefix) ==>
      exists i :: 0 <= i && i + |BearerPrefix| <= |header| && OccursAt(header, BearerPrefix, i)
        && (forall j :: 0 <= j < i ==> !OccursAt(header, BearerPrefix, j))
        && r == header[..i] + header[i + |BearerPrefix|..]
  {
    ReplaceFirst(header, BearerPrefix, "")
  }

  /** A conventional `Bearer <token>` header yields exactly the token. */
  lemma StripBearerConventional(token: string)
    ensures StripBearer(BearerPrefix + token) == token
  {
    ReplaceFirstAtStart(BearerPrefix, token, "");
  }

  /** `authMiddleware`: a missing Authorization header is rejected first,
      then a missing `x-session-id`; only with both is the verifier asked,
      with the stripped token. No user means 401, a failing verifier 500, and
      a user is handed to `next`. */
  function Authenticate(h: Headers, verify: Verifier): (r: Decision)
    ensures !Present(h.authorization) ==>
      r == Decision(Reject(401, NoHeaderMessage, None), None)
    ensures Present(h.authorization) && !Present(h.sessionId) ==>
      r == Decision(Reject(401, NoSessionMessage, None), None)
    ensures r.query.Some? <==> Present(h.authorization) && Present(h.sessionId)
    ensures r.query.Some? ==> r.query.value == Query(h.sessionId.value, StripBearer(h.authorization.value))
    ensures r.outcome.Next? <==> r.query.Some? && verify(r.query.value.sessionId, r.query.value.token).Success?
                                 && verify(r.query.value.sessionId, r.query.value.token).value.Some?
    ensures r.outcome.Next? ==>
      r.outcome.user == verify(r.query.value.sessionId, r.query.value.token).value.value
    ensures r.outcome.Reject? ==> r.outcome.status == 401 || r.outcome.status == 500
    ensures r.outcome.Reject? && r.outcome.status == 500 <==>
      r.query.Some? && verify(r.query.value.sessionId, r.query.value.token).Failure?
    ensures r.outcome.Reject? && r.outcome.status == 500 ==>
      r.outcome == Reject(500, ErrorMessage, Some(verify(r.query.value.sessionId, r.query.value.token).error))
    ensures r.query.Some? && verify(r.query.value.sessionId, r.query.value.token) == Success(None) ==>
      r.outcome == Reject(401, InvalidTokenMessage, None)
  {
    if !Present(h.authorization) then Decision(Reject(401, NoHeaderMessage, None), None)
    else
      var token := StripBearer(h.authorization.value);
      if !Present(h.sessionId) then Decision(Reject(401, NoSessionMessage, None), None)
      else
        var q := Query(h.sessionId.value, token);
        match verify(q.sessionId, q.token)
        case Failure(e) => Decision(Reject(500, ErrorMessage, Some(e)), Some(q))
        case Success(None) => Decision(Reject(401, InvalidTokenMessage, None), Some(q))
        case Success(Some(u)) => Decision(Next(u), Some(q))
  }

  /** The header check comes first: without an Authorization header the
      answer does not depend on the session header or on the verifier. */
  lemma HeaderCheckFirst(session1: Option<string>, session2: Option<string>, v1: Verifier, v2: Verifier)
    ensures Authenticate(Headers(None, session1), v1) == Authenticate(Headers(None, session2), v2)
    ensures Authenticate(Headers(Some(""), session1), v1) == Authenticate(Headers(None, session2), v2)
  {
  }

  /** A request carrying `Bearer <token>` and a session is let through
      exactly when the verifier knows that session and token. */
  lemma ConventionalRequest(token: string, session: string, verify: Verifier)
    requires session != ""
    ensures var r := Authenticate(Headers(Some(BearerPrefix + token), Some(session)), verify);
      r.query == Some(Query(session, token))
      && (r.outcome.Next? <==> verify(session, token).Success? && verify(session, token).value.Some?)
  {
    StripBearerConventional(token);
  }
}
