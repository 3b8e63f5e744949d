/** Bearer-token authentication and the role gate (server/src/middleware/auth.js).
    `jwt.verify` with the access secret is the parameter `verify`: it yields the decoded
    claims, or `None` when the signature or the expiry check fails. */
module AuthMiddleware {
  import opened Wrappers
  import opened Errors

  datatype Claims = Claims(sub: string, role: string, email: string)

  const BearerPrefix := "Bearer "

  const MissingToken := Raise(401, "Unauthorized", "Missing access token.", "missing_token")
  const InvalidToken := Raise(401, "Unauthorized", "Invalid or expired access token.", "invalid_token")
  const Forbidden := Raise(403, "Forbidden", "Insufficient permissions for this operation.", "forbidden")

  /** `authHeader.startsWith('Bearer ') ? authHeader.slice(7) : null`, followed by the
      `!token` test: a token exists only after exactly "Bearer " and only if it is non-empty. */
  function BearerToken(authorization: Option<string>): (t: Option<string>)
    ensures t.Some? <==> authorization.Some? && |authorization.value| > |BearerPrefix|
                         && authorization.value[..|BearerPrefix|] == BearerPrefix
    ensures t.Some? ==> authorization.value == BearerPrefix + t.value && t.value != ""
  {
    // `req.headers.authorization || ''`
    var header := authorization.GetOr("");
    if |header| >= 7 && header[..7] == BearerPrefix && header[7..] != "" then
      assert header == BearerPrefix + header[7..];
      Some(header[7..])
    else None
  }

  /** The decision `authenticate` makes: the claims to attach to the request, or the error
      passed to `next`. */
  function AuthDecision(authorization: Option<string>, verify: string -> Option<Claims>): (r: Result<Claims, ApiError>)
    ensures BearerToken(authorization).None? ==> r == Failure(MissingToken)
    ensures BearerToken(authorization).Some? ==>
      var v := verify(BearerToken(authorization).value);
      (v.None? ==> r == Failure(InvalidToken)) && (v.Some? ==> r == Success(v.value))
  {
    match BearerToken(authorization)
    case None => Failure(MissingToken)
    case Some(token) =>
      match verify(token)
      case None => Failure(InvalidToken)
      case Some(claims) => Success(claims)
  }

  /** Without a usable bearer token the verifier is never consulted: any two verifiers
      give the same outcome. */
  lemma MissingTokenNeverVerifies(authorization: Option<string>, v1: string -> Option<Claims>, v2: string -> Option<Claims>)
    requires BearerToken(authorization).None?
    ensures AuthDecision(authorization, v1) == AuthDecision(authorization, v2) == Failure(MissingToken)
  {
  }

  /** The header with nothing after "Bearer " is a missing token, not an invalid one. */
  lemma BareBearerIsMissing(verify: string -> Option<Claims>)
    ensures AuthDecision(Some("Bearer "), verify) == Failure(MissingToken)
    ensures AuthDecision(Some("Basic abc"), verify) == Failure(MissingToken)
    ensures AuthDecision(None, verify) == Failure(MissingToken)
  {
    assert "Basic abc"[..7][1] != BearerPrefix[1];
  }

  /** `requireRole(...roles)`: `None` lets the request through, otherwise the 403 error. */
  function RequireRole(user: Option<Claims>, roles: seq<string>): (r: Option<ApiError>)
    ensures r.None? <==> user.Some? && user.value.role in roles
    ensures r.Some? ==> r.value == Forbidden
  {
    if user.None? || user.value.role !in roles then Some(Forbidden) else None
  }

  /** The request object `authenticate` writes `req.user` into. */
  class Request {
    var authorization: Option<string>
    var user: Option<Claims>

    constructor (authorization: Option<string>)
      ensures this.authorization == authorization && user.None?
    {
      this.authorization := authorization;
      user := None;
    }

    /** The middleware itself: on success `req.user` is the decoded claims and no error is
        passed on; on failure `req.user` is left as it was. */
    method Authenticate(verify: string -> Option<Claims>) returns (err: Option<ApiError>)
      modifies this
      ensures authorization == old(authorization)
      ensures var d := AuthDecision(authorization, verify);
        (d.Success? ==> err.None? && user == Some(d.value))
        && (d.Failure? ==> err == Some(d.error) && user == old(user))
    {
      var decision := AuthDecision(authorization, verify);
      match decision
      case Success(claims) =>
        user := Some(claims);
        err := None;
      case Failure(e) =>
        err := Some(e);
    }
  }
}
