/** The two Express guards of the book API (`verifyToken`, `verifyAdmin`).
    Each reads the `accessToken` cookie and the `JWT_SECRET` environment
    variable, may call `jwt.verify`, and then either answers the request or
    writes `req.user` and calls `next()`. */
module ServerMiddleware {
  import opened Js
  import opened Jwt
  import opened Http

  /** Everything a guard does to the request: whether it called `next()`, what
      it wrote to `req.user`, and the response it sent, if any. */
  datatype GateResult = GateResult(nextCalled: bool, user: Option<Payload>, response: Option<HttpResponse>)

  /** `req.user = decoded; next();` */
  function Continue(decoded: Payload): GateResult
  {
    GateResult(true, Some(decoded), None)
  }

  /** `res.status(status).json({ message }); return;` */
  function Halt(status: nat, message: string): GateResult
  {
    GateResult(false, None, Some(Message(status, message)))
  }

  /** The guard's first test, `if (!token || !jwtSecret)`. */
  predicate CredentialsMissing(token: Option<TokenText>, secret: Option<string>)
  {
    token.None? || TokenFalsy(token.value) || Missing(secret)
  }

  /** Exactly one of `next()` and a response happens, and `req.user` is
      written exactly when `next()` is called. */
  predicate WellFormed(g: GateResult)
  {
    (g.nextCalled <==> g.response.None?) && (g.user.Some? <==> g.nextCalled)
  }

  /** `verifyToken`: 401 without a token or a secret, 403 when verification
      throws, and otherwise `req.user` is the decoded payload and the request
      goes on. */
  function VerifyToken(token: Option<TokenText>, secret: Option<string>, verify: Verifier): (g: GateResult)
    ensures WellFormed(g)
    ensures CredentialsMissing(token, secret) ==>
              g.response == Some(Message(401, "Access denied. No token provided."))
    ensures !CredentialsMissing(token, secret) && verify(token.value, secret.value).None? ==>
              g.response == Some(Message(403, "Invalid or expired token."))
    ensures g.nextCalled <==>
              !CredentialsMissing(token, secret) && verify(token.value, secret.value).Some?
    ensures g.nextCalled ==> g.user == verify(token.value, secret.value)
  {
    if CredentialsMissing(token, secret) then
      Halt(401, "Access denied. No token provided.")
    else
      match verify(token.value, secret.value)
      case None => Halt(403, "Invalid or expired token.")
      case Some(decoded) => Continue(decoded)
  }

  /** `verifyAdmin`: as `verifyToken`, with its own messages, and additionally
      403 "Admin access required." when the decoded `is_admin` is not truthy;
      `req.user` is written only after that test passes. */
  function VerifyAdmin(token: Option<TokenText>, secret: Option<string>, verify: Verifier): (g: GateResult)
    ensures WellFormed(g)
    ensures CredentialsMissing(token, secret) ==> g.response == Some(Message(401, "Access denied."))
    ensures !CredentialsMissing(token, secret) && verify(token.value, secret.value).None? ==>
              g.response == Some(Message(403, "Invalid token."))
    ensures !CredentialsMissing(token, secret) && verify(token.value, secret.value).Some? &&
            !Truthy(ClaimOf(verify(token.value, secret.value).value, "is_admin")) ==>
              g.response == Some(Message(403, "Admin access required."))
    ensures g.nextCalled <==>
              !CredentialsMissing(token, secret) && verify(token.value, secret.value).Some? &&
              Truthy(ClaimOf(verify(token.value, secret.value).value, "is_admin"))
    ensures g.nextCalled ==> g.user == verify(token.value, secret.value)
  {
    if CredentialsMissing(token, secret) then
      Halt(401, "Access denied.")
    else
      match verify(token.value, secret.value)
      case None => Halt(403, "Invalid token.")
      case Some(decoded) =>
        if !Truthy(ClaimOf(decoded, "is_admin")) then Halt(403, "Admin access required.")
        else Continue(decoded)
  }

  /** The admin guard is at least as strict as the token guard: whatever it
      lets through, `verifyToken` lets through with the same `req.user`; and
      each refusal of `verifyToken` is a refusal of `verifyAdmin` with the same
      status. */
  lemma AdminImpliesToken(token: Option<TokenText>, secret: Option<string>, verify: Verifier)
    ensures VerifyAdmin(token, secret, verify).nextCalled ==>
              VerifyToken(token, secret, verify) == VerifyAdmin(token, secret, verify)
    ensures !VerifyToken(token, secret, verify).nextCalled ==>
              !VerifyAdmin(token, secret, verify).nextCalled &&
              VerifyAdmin(token, secret, verify).response.value.status ==
                VerifyToken(token, secret, verify).response.value.status
  {
  }

  /** ... and strictly stronger: a valid token without an `is_admin` claim
      passes `verifyToken` and is refused by `verifyAdmin`. */
  lemma AdminStrictlyStronger(token: TokenText, secret: string, verify: Verifier)
    requires !TokenFalsy(token) && secret != ""
    requires verify(token, secret).Some? && "is_admin" !in verify(token, secret).value.claims
    ensures VerifyToken(Some(token), Some(secret), verify).nextCalled
    ensures VerifyAdmin(Some(token), Some(secret), verify) == Halt(403, "Admin access required.")
  {
  }
}
