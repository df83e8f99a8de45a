/** The part of `jsonwebtoken` (JSON Web Tokens, RFC 7519) the server relies
    on, reduced to what is visible from the outside: `sign` builds a token over
    a set of claims with a secret and a lifetime, and `verify` either gives back
    the decoded payload or throws. Signature bytes, base64url encoding and the
    clock are not modelled. */
module Jwt {
  import opened Js

  /** The private claims a token carries, by name. */
  type Claims = map<string, JsValue>

  /** What `jwt.verify` returns: the signed claims plus the registered
      issued-at and expiry times the library adds. */
  datatype Payload = Payload(claims: Claims, iat: int, exp: int)

  /** A cookie's value as the server sees it: either the compact
      serialisation of a token signed with `secret` (what `jwt.sign` returns),
      or any other string a client may send. */
  datatype TokenText =
    | Signed(claims: Claims, secret: string, expiresInSeconds: nat)
    | Other(text: string)

  /** `!token` for the cookie value: only the empty string is falsy, and a
      compact serialisation is never empty. */
  predicate TokenFalsy(t: TokenText)
  {
    t == Other("")
  }

  /** `decoded.name`: the claim's value, or `undefined` when it is absent. */
  function ClaimOf(p: Payload, name: string): JsValue
  {
    if name in p.claims then p.claims[name] else Undefined
  }

  /** `jwt.verify(token, secret)`: `None` stands for "throws" (bad signature,
      malformed token, or expired at the time of the call). */
  type Verifier = (TokenText, string) -> Option<Payload>

  /** What the library guarantees without knowing the clock: whatever it
      accepts was signed with the very same secret, and the payload it returns
      holds exactly the claims that were signed. */
  ghost predicate HonestVerifier(verify: Verifier)
  {
    forall t, secret ::
      verify(t, secret).Some? ==>
        t.Signed? && t.secret == secret && verify(t, secret).value.claims == t.claims
  }
}
