/** The HTTP responses the server's handlers and middleware produce, and the
    one cookie they set or clear. */
module Http {
  import opened Js
  import opened Jwt

  /** A stored account as the `User` schema declares it (the database's `_id`
      and `created_at` are left out). */
  datatype UserRecord = UserRecord(username: string, passwordHash: string, isAdmin: bool)

  /** The JSON bodies the handlers send. */
  datatype Body =
    | MessageBody(message: string)                 // `{ message }`
    | ErrorBody(error: string)                     // `{ error }`
    | UserBody(user: UserRecord)                   // the created user document
    | LoggedInBody(message: string, isAdmin: bool) // `{ message, is_admin }`

  datatype SameSite = Strict | Lax | NoRestriction

  datatype Cookie = Cookie(
    name: string,
    value: TokenText,
    httpOnly: bool,
    secure: bool,
    sameSite: SameSite,
    maxAgeMs: nat)

  /** What a response asks the browser to do with its cookies. */
  datatype CookieOp = KeepCookies | SetCookie(cookie: Cookie) | ClearCookie(name: string)

  datatype HttpResponse = HttpResponse(status: nat, body: Body, cookieOp: CookieOp)

  const AccessTokenCookie := "accessToken"

  /** The JSON object a body is serialised to, field by field. A created user
      document is sent whole, password hash included. */
  function JsonObject(b: Body): map<string, JsValue>
  {
    match b
    case MessageBody(m) => map["message" := Str(m)]
    case ErrorBody(e) => map["error" := Str(e)]
    case UserBody(u) => map["username" := Str(u.username), "password" := Str(u.passwordHash),
                            "is_admin" := Bool(u.isAdmin)]
    case LoggedInBody(m, a) => map["message" := Str(m), "is_admin" := Bool(a)]
  }

  /** `data.name` on the client for a received body: `undefined` when the
      object has no such field. */
  function JsonField(b: Body, name: string): JsValue
  {
    if name in JsonObject(b) then JsonObject(b)[name] else Undefined
  }

  /** `res.status(status).json({ message })`, touching no cookie. */
  function Message(status: nat, message: string): HttpResponse
  {
    HttpResponse(status, MessageBody(message), KeepCookies)
  }

  /** `res.status(status).json({ error })`, touching no cookie. */
  function Error(status: nat, error: string): HttpResponse
  {
    HttpResponse(status, ErrorBody(error), KeepCookies)
  }

  /** The browser's `accessToken` cookie after it processes a response. */
  function ApplyCookieOp(jar: Option<TokenText>, op: CookieOp): Option<TokenText>
  {
    match op
    case KeepCookies => jar
    case SetCookie(c) => if c.name == AccessTokenCookie then Some(c.value) else jar
    case ClearCookie(n) => if n == AccessTokenCookie then None else jar
  }
}
