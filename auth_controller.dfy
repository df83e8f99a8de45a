/** The authentication handlers of the book API: `register`, `login` and
    `logout`. The user collection is a sequence of records in storage order,
    the hasher and the token verifier are the library's functions, and each
    call into the database or the library that may throw is an input saying
    whether it did. */
module ServerAuth {
  import opened Js
  import opened Jwt
  import opened Http
  import opened Bcrypt
  import JsArray

  /** `expiresIn: "15min"` */
  const TokenLifetimeSeconds: nat := 15 * 60
  /** `maxAge: 1000 * 60 * 15` */
  const CookieMaxAgeMs: nat := 1000 * 60 * 15

  /** The authentication router is mounted at `/auth` and serves its three
      handlers under it. */
  const MountPath := "/auth"
  const HandlerPaths: seq<string> := ["/register", "/login", "/logout"]

  /** The request paths that reach `register`, `login` or `logout`. */
  function ServedPaths(): set<string>
  {
    set p | p in HandlerPaths :: MountPath + p
  }

  /** The fields `register` reads from the JSON body; `None` is `undefined`. */
  datatype Registration = Registration(username: Option<string>, password: Option<string>, isAdmin: Option<bool>)

  /** The fields `login` reads from the JSON body; `None` is `undefined`. */
  datatype Credentials = Credentials(username: Option<string>, password: Option<string>)

  /** The response `register` sends and the user collection afterwards. */
  datatype RegisterResult = RegisterResult(response: HttpResponse, users: seq<UserRecord>)

  function UsernameOf(u: UserRecord): string { u.username }

  /** `User.findOne({ username })`: the first record with that username. */
  function FindOne(users: seq<UserRecord>, username: string): (found: Option<UserRecord>)
    ensures found.None? <==> forall j :: 0 <= j < |users| ==> users[j].username != username
    ensures found.Some? ==>
              && found.value.username == username
              && exists j :: 0 <= j < |users| && users[j] == found.value &&
                   forall k :: 0 <= k < j ==> users[k].username != username
  {
    var i := JsArray.FindIndexById(users, UsernameOf, username);
    if i == -1 then None else Some(users[i])
  }

  /** `register`: the username is checked before the password (400 each),
      `is_admin` defaults to false, and on success the created record holds
      the hash of the password and is sent back whole; a failure of the
      hashing or of `User.create` is a 500 carrying the error's message and
      stores nothing. */
  function Register(req: Registration, users: seq<UserRecord>, bcrypt: Hasher, salt: string,
                    createError: Option<string>): (out: RegisterResult)
    ensures req.username.None? ==>
              out == RegisterResult(Error(400, "Username is required"), users)
    ensures req.username.Some? && req.password.None? ==>
              out == RegisterResult(Error(400, "Password is required"), users)
    ensures req.username.Some? && req.password.Some? && createError.Some? ==>
              out == RegisterResult(Error(500, createError.value), users)
    ensures out.response.status == 200 <==>
              req.username.Some? && req.password.Some? && createError.None?
    ensures out.response.status == 200 ==>
              var created := UserRecord(req.username.value, bcrypt.hash(req.password.value, salt),
                                        req.isAdmin == Some(true));
              out.users == users + [created] && out.response == HttpResponse(200, UserBody(created), KeepCookies)
  {
    if req.username.None? then RegisterResult(Error(400, "Username is required"), users)
    else if req.password.None? then RegisterResult(Error(400, "Password is required"), users)
    else
      var isAdmin := if req.isAdmin.Some? then req.isAdmin.value else false;
      match createError
      case Some(message) => RegisterResult(Error(500, message), users)
      case None =>
        var created := UserRecord(req.username.value, bcrypt.hash(req.password.value, salt), isAdmin);
        RegisterResult(HttpResponse(200, UserBody(created), KeepCookies), users + [created])
  }

  /** The claims `login` signs: `{ username }` and nothing else. */
  function LoginClaims(username: string): Claims
  {
    map["username" := Str(username)]
  }

  /** The options `login` passes to `res.cookie("accessToken", token, ...)`. */
  function SessionCookie(token: TokenText): Cookie
  {
    Cookie(AccessTokenCookie, token, httpOnly := true, secure := false, sameSite := Strict,
           maxAgeMs := CookieMaxAgeMs)
  }

  const InvalidCredentials := Message(401, "Invalid username or password")

  /** `login`. The request must carry both fields (401 otherwise, before any
      lookup). Then the user is looked up (a database error is a 500 with its
      message), the secret is required (a 500 otherwise), and an unknown user
      and a wrong password get the same 401. On success the response sets the
      session cookie over a token whose only claim is the username, and its
      body says whether the account is an admin. */
  function Login(req: Credentials, users: seq<UserRecord>, findError: Option<string>,
                 secret: Option<string>, bcrypt: Hasher): (r: HttpResponse)
    ensures req.username.None? || req.password.None? ==>
              r == Message(401, "Username and password are required")
    ensures req.username.Some? && req.password.Some? && findError.Some? ==>
              r == Error(500, findError.value)
    ensures req.username.Some? && req.password.Some? && findError.None? && Missing(secret) ==>
              r == Error(500, "Missing JWT_SECRET in .env file")
    ensures r.status == 200 <==>
              req.username.Some? && req.password.Some? && findError.None? && !Missing(secret) &&
              FindOne(users, req.username.value).Some? &&
              bcrypt.compare(req.password.value, FindOne(users, req.username.value).value.passwordHash) == Some(true)
    ensures r.status == 200 ==>
              r.cookieOp == SetCookie(SessionCookie(Signed(LoginClaims(req.username.value), secret.value,
                                                           TokenLifetimeSeconds))) &&
              r.body == LoggedInBody("You are logged in", FindOne(users, req.username.value).value.isAdmin)
    ensures r.status != 200 ==> r.cookieOp == KeepCookies
    ensures r.status == 401 && req.username.Some? && req.password.Some? ==> r == InvalidCredentials
    ensures req.username.Some? && req.password.Some? && findError.None? && !Missing(secret) &&
            (FindOne(users, req.username.value).None? ||
             bcrypt.compare(req.password.value, FindOne(users, req.username.value).value.passwordHash) == Some(false)) ==>
              r == InvalidCredentials
    ensures req.username.Some? && req.password.Some? && findError.None? && !Missing(secret) &&
            FindOne(users, req.username.value).Some? &&
            bcrypt.compare(req.password.value, FindOne(users, req.username.value).value.passwordHash).None? ==>
              r == Error(500, "Error comparing passwords")
    ensures r.status in {200, 401, 500} && !r.body.UserBody?
  {
    if req.username.None? || req.password.None? then
      Message(401, "Username and password are required")
    else if findError.Some? then
      Error(500, findError.value)
    else if Missing(secret) then
      Error(500, "Missing JWT_SECRET in .env file")
    else
      var username, password := req.username.value, req.password.value;
      match FindOne(users, username)
      case None => InvalidCredentials
      case Some(user) =>
        match bcrypt.compare(password, user.passwordHash)
        case None => Error(500, "Error comparing passwords")
        case Some(false) => InvalidCredentials
        case Some(true) =>
          var accessToken := Signed(LoginClaims(username), secret.value, TokenLifetimeSeconds);
          HttpResponse(200, LoggedInBody("You are logged in", user.isAdmin),
                       SetCookie(SessionCookie(accessToken)))
  }

  /** `logout`: whatever the request holds, clear the session cookie and
      answer 200. */
  function Logout(): (r: HttpResponse)
    ensures r.status == 200 && r.cookieOp == ClearCookie(AccessTokenCookie)
  {
    HttpResponse(200, MessageBody("You are logged out and token has been cleared"),
                 ClearCookie(AccessTokenCookie))
  }

  /** The session cookie lives exactly as long as the token it carries. */
  lemma CookieMatchesTokenLifetime(username: string, secret: string)
    ensures var c := SessionCookie(Signed(LoginClaims(username), secret, TokenLifetimeSeconds));
            c.maxAgeMs == 1000 * c.value.expiresInSeconds && c.httpOnly && c.sameSite == Strict
  {
  }

  /** No username enumeration: with the same request, an unknown username and
      a known one with a wrong password get the very same response, which is
      the 401 "Invalid username or password" once the secret is set. */
  lemma UnknownUserLikeWrongPassword(req: Credentials, unknown: seq<UserRecord>, known: seq<UserRecord>,
                                     secret: Option<string>, bcrypt: Hasher)
    requires req.username.Some? && req.password.Some?
    requires FindOne(unknown, req.username.value).None?
    requires FindOne(known, req.username.value).Some?
    requires bcrypt.compare(req.password.value, FindOne(known, req.username.value).value.passwordHash) == Some(false)
    ensures Login(req, unknown, None, secret, bcrypt) == Login(req, known, None, secret, bcrypt)
    ensures !Missing(secret) ==> Login(req, unknown, None, secret, bcrypt) == InvalidCredentials
  {
  }

  /** Logging out twice leaves the browser as logging out once does: no
      session cookie. */
  lemma LogoutIdempotent(jar: Option<TokenText>)
    ensures ApplyCookieOp(ApplyCookieOp(jar, Logout().cookieOp), Logout().cookieOp) ==
            ApplyCookieOp(jar, Logout().cookieOp) == None
  {
  }

  /** Register then log in: once `register` succeeds for a fresh username,
      `login` with the same username and password succeeds, and reports the
      admin flag chosen at registration. */
  lemma {:induction false} RegisterThenLogin(username: string, password: string, isAdmin: Option<bool>,
                                             users: seq<UserRecord>, bcrypt: Hasher, salt: string, secret: string)
    requires AcceptsOwnHash(bcrypt)
    requires FindOne(users, username).None?
    requires secret != ""
    ensures var after := Register(Registration(Some(username), Some(password), isAdmin), users, bcrypt, salt, None).users;
            var r := Login(Credentials(Some(username), Some(password)), after, None, Some(secret), bcrypt);
            r.status == 200 && r.body == LoggedInBody("You are logged in", isAdmin == Some(true))
  {
    var created := UserRecord(username, bcrypt.hash(password, salt), isAdmin == Some(true));
    JsArray.FindIndexByIdAppend(users, created, UsernameOf, username);
    assert FindOne(users + [created], username) == Some(created);
    assert bcrypt.compare(password, created.passwordHash) == Some(true);
  }
}
