/** Properties that span the server's handlers, its guards and the client's
    authentication store. */
module EndToEnd {
  import opened Js
  import opened Jwt
  import opened Http
  import opened Bcrypt
  import opened ServerMiddleware
  import opened ServerAuth
  import opened ClientAuth

  /** The token a successful login response sets in the `accessToken` cookie. */
  function IssuedToken(r: HttpResponse): TokenText
    requires r.cookieOp.SetCookie?
  {
    r.cookieOp.cookie.value
  }

  /** Every token `login` mints is refused by the admin guard: it carries the
      username as its only claim, so a decoded payload never has a truthy
      `is_admin`. With the login secret the answer is a 403, whether
      verification then succeeds or has expired; with no secret it is a 401. */
  lemma LoginTokenNeverAdmin(req: Credentials, users: seq<UserRecord>, secret: Option<string>,
                                                bcrypt: Hasher, guardSecret: Option<string>, verify: Verifier)
    requires HonestVerifier(verify)
    requires Login(req, users, None, secret, bcrypt).status == 200
    ensures var g := VerifyAdmin(Some(IssuedToken(Login(req, users, None, secret, bcrypt))), guardSecret, verify);
            !g.nextCalled && g.user.None? && g.response.value.status in {401, 403}
    ensures guardSecret == secret ==>
              VerifyAdmin(Some(IssuedToken(Login(req, users, None, secret, bcrypt))), guardSecret, verify)
                .response.value.status == 403
  {
  }

  /** A token fresh from `login` passes the token guard with the login secret
      as long as the library still accepts it (before it expires), and
      `req.user` then names the user who logged in, and nothing else. */
  lemma LoginTokenPassesVerifyToken(req: Credentials, users: seq<UserRecord>, secret: Option<string>,
                                                       bcrypt: Hasher, verify: Verifier)
    requires HonestVerifier(verify)
    requires Login(req, users, None, secret, bcrypt).status == 200
    requires verify(IssuedToken(Login(req, users, None, secret, bcrypt)), secret.value).Some?
    ensures var g := VerifyToken(Some(IssuedToken(Login(req, users, None, secret, bcrypt))), secret, verify);
            g.nextCalled && g.user.value.claims == map["username" := Str(req.username.value)]
  {
  }

  /** After logout the browser holds no session cookie, so the next request
      to a protected route gets a 401 from either guard. */
  lemma LogoutThenProtectedIs401(jar: Option<TokenText>, secret: Option<string>, verify: Verifier)
    ensures var after := ApplyCookieOp(jar, Logout().cookieOp);
            VerifyToken(after, secret, verify).response.value.status == 401 &&
            VerifyAdmin(after, secret, verify).response.value.status == 401
  {
  }

  /** What the client's `api.post("/auth/login")` yields for a server
      response: axios rejects any non-2xx status; otherwise the store reads
      the `username` and `is_admin` fields of the JSON body it received. */
  function ClientView(r: HttpResponse): ApiResult<LoginData>
  {
    if 200 <= r.status < 300 then Ok(LoginData(JsonField(r.body, "username"), JsonField(r.body, "is_admin")))
    else Failed("Request failed with a non-2xx status")
  }

  /** As written, the client's `login` copies `data.username` from a body
      that never has one: after every successful login the stored user has no
      username. */
  lemma StoredUsernameLostAsWritten(req: Credentials, users: seq<UserRecord>,
                                                       secret: Option<string>, bcrypt: Hasher)
    requires Login(req, users, None, secret, bcrypt).status == 200
    ensures var view := ClientView(Login(req, users, None, secret, bcrypt));
            view.Ok? && UserFromReplyAsWritten(view.data).username == Undefined
  {
  }

  /** With the user built from the credentials, the store holds the name the
      user logged in with and the admin flag of that account as stored on the
      server. */
  lemma StoredUserMatchesAccount(username: string, password: string, users: seq<UserRecord>,
                                                    secret: Option<string>, bcrypt: Hasher)
    requires Login(Credentials(Some(username), Some(password)), users, None, secret, bcrypt).status == 200
    ensures var view := ClientView(Login(Credentials(Some(username), Some(password)), users, None, secret, bcrypt));
            view.Ok? &&
            UserFromLogin(LoginCredentials(username, password), view.data) ==
              SessionUser(Str(username), Bool(FindOne(users, username).value.isAdmin))
  {
  }

  /** As written, the client's `register` posts to a path the server does not
      serve, so no account is ever created from the client. */
  lemma RegisterPathUnservedAsWritten()
    ensures RegisterPathAsWritten !in ServedPaths()
  {
  }

  /** With the mount prefix added, every path the client's store posts to
      reaches its handler. */
  lemma ClientPathsServed()
    ensures LoginPath in ServedPaths() && LogoutPath in ServedPaths() && RegisterPath in ServedPaths()
  {
    assert RegisterPath == MountPath + HandlerPaths[0];
    assert LoginPath == MountPath + HandlerPaths[1];
    assert LogoutPath == MountPath + HandlerPaths[2];
  }
}
