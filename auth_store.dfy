/** The client's authentication store: two fields, `isAuthenticated` and
    `user`, set by the `login`, `logout` and `register` actions. Every action
    keeps the two fields in step: authenticated exactly when a user is held. */
module ClientAuth {
  import opened Js

  /** `ILogedinUser` as it is actually filled in: each field holds whatever
      value it was given, which may be `undefined`. */
  datatype SessionUser = SessionUser(username: JsValue, isAdmin: JsValue)

  datatype LoginCredentials = LoginCredentials(username: string, password: string)
  datatype RegisterCredentials = RegisterCredentials(username: string, password: string, isAdmin: bool)

  /** The two fields the client reads from the login response's JSON,
      `data.username` and `data.is_admin`. */
  datatype LoginData = LoginData(username: JsValue, isAdmin: JsValue)

  /** The paths the actions post to (relative to the API's base URL). */
  const LoginPath := "/auth/login"
  const LogoutPath := "/auth/logout"
  /** As written, `register` posts to this path ... */
  const RegisterPathAsWritten := "/register"
  /** ... where the server's handler is mounted at this one. */
  const RegisterPath := "/auth/register"

  /** The user object `login` builds as written: both fields copied from the
      response. */
  function UserFromReplyAsWritten(data: LoginData): SessionUser
  {
    SessionUser(data.username, data.isAdmin)
  }

  /** The user object `login` is meant to build: the name the user logged in
      with, and the admin flag the server reported. */
  function UserFromLogin(credentials: LoginCredentials, data: LoginData): SessionUser
  {
    SessionUser(Str(credentials.username), data.isAdmin)
  }

  class AuthStore {
    var isAuthenticated: bool
    var user: Option<SessionUser>

    /** The store's invariant. */
    predicate Valid()
      reads this
    {
      isAuthenticated <==> user.Some?
    }

    /** The initial state: not authenticated, no user. */
    constructor ()
      ensures Valid() && !isAuthenticated && user == None
    {
      isAuthenticated := false;
      user := None;
    }

    /** `login`: on success the user is set and the store is authenticated; on
        any failure both fields are reset, whatever they held before. The
        action itself never rejects. */
    method Login(credentials: LoginCredentials, response: ApiResult<LoginData>)
      modifies this
      ensures Valid()
      ensures response.Ok? ==> isAuthenticated && user == Some(UserFromLogin(credentials, response.data))
      ensures response.Failed? ==> !isAuthenticated && user == None
    {
      if response.Ok? {
        user := Some(UserFromLogin(credentials, response.data));
        isAuthenticated := true;
      } else {
        user := None;
        isAuthenticated := false;
      }
    }

    /** `logout`: both fields are cleared once the server answers; a failed
        call is logged and leaves the state as it was. */
    method Logout(response: ApiResult<()>)
      requires Valid()
      modifies this
      ensures Valid()
      ensures response.Ok? ==> !isAuthenticated && user == None
      ensures response.Failed? ==> isAuthenticated == old(isAuthenticated) && user == old(user)
    {
      if response.Ok? {
        user := None;
        isAuthenticated := false;
      }
    }

    /** `register`: as written the request is posted to
        `RegisterPathAsWritten` (see `EndToEnd.RegisterPathUnservedAsWritten`)
        and any error is logged. The request itself is not modelled: whether
        it reaches the server or not, neither field is touched, so the store
        stays logged out (or in) as it was. */
    method Register(credentials: RegisterCredentials, response: ApiResult<()>)
      requires Valid()
      ensures Valid()
      ensures isAuthenticated == old(isAuthenticated) && user == old(user)
    {
    }
  }
}
