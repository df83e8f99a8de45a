/** The client's route table and its global `beforeEach` guard. */
module ClientRouter {
  import opened Js

  /** A route record; `requiresAuth` is `meta.requiresAuth` (absent is false). */
  datatype Route = Route(path: string, name: string, requiresAuth: bool)

  /** The argument the guard passes to `next`: none (navigate on) or a path to
      redirect to. */
  datatype Decision = Proceed | Redirect(path: string)

  /** The login page the guard redirects to. */
  const AuthPagePath := "/auth"

  /** The route table, in declaration order. */
  const Routes: seq<Route> := [
    Route("/", "home", false),
    Route("/books/:id", "Book", false),
    Route(AuthPagePath, "Auth", false),
    Route("/admin", "Admin", true)
  ]

  /** The route whose declared path is exactly `path`. */
  function RouteAt(path: string): (r: Option<Route>)
    ensures r.Some? ==> r.value in Routes && r.value.path == path
    ensures r.None? ==> forall q :: q in Routes ==> q.path != path
  {
    if exists i :: 0 <= i < |Routes| && Routes[i].path == path then
      var i :| 0 <= i < |Routes| && Routes[i].path == path; Some(Routes[i])
    else None
  }

  /** `beforeEach`: calls `next` once, redirecting to the login page exactly
      when the target needs authentication and the user has none. */
  function Guard(to: Route, isAuthenticated: bool): (d: Decision)
    ensures d.Redirect? <==> to.requiresAuth && !isAuthenticated
    ensures d.Redirect? ==> d.path == AuthPagePath
  {
    if to.requiresAuth && !isAuthenticated then Redirect(AuthPagePath) else Proceed
  }

  /** Only the admin page is protected. */
  lemma OnlyAdminRequiresAuth()
    ensures forall r :: r in Routes ==> (r.requiresAuth <==> r.path == "/admin")
  {
  }

  /** No redirect loop: the page the guard redirects to exists and is let
      through whether or not the user is authenticated. */
  lemma RedirectTargetProceeds(to: Route, isAuthenticated: bool)
    requires Guard(to, isAuthenticated).Redirect?
    ensures RouteAt(Guard(to, isAuthenticated).path).Some?
    ensures Guard(RouteAt(Guard(to, isAuthenticated).path).value, isAuthenticated) == Proceed
  {
  }
}
