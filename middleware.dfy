/**
 * The route guard (middleware.js): a decision on the request path and on
 * whether the session has a signed-in user. The session refresh and the
 * response objects are not part of this model.
 */
module RouteGuard {
  import opened Text

  datatype Decision =
    | RedirectToLogin(redirect: string)   // `/login?redirect=<path>`
    | RedirectToDashboard                 // `/dashboard`
    | PassThrough                         // the session response, unchanged

  /** `protectedRoutes.some(route => pathname.startsWith(route))`. */
  predicate IsProtected(path: string) {
    StartsWith(path, "/dashboard") || StartsWith(path, "/application") || StartsWith(path, "/admin")
  }

  /** `authRoutes.some(route => pathname === route)`. */
  predicate IsAuthRoute(path: string) {
    path == "/login" || path == "/register"
  }

  /** `middleware(request)`. */
  function Middleware(path: string, signedIn: bool): (d: Decision)
    ensures d.RedirectToLogin? <==> IsProtected(path) && !signedIn
    ensures d.RedirectToLogin? ==> d.redirect == path
    ensures d == RedirectToDashboard <==> IsAuthRoute(path) && signedIn
    ensures d == PassThrough <==> (signedIn || !IsProtected(path)) && (!signedIn || !IsAuthRoute(path))
  {
    if IsProtected(path) && !signedIn then RedirectToLogin(path)
    else if IsAuthRoute(path) && signedIn then RedirectToDashboard
    else PassThrough
  }

  /** No path is both an authentication page and a protected page. */
  lemma AuthRoutesAreUnprotected(path: string)
    ensures IsAuthRoute(path) ==> !IsProtected(path)
  {
    if path == "/login" {
      assert path[..6][1] != "/admin"[1];
    } else if path == "/register" {
      assert path[..6][1] != "/admin"[1];
    }
  }

  /**
   * A signed-out request is never sent to the dashboard and a signed-in one
   * never to the login page.
   */
  lemma RedirectsAreExclusive(path: string)
    ensures Middleware(path, false) != RedirectToDashboard
    ensures !Middleware(path, true).RedirectToLogin?
  {
  }

  /** The path a redirect sends the browser to. */
  function Target(d: Decision): string
    requires !d.PassThrough?
  {
    if d.RedirectToLogin? then "/login" else "/dashboard"
  }

  /**
   * Following a redirect does not redirect again: with the same session, the
   * login page lets a signed-out user through and the dashboard lets a
   * signed-in user through.
   */
  lemma RedirectTargetsPassThrough(path: string, signedIn: bool)
    ensures var d := Middleware(path, signedIn);
      !d.PassThrough? ==> Middleware(Target(d), signedIn) == PassThrough
  {
    AuthRoutesAreUnprotected("/login");
    assert !IsAuthRoute("/dashboard");
  }

  /** The prefix test covers sub-paths: whatever follows a protected prefix still needs a user. */
  lemma SubPathsAreProtected(route: string, rest: string)
    requires route == "/dashboard" || route == "/application" || route == "/admin"
    ensures Middleware(route + rest, false) == RedirectToLogin(route + rest)
    ensures Middleware(route + rest, true) == PassThrough
  {
    assert (route + rest)[..|route|] == route;
    assert IsProtected(route + rest);
    assert (route + rest)[1] == route[1];
  }

  lemma SecondChar(s: string, prefix: string)
    requires |prefix| > 1
    ensures StartsWith(s, prefix) ==> s[1] == prefix[1]
  {
    if StartsWith(s, prefix) {
      assert s[..|prefix|][1] == s[1];
    }
  }

  /**
   * The authentication pages match exactly: one followed by anything more (a
   * trailing slash, a sub-path) is neither redirected nor protected.
   */
  lemma AuthMatchIsExact(route: string, rest: string, signedIn: bool)
    requires route == "/login" || route == "/register"
    requires rest != ""
    ensures Middleware(route + rest, signedIn) == PassThrough
  {
    var p := route + rest;
    assert p[1] == route[1] && |p| > |route|;
    SecondChar(p, "/dashboard");
    SecondChar(p, "/application");
    SecondChar(p, "/admin");
  }
}
