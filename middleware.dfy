/** `src/middleware.ts`: the routing decision made for every page request.
    API routes pass through (they check the session themselves); a signed-in
    user is sent away from the sign-in pages to the dashboard; a visitor
    without a session is sent from a protected page to the login page, with
    the page they asked for kept in `redirectTo`. */
module Middleware {
  import opened Base
  import opened Utils

  /** Continue with the request, or redirect to a path (with an optional `redirectTo`). */
  datatype Decision = Next | Redirect(path: string, redirectTo: Option<string>)

  const Dashboard := "/dashboard"
  const Login := "/auth/login"

  predicate IsAuthRoute(path: string)
  {
    StartsWith(path, "/auth")
  }

  predicate IsProtectedRoute(path: string)
  {
    StartsWith(path, "/dashboard") || StartsWith(path, "/wallet") ||
    StartsWith(path, "/services") || StartsWith(path, "/transactions")
  }

  predicate IsApiRoute(path: string)
  {
    StartsWith(path, "/api")
  }

  /** `configured` is whether the store's URL and key are both set;
      `signedIn` whether the session yields a user. */
  function Decide(configured: bool, path: string, signedIn: bool): (d: Decision)
    ensures !configured ==> d == Next
    ensures configured && IsApiRoute(path) ==> d == Next
    ensures d == Redirect(Dashboard, None) <==> configured && IsAuthRoute(path) && signedIn
    ensures d.Redirect? && d.path == Login <==> configured && IsProtectedRoute(path) && !signedIn
    ensures d.Redirect? && d.path == Login ==> d.redirectTo == Some(path)
    ensures d.Redirect? ==> d.path in {Dashboard, Login}
    // every other request passes through
    ensures d == Next <==>
              !(configured && !IsApiRoute(path) &&
                ((IsAuthRoute(path) && signedIn) || (IsProtectedRoute(path) && !signedIn)))
  {
    RouteClassesDisjoint(path);
    if !configured then Next
    else if IsApiRoute(path) then Next
    else if IsAuthRoute(path) && signedIn then Redirect(Dashboard, None)
    else if IsProtectedRoute(path) && !signedIn then Redirect(Login, Some(path))
    else Next
  }

  /** No path is both a sign-in page and a protected page, or either of those and an API route. */
  lemma RouteClassesDisjoint(path: string)
    ensures !(IsAuthRoute(path) && IsProtectedRoute(path))
    ensures !(IsApiRoute(path) && (IsAuthRoute(path) || IsProtectedRoute(path)))
  {
    if IsAuthRoute(path) {
      assert path[1] == 'a' && path[2] == 'u';
    }
    if IsApiRoute(path) {
      assert path[1] == 'a' && path[2] == 'p';
    }
  }

  /** A redirect never leads to another redirect for the same visitor. */
  lemma RedirectTargetsSettle(configured: bool, path: string, signedIn: bool)
    ensures var d := Decide(configured, path, signedIn);
            d.Redirect? ==> Decide(configured, d.path, signedIn) == Next
  {
    TargetClasses();
  }

  /** The dashboard is a protected page and the login page a sign-in page. */
  lemma TargetClasses()
    ensures IsProtectedRoute(Dashboard) && !IsAuthRoute(Dashboard) && !IsApiRoute(Dashboard)
    ensures IsAuthRoute(Login) && !IsProtectedRoute(Login) && !IsApiRoute(Login)
  {
    assert Dashboard[..10] == "/dashboard";
    assert Login[..5] == "/auth";
    RouteClassesDisjoint(Dashboard);
    RouteClassesDisjoint(Login);
  }

  /** Whether a visitor is signed in matters only on sign-in and protected pages. */
  lemma SessionMattersOnlyForGuardedPages(configured: bool, path: string)
    requires !IsAuthRoute(path) && !IsProtectedRoute(path)
    ensures Decide(configured, path, true) == Decide(configured, path, false) == Next
  {
  }
}
