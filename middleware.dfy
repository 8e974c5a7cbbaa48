/** The route guard run before every page under `/dashboard` and `/auth`:
    signed-out visitors are sent from the dashboards to the login page, and
    signed-in users are sent from the auth pages to their role's dashboard.
    The session and the profile's role are inputs. */
module Middleware {
  import opened Basics
  import opened Text
  import opened Roles

  datatype Outcome = Redirect(location: string) | Next

  const LoginPath: string := "/auth/login"

  /** `middleware(req)`. `role` is the signed-in user's profile role, if any;
      it is only looked up, and only matters, when there is a session. */
  function Decide(path: string, hasSession: bool, role: Option<string>): (r: Outcome)
    ensures r == Redirect(LoginPath) <==> StartsWith(path, "/dashboard") && !hasSession
    ensures r.Redirect? && r.location != LoginPath <==> StartsWith(path, "/auth") && hasSession
    ensures r.Redirect? && r.location != LoginPath ==> r.location == DashboardPath(role)
  {
    if StartsWith(path, "/dashboard") && !hasSession then Redirect(LoginPath)
    else if StartsWith(path, "/auth") && hasSession then Redirect(DashboardPath(role))
    else Next
  }

  /** `config.matcher`: `/dashboard/:path*` and `/auth/:path*`. */
  predicate InScope(path: string) {
    path == "/dashboard" || StartsWith(path, "/dashboard/") || path == "/auth" || StartsWith(path, "/auth/")
  }

  /** A request as the framework routes it: the guard runs only in scope. */
  function Handle(path: string, hasSession: bool, role: Option<string>): (r: Outcome)
    ensures r == Redirect(LoginPath) <==> InScope(path) && StartsWith(path, "/dashboard") && !hasSession
    ensures r.Redirect? && r.location != LoginPath <==> InScope(path) && StartsWith(path, "/auth") && hasSession
    ensures r.Redirect? ==> InScope(path) && r == Decide(path, hasSession, role)
  {
    if InScope(path) then Decide(path, hasSession, role) else Next
  }

  /** No path starts with both guarded prefixes, so at most one redirect rule applies. */
  lemma PrefixesExclusive(path: string)
    ensures !(StartsWith(path, "/dashboard") && StartsWith(path, "/auth"))
  {
    assert StartsWith(path, "/dashboard") ==> path[1] == "/dashboard"[1] == 'd';
    assert StartsWith(path, "/auth") ==> path[1] == "/auth"[1] == 'a';
  }

  /** The login page does not start with "/dashboard", and every dashboard path
      does not start with "/auth". */
  lemma RedirectTargetsPrefixes(role: Option<string>)
    ensures !StartsWith(LoginPath, "/dashboard")
    ensures !StartsWith(DashboardPath(role), "/auth")
    ensures StartsWith(DashboardPath(role), "/dashboard")
    ensures InScope(LoginPath) && InScope(DashboardPath(role))
  {
    var d := DashboardPath(role);
    assert d[..11] == "/dashboard/";
    assert d[1] == 'd';
    assert d[..10] == "/dashboard";
    assert LoginPath[..6] == "/auth/";
    assert StartsWith(LoginPath, "/auth/");
    assert LoginPath[1] == 'a';
  }

  /** No redirect loop: wherever the guard redirects, the same session passes
      straight through, whatever role the profile then reports. */
  lemma {:induction false} NoRedirectLoop(path: string, hasSession: bool, role: Option<string>, role': Option<string>)
    requires Handle(path, hasSession, role).Redirect?
    ensures Handle(Handle(path, hasSession, role).location, hasSession, role') == Next
  {
    RedirectTargetsPrefixes(role);
    PrefixesExclusive(Handle(path, hasSession, role).location);
  }

  /** Paths outside both prefixes always pass, as do dashboards with a session
      and auth pages without one. */
  lemma {:induction false} PassThroughCases(path: string, hasSession: bool, role: Option<string>)
    ensures !StartsWith(path, "/dashboard") && !StartsWith(path, "/auth") ==> Handle(path, hasSession, role) == Next
    ensures StartsWith(path, "/dashboard") && hasSession ==> Handle(path, hasSession, role) == Next
    ensures StartsWith(path, "/auth") && !hasSession ==> Handle(path, hasSession, role) == Next
  {
    PrefixesExclusive(path);
  }

  /** The matcher is narrower than the guard's prefix test: a path such as
      "/dashboards" starts with "/dashboard", so the guard would send a
      signed-out visitor to the login page, but the matcher never runs the guard
      on it. */
  lemma MatcherSkipsLookalikePaths(role: Option<string>)
    ensures Decide("/dashboards", false, role) == Redirect(LoginPath)
    ensures !InScope("/dashboards") && Handle("/dashboards", false, role) == Next
  {
    assert "/dashboards"[..10] == "/dashboard";
    assert "/dashboards"[..11][10] != "/dashboard/"[10];
    assert "/dashboards"[..5][1] != "/auth"[1];
    assert "/dashboards"[..6][1] != "/auth/"[1];
  }
}
