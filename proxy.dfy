/** The route guard run on every request (`updateSession`): signed-in
    users without an onboarding record are sent to onboarding from the
    dashboard, and signed-out users are sent to the login page from the
    dashboard and from onboarding. */
module Proxy {
  import opened Text

  datatype Decision = PassThrough | Redirect(pathname: string)

  predicate IsDashboard(path: string) { StartsWith(path, "/dashboard") }
  predicate IsOnboarding(path: string) { StartsWith(path, "/onboarding") }

  /** The decision for one request path, given whether a user is signed in
      and whether the onboarding lookup (made only for a signed-in user on
      a dashboard path) finds a record. */
  function Decide(path: string, userSignedIn: bool, hasOnboarding: bool): (d: Decision)
    ensures userSignedIn && IsDashboard(path) && !hasOnboarding ==> d == Redirect("/onboarding")
    ensures !userSignedIn && (IsDashboard(path) || IsOnboarding(path)) ==> d == Redirect("/auth/login")
    ensures d == PassThrough <==>
      if userSignedIn then !(IsDashboard(path) && !hasOnboarding) else !(IsDashboard(path) || IsOnboarding(path))
  {
    PrefixesExclusive(path);
    if userSignedIn && IsDashboard(path) && !hasOnboarding && !IsOnboarding(path) then Redirect("/onboarding")
    else if (IsDashboard(path) || IsOnboarding(path)) && !userSignedIn then Redirect("/auth/login")
    else PassThrough
  }

  /** No path starts with both prefixes, so the `!startsWith("/onboarding")`
      test inside the dashboard branch always holds. */
  lemma PrefixesExclusive(path: string)
    ensures !(IsDashboard(path) && IsOnboarding(path))
  {
    assert IsDashboard(path) ==> path[..10][1] == 'd';
    assert IsOnboarding(path) ==> path[..11][1] == 'o';
  }

  /** A signed-in user is never turned away from onboarding. */
  lemma SignedInReachesOnboarding(path: string, hasOnboarding: bool)
    requires IsOnboarding(path)
    ensures Decide(path, true, hasOnboarding) == PassThrough
  {
    PrefixesExclusive(path);
  }

  /** Following a redirect does not redirect again. */
  lemma RedirectTargetsPass(path: string, userSignedIn: bool, hasOnboarding: bool)
    requires Decide(path, userSignedIn, hasOnboarding).Redirect?
    ensures Decide(Decide(path, userSignedIn, hasOnboarding).pathname, userSignedIn, hasOnboarding) == PassThrough
  {
    var target := Decide(path, userSignedIn, hasOnboarding).pathname;
    if userSignedIn {
      assert target == "/onboarding";
      assert !IsDashboard(target) by { assert target[1] != "/dashboard"[1]; }
    } else {
      assert target == "/auth/login";
      assert !IsDashboard(target) by { assert target[1] != "/dashboard"[1]; }
      assert !IsOnboarding(target) by { assert target[1] != "/onboarding"[1]; }
    }
  }
}
