/**
 * The guard around every dashboard page (`app/dashboard/layout.tsx`): no
 * session goes to sign-in, a non-admin goes to sign-in with an access-denied
 * error outside development, and everyone else sees the page.
 */
module DashboardLayout {
  import opened Base
  import opened Text
  import AuthOptions
  import Middleware

  /** The part of the session the guard reads: the role of its user. */
  datatype SessionView = SessionView(role: Option<string>)

  /** `redirect(location)`, or rendering the dashboard around the page. */
  datatype Outcome = Redirect(location: string) | Render

  const SignIn := "/auth/signin"
  const AccessDenied := SignIn + "?error=AccessDenied"

  /** The guard; `development` is `NODE_ENV === 'development'`. */
  function Guard(session: Option<SessionView>, development: bool): (r: Outcome)
    ensures r == Render <==> session.Some? && (session.value.role == Some("admin") || development)
    ensures r == Redirect(SignIn) <==> session.None?
    ensures r == Redirect(AccessDenied) <==> session.Some? && session.value.role != Some("admin") && !development
  {
    if session.None? then Redirect(SignIn)
    else if session.value.role != Some("admin") && !development then Redirect(AccessDenied)
    else Render
  }

  /**
   * Outside development, a user the `signIn` callback let in gets the role
   * 'admin' from the `session` callback, so the guard renders the page.
   */
  lemma SignedInAdminRenders(admins: seq<string>, email: Option<string>)
    requires AuthOptions.SignInAllowed(admins, email, false)
    ensures Guard(Some(SessionView(Some(AuthOptions.SessionRole(admins, email)))), false) == Render
  {
    AuthOptions.ProductionSessionsAreAdmin(admins, email);
  }

  /** The path part of a location: what comes before its '?'. */
  function PathOf(location: string): (r: string)
    ensures '?' !in r
  {
    Split(location, '?')[0]
  }

  /** The access-denied location is the sign-in page. */
  lemma AccessDeniedPath()
    ensures PathOf(AccessDenied) == SignIn
  {
    assert AccessDenied == SignIn + ['?'] + "error=AccessDenied";
    SplitPrefix(SignIn, "error=AccessDenied", '?');
  }

  /**
   * A session that still has its token but whose email has left the
   * allow-list is sent round a cycle outside development: the guard sends
   * it to the sign-in page, the middleware sends a token holder on the
   * sign-in page back to the dashboard, and the middleware lets the
   * dashboard through to the guard again.
   */
  lemma DroppedAdminCycles(admins: seq<string>, email: Option<string>)
    requires OrEmpty(email) !in admins
    ensures var first := Guard(Some(SessionView(Some(AuthOptions.SessionRole(admins, email)))), false);
      && first == Redirect(AccessDenied)
      && Middleware.Handle(PathOf(first.location), true) == Middleware.Redirect(Middleware.Dashboard)
      && Middleware.Handle(Middleware.Dashboard, true) == Middleware.Pass
  {
    AccessDeniedPath();
    Middleware.PublicNeedsNoToken(SignIn, true);
    Middleware.DashboardNeedsToken(Middleware.Dashboard, true);
  }
}
