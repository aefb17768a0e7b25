/**
 * The request middleware (`middleware.ts`): which pages it guards, and how
 * the presence of a session token decides between a redirect and letting the
 * request through.
 */
module Middleware {
  import opened Text

  /** `NextResponse.redirect` to a path of the same origin, or `NextResponse.next()`. */
  datatype Outcome = Redirect(location: string) | Pass

  const SignIn := "/auth/signin"
  const ErrorPage := "/auth/error"
  const Dashboard := "/dashboard"

  /** The pages a visitor without a session may see. */
  predicate IsPublic(path: string) {
    path == SignIn || path == ErrorPage
  }

  /** The redirect decision for a request path; `hasToken` says whether a session token came with it. */
  function Decide(path: string, hasToken: bool): (r: Outcome)
    ensures r == Redirect(Dashboard) <==> IsPublic(path) && hasToken
    ensures r == Redirect(SignIn) <==> !IsPublic(path) && !hasToken && !IsPrefix("/api", path)
    ensures r.Redirect? ==> r.location in {Dashboard, SignIn}
  {
    if IsPublic(path) && hasToken then Redirect(Dashboard)
    else if !IsPublic(path) && !hasToken && !IsPrefix("/api", path) then Redirect(SignIn)
    else Pass
  }

  /** `config.matcher`: `/dashboard` and everything below it, and the two public pages. */
  predicate Matched(path: string) {
    path == Dashboard || IsPrefix(Dashboard + "/", path) || path == SignIn || path == ErrorPage
  }

  /** What a request meets: the decision on matched paths, nothing on the others. */
  function Handle(path: string, hasToken: bool): (r: Outcome)
    ensures !Matched(path) ==> r == Pass
    ensures Matched(path) ==> r == Decide(path, hasToken)
  {
    if Matched(path) then Decide(path, hasToken) else Pass
  }

  /** A matched path never starts with `/api`, so the `/api` exemption never applies. */
  lemma MatchedNotApi(path: string)
    requires Matched(path)
    ensures !IsPrefix("/api", path)
  {
    if path == Dashboard || IsPrefix(Dashboard + "/", path) {
      assert path[1] == 'd' by {
        if path != Dashboard {
          assert path[1] == path[..|Dashboard + "/"|][1];
        }
      }
    } else {
      assert path[2] == 'u';
    }
    assert path[..4][1] == path[1] && path[..4][2] == path[2];
  }

  /** Every guarded dashboard page passes exactly when a token is present, and otherwise goes to sign-in. */
  lemma DashboardNeedsToken(path: string, hasToken: bool)
    requires Matched(path) && !IsPublic(path)
    ensures Handle(path, hasToken) == if hasToken then Pass else Redirect(SignIn)
  {
    MatchedNotApi(path);
  }

  /** The public pages pass exactly when no token is present, and otherwise go to the dashboard. */
  lemma PublicNeedsNoToken(path: string, hasToken: bool)
    requires IsPublic(path)
    ensures Handle(path, hasToken) == if hasToken then Redirect(Dashboard) else Pass
  {
  }

  /** Following a redirect with the same token passes: the middleware never redirects twice in a row. */
  lemma RedirectSettles(path: string, hasToken: bool)
    requires Handle(path, hasToken).Redirect?
    ensures Handle(Handle(path, hasToken).location, hasToken) == Pass
  {
    var target := Handle(path, hasToken).location;
    if hasToken {
      assert target == Dashboard;
      assert !IsPublic(Dashboard);
    } else {
      assert target == SignIn;
    }
  }
}
