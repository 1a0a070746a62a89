/**
 * The request gate in front of every page: the login pages are public, everything else needs a
 * verified session token. Signed-in users are sent away from the login pages to the home page,
 * anonymous users from every other page to the login page.
 */
module Proxy {
  import opened Wrappers
  import opened JsStrings

  const PublicPaths: seq<string> := ["/login"]
  const Home: string := "/"
  const Login: string := "/login"

  /** `publicPaths.some((path) => pathname.startsWith(path))`. */
  predicate IsPublicPath(pathname: string) {
    exists i :: 0 <= i < |PublicPaths| && StartsWith(pathname, PublicPaths[i])
  }

  /**
   * `isAuthenticated`: a non-empty token cookie that the signature check accepts. The check
   * (`jwtVerify` with the server's secret) is the parameter `verifies`.
   */
  function IsAuthenticated(token: Option<string>, verifies: string -> bool): (b: bool)
    ensures b <==> token.Some? && token.value != "" && verifies(token.value)
  {
    match token
    case None => false
    case Some(t) => if t == "" then false else verifies(t)
  }

  datatype Decision = Redirect(target: string) | Pass

  /** `middleware`: which requests are redirected where, and which go through. */
  function Middleware(pathname: string, authenticated: bool): (d: Decision)
    ensures d == Redirect(Home) <==> IsPublicPath(pathname) && authenticated
    ensures d == Redirect(Login) <==> !IsPublicPath(pathname) && !authenticated
    ensures d == Pass <==> IsPublicPath(pathname) != authenticated
  {
    var isPublicPath := StartsWith(pathname, PublicPaths[0]);
    assert isPublicPath <==> IsPublicPath(pathname);
    if isPublicPath && authenticated then Redirect(Home)
    else if !isPublicPath && !authenticated then Redirect(Login)
    else Pass
  }

  /** The login page is public, the home page is not. */
  lemma TargetsClassified()
    ensures IsPublicPath(Login) && !IsPublicPath(Home)
  {
    assert StartsWith(Login, PublicPaths[0]);
    forall i | 0 <= i < |PublicPaths| ensures !StartsWith(Home, PublicPaths[i]) {
      assert |Home| < |PublicPaths[i]|;
    }
  }

  /**
   * A signed-in user is never sent to the login page, an anonymous one never to the home page,
   * and every redirect is one of the two.
   */
  lemma RedirectTargets(pathname: string, authenticated: bool)
    ensures var d := Middleware(pathname, authenticated);
      && (d.Redirect? ==> d.target == Home || d.target == Login)
      && (d.Redirect? && authenticated ==> d.target == Home)
      && (d.Redirect? && !authenticated ==> d.target == Login)
  {
  }

  /** No redirect loop: the page a request is sent to lets the same user through. */
  lemma NoRedirectLoop(pathname: string, authenticated: bool)
    ensures var d := Middleware(pathname, authenticated);
      d.Redirect? ==> Middleware(d.target, authenticated) == Pass
  {
    TargetsClassified();
  }

  /** Every path under the login page's prefix counts as public, not only the login page itself. */
  lemma PrefixIsPublic(suffix: string)
    ensures IsPublicPath(Login + suffix)
  {
    assert StartsWith(Login + suffix, PublicPaths[0]) by {
      assert (Login + suffix)[..|Login|] == Login;
    }
  }
}
