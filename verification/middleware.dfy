/**
 * The access gate that runs before every page: a path the matcher selects
 * is let through when it is one of the open prefixes or the request carries
 * an `auth_token` cookie, and is redirected to the login page otherwise.
 */
module Middleware {
  import opened Wrappers
  import opened Text

  /** What the gate answers: carry on to the page, or redirect to a path. */
  datatype Outcome = Next | Redirect(target: string)

  /** The login page, the one redirect target. */
  const LoginPath: string := "/login"

  /** Paths that pass without a cookie: the login page and API, framework assets, the icon. */
  predicate Exempt(pathname: string)
  {
    || StartsWith(pathname, "/login")
    || StartsWith(pathname, "/api/login")
    || StartsWith(pathname, "/_next")
    || StartsWith(pathname, "/favicon.ico")
  }

  /**
   * `middleware`: `authCookie` is the `auth_token` cookie's value when the
   * request carries one. Only its presence is looked at.
   */
  function Gate(pathname: string, authCookie: Option<string>): Outcome
  {
    if Exempt(pathname) then Next
    else if authCookie.None? then Redirect(LoginPath)
    else Next
  }

  /** A redirect happens exactly for a non-exempt path without the cookie, and always to the login page. */
  lemma RedirectIff(pathname: string, authCookie: Option<string>)
    ensures Gate(pathname, authCookie).Redirect? <==> !Exempt(pathname) && authCookie.None?
    ensures Gate(pathname, authCookie).Redirect? ==> Gate(pathname, authCookie).target == LoginPath
  {
  }

  /** Exempt paths pass whether or not the cookie is there. */
  lemma ExemptPasses(pathname: string, authCookie: Option<string>)
    requires Exempt(pathname)
    ensures Gate(pathname, authCookie) == Next
  {
  }

  /** Any cookie value opens every path: the value is never checked. */
  lemma CookieValueIgnored(pathname: string, v1: string, v2: string)
    ensures Gate(pathname, Some(v1)) == Gate(pathname, Some(v2)) == Next
  {
  }

  /** The redirect target is itself exempt, so following a redirect never redirects again. */
  lemma RedirectNeverLoops(pathname: string, authCookie: Option<string>)
    requires Gate(pathname, authCookie).Redirect?
    ensures Gate(Gate(pathname, authCookie).target, authCookie) == Next
  {
    assert StartsWith(LoginPath, "/login");
  }

  /**
   * The route matcher's exclusions: after the leading slash the path must
   * not begin with `api`, `_next/static`, `_next/image` or `favicon.ico`,
   * where the unescaped `.` of `favicon.ico` stands for any character.
   */
  predicate Excluded(rest: string)
  {
    || StartsWith(rest, "api")
    || StartsWith(rest, "_next/static")
    || StartsWith(rest, "_next/image")
    || (|rest| >= 11 && rest[..7] == "favicon" && rest[8..11] == "ico")
  }

  predicate MatcherSelects(pathname: string)
  {
    |pathname| >= 1 && pathname[0] == '/' && !Excluded(pathname[1..])
  }

  /** A request as a whole: the gate runs only on paths the matcher selects. */
  function Route(pathname: string, authCookie: Option<string>): Outcome
  {
    if MatcherSelects(pathname) then Gate(pathname, authCookie) else Next
  }

  /** A request is redirected exactly when the matcher selects it, it is not exempt, and it has no cookie. */
  lemma RouteRedirectIff(pathname: string, authCookie: Option<string>)
    ensures Route(pathname, authCookie).Redirect? <==>
              MatcherSelects(pathname) && !Exempt(pathname) && authCookie.None?
  {
    RedirectIff(pathname, authCookie);
  }

  /** Every path beginning `/api`, not only the login API, bypasses the gate. */
  lemma ApiBypassesGate(rest: string, authCookie: Option<string>)
    ensures Route("/api" + rest, authCookie) == Next
  {
    var p := "/api" + rest;
    assert p[1..] == "api" + rest;
    assert ("api" + rest)[..3] == "api";
  }

  /** The `.` in the matcher's `favicon.ico` matches any character. */
  lemma MatcherDotIsWildcard(c: char, rest: string, authCookie: Option<string>)
    ensures Route("/favicon" + [c] + "ico" + rest, authCookie) == Next
  {
    var p := "/favicon" + [c] + "ico" + rest;
    assert p[1..] == "favicon" + [c] + "ico" + rest;
    assert p[1..][..7] == "favicon";
    assert p[1..][8..11] == "ico";
  }

  /** Without the cookie the home page redirects to the login page. */
  lemma HomeNeedsCookie()
    ensures Route("/", None) == Redirect(LoginPath)
  {
    assert "/"[1..] == "";
  }
}
