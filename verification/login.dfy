/**
 * The login endpoint: the submitted name and password are compared with
 * the expected pair, taken from the environment with fixed defaults, and a
 * match sets the session cookie the access gate looks for.
 */
module Login {
  import opened Wrappers
  import Middleware

  /** The environment variables the endpoint reads; `None` when unset. */
  datatype Env = Env(authUser: Option<string>, authPass: Option<string>, nodeEnv: Option<string>)

  const DefaultUser: string := "admin"
  const DefaultPass: string := "password123"

  /** One week in seconds. */
  const SessionMaxAge: int := 60 * 60 * 24 * 7

  /** `value || fallback`: an unset or empty variable gives the fallback. */
  function OrDefault(value: Option<string>, fallback: string): (r: string)
    ensures value.Some? && value.value != "" ==> r == value.value
    ensures value.None? || value == Some("") ==> r == fallback
  {
    if value.Some? && value.value != "" then value.value else fallback
  }

  function ExpectedUser(env: Env): string
  {
    OrDefault(env.authUser, DefaultUser)
  }

  function ExpectedPass(env: Env): string
  {
    OrDefault(env.authPass, DefaultPass)
  }

  datatype Cookie = Cookie(name: string, value: string, httpOnly: bool, secure: bool,
                           sameSite: string, maxAge: int)

  /** The response: its status, the `success` field, and the cookie set, if any. */
  datatype Response = Response(status: int, success: bool, cookie: Option<Cookie>)

  /** The session cookie; it is marked secure only in production. */
  function SessionCookie(env: Env): Cookie
  {
    Cookie("auth_token", "valid_session", true, env.nodeEnv == Some("production"), "strict", SessionMaxAge)
  }

  /**
   * `POST`: `username` and `password` are the body's fields when they are
   * strings, `None` when missing or of another type.
   */
  function Post(username: Option<string>, password: Option<string>, env: Env): Response
  {
    if username == Some(ExpectedUser(env)) && password == Some(ExpectedPass(env)) then
      Response(200, true, Some(SessionCookie(env)))
    else
      Response(401, false, None)
  }

  /** Login succeeds exactly when both fields equal the expected pair; failure is a 401 with no cookie. */
  lemma PostSucceedsIff(username: Option<string>, password: Option<string>, env: Env)
    ensures Post(username, password, env).success <==>
              username == Some(ExpectedUser(env)) && password == Some(ExpectedPass(env))
    ensures !Post(username, password, env).success ==> Post(username, password, env) == Response(401, false, None)
    ensures Post(username, password, env).cookie.Some? <==> Post(username, password, env).success
  {
  }

  /** A successful login sets `auth_token=valid_session`, HTTP-only, same-site strict, for 604800 seconds. */
  lemma SessionCookieAttributes(username: Option<string>, password: Option<string>, env: Env)
    requires Post(username, password, env).success
    ensures var c := Post(username, password, env).cookie.value;
            && c.name == "auth_token" && c.value == "valid_session"
            && c.httpOnly && c.sameSite == "strict" && c.maxAge == 604800
            && (c.secure <==> env.nodeEnv == Some("production"))
  {
  }

  /** With the variables unset or empty, the default pair logs in and nothing else does. */
  lemma DefaultCredentials(username: Option<string>, password: Option<string>, env: Env)
    requires env.authUser == None || env.authUser == Some("")
    requires env.authPass == None || env.authPass == Some("")
    ensures Post(username, password, env).success <==>
              username == Some(DefaultUser) && password == Some(DefaultPass)
  {
  }

  /** A set variable replaces the default: the default password no longer works. */
  lemma ConfiguredPasswordReplacesDefault(username: Option<string>, env: Env)
    requires env.authPass.Some? && env.authPass.value != "" && env.authPass.value != DefaultPass
    ensures !Post(username, Some(DefaultPass), env).success
  {
  }

  /** The cookie a successful login sets opens every path of the access gate. */
  lemma LoginOpensGate(username: Option<string>, password: Option<string>, env: Env, pathname: string)
    requires Post(username, password, env).success
    ensures Middleware.Gate(pathname, Some(Post(username, password, env).cookie.value.value)) == Middleware.Next
  {
  }
}
