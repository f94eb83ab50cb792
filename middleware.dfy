/**
 * The request gate in front of every page and route: the login page, the
 * auth routes and the init route are open; everything else needs the
 * session cookie.
 */
module Middleware {
  import opened Wrappers
  import opened Text
  import Login

  datatype Decision = Next | RedirectToLogin

  /** The paths that pass without a session. */
  predicate Open(pathname: string) {
    pathname == "/login" || StartsWith(pathname, "/api/auth/") || pathname == "/api/init"
  }

  /** `middleware` for a path and the value of the `auth-token` cookie, if any. */
  function Gate(pathname: string, authToken: Option<string>): (d: Decision)
    ensures Open(pathname) ==> d == Next
    ensures !Open(pathname) ==> (d == Next <==> authToken == Some("authenticated"))
  {
    if Open(pathname) then Next
    else if authToken.None? || authToken.value != "authenticated" then RedirectToLogin
    else Next
  }

  /** The cookie a successful login sets opens every path. */
  lemma LoginOpensEveryPath(username: Option<string>, password: Option<string>, file: Login.PasswordFile,
                            bcryptVerify: (string, string) -> bool, pathname: string)
    requires Login.Post(username, password, file, bcryptVerify).LoggedIn?
    ensures Gate(pathname, Some(Login.Post(username, password, file, bcryptVerify).cookie.value)) == Next
  {
  }

  /** Without the session cookie only the open paths are reachable; the login routes are among them. */
  lemma NoSessionOnlyOpenPaths(pathname: string)
    ensures Gate(pathname, None) == Next <==> Open(pathname)
    ensures Gate("/api/auth/login", None) == Next && Gate("/api/auth/change-password", None) == Next
    ensures Gate("/payments", None) == RedirectToLogin
  {
  }
}
