/**
 * The request gate of the admin dashboard (middleware.ts).
 *
 * Every request is classified by its path as public or protected, and the
 * value of the `admin_session` cookie decides whether a session exists.
 * The gate only looks at the presence of the cookie value, never at its
 * validity: any non-empty value counts as a session.
 */
module SessionGate {
  import opened Wrappers
  import opened Strings

  datatype Decision = Allow | RedirectToLogin | RedirectToHome

  const LoginPath: string := "/login"
  const HomePath: string := "/"
  const AuthApiPrefix: string := "/api/auth"

  /** `isPublicPath`: the login page and everything under the auth API prefix. */
  predicate IsPublicPath(path: string)
  {
    path == LoginPath || StartsWith(path, AuthApiPrefix)
  }

  /** The cookie value is truthy: present and not the empty string. */
  predicate HasSession(cookie: Option<string>)
  {
    cookie.Some? && cookie.value != ""
  }

  /**
   * `middleware`: the two early returns and the final pass-through, in the
   * order the source tests them.
   */
  function Middleware(path: string, cookie: Option<string>): (d: Decision)
    ensures d == RedirectToLogin <==> !IsPublicPath(path) && !HasSession(cookie)
    ensures d == RedirectToHome <==> path == LoginPath && HasSession(cookie)
    ensures d == Allow <==>
              (IsPublicPath(path) && (path != LoginPath || !HasSession(cookie)))
              || (!IsPublicPath(path) && HasSession(cookie))
  {
    var isPublic := IsPublicPath(path);
    var session := HasSession(cookie);
    if !isPublic && !session then RedirectToLogin
    else if isPublic && session && path == LoginPath then RedirectToHome
    else Allow
  }

  /** Where a redirecting decision sends the client. */
  function RedirectTarget(d: Decision): (target: Option<string>)
    ensures target.None? <==> d == Allow
    ensures d == RedirectToLogin ==> target == Some(LoginPath)
    ensures d == RedirectToHome ==> target == Some(HomePath)
  {
    match d
    case Allow => None
    case RedirectToLogin => Some(LoginPath)
    case RedirectToHome => Some(HomePath)
  }

  /** Public paths, spelled out character by character. */
  lemma PublicPathCharacterised(path: string)
    ensures IsPublicPath(path) <==>
              path == ['/', 'l', 'o', 'g', 'i', 'n']
              || (|path| >= 9 && path[0] == '/' && path[1] == 'a' && path[2] == 'p'
                  && path[3] == 'i' && path[4] == '/' && path[5] == 'a' && path[6] == 'u'
                  && path[7] == 't' && path[8] == 'h')
  {
    if |path| >= 9 {
      assert path[..9] == AuthApiPrefix <==>
               (path[0] == '/' && path[1] == 'a' && path[2] == 'p' && path[3] == 'i'
                && path[4] == '/' && path[5] == 'a' && path[6] == 'u' && path[7] == 't'
                && path[8] == 'h');
    }
  }

  /** No trailing slash is needed: "/api/authx" and "/api/auth" are public too. */
  lemma AuthPrefixIsRaw()
    ensures IsPublicPath("/api/auth") && IsPublicPath("/api/authx")
    ensures IsPublicPath("/api/auth/logout") && IsPublicPath("/api/auth/login")
    ensures !IsPublicPath("/api/aut") && !IsPublicPath("/login/") && !IsPublicPath("/posts")
  {
    assert "/api/authx"[..9] == AuthApiPrefix;
    assert "/api/auth/logout"[..9] == AuthApiPrefix;
    assert "/api/auth/login"[..9] == AuthApiPrefix;
    assert "/login/"[1] != AuthApiPrefix[1];
    assert "/posts"[1] != AuthApiPrefix[1];
  }

  /** A public path is never sent to the login page. */
  lemma PublicNeverRedirectedToLogin(path: string, cookie: Option<string>)
    requires IsPublicPath(path)
    ensures Middleware(path, cookie) != RedirectToLogin
  {
  }

  /** An empty cookie value (what logout writes) is the same as no cookie. */
  lemma EmptyCookieIsNoSession(path: string)
    ensures Middleware(path, Some("")) == Middleware(path, None)
  {
  }

  /** An authenticated client can still reach the auth API below the login page, e.g. logout. */
  lemma SessionOnAuthApiAllowed(path: string, session: string)
    requires StartsWith(path, AuthApiPrefix) && session != ""
    ensures Middleware(path, Some(session)) == Allow
  {
    assert |LoginPath| < |AuthApiPrefix|;
  }

  /** Example requests and the decisions they get. */
  lemma DecisionTable(session: string)
    requires session != ""
    ensures Middleware("/login", None) == Allow
    ensures Middleware("/login", Some(session)) == RedirectToHome
    ensures Middleware("/posts", None) == RedirectToLogin
    ensures Middleware("/posts", Some(session)) == Allow
    ensures Middleware("/api/auth/logout", Some(session)) == Allow
    ensures Middleware("/api/auth/logout", None) == Allow
  {
    AuthPrefixIsRaw();
  }
}
