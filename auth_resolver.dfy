/**
 * The cookie side of `AuthResolver`. `login` writes the access, refresh and
 * CSRF cookies with lifetimes that depend on the environment, `refreshToken`
 * rewrites only the access cookie, `getCsrfToken` writes only the CSRF cookie
 * and `logout` clears the three cookie names. The response is the object the
 * resolvers write to; `Http.Apply` then says what a browser keeps.
 */
module AuthResolver {
  import opened Wrappers
  import opened Crypto
  import opened Errors
  import opened SecurityConfig
  import opened Http
  import opened Store
  import opened AuthService
  import LoginHandler
  import CsrfMiddleware

  const OneHourMs: nat := 60 * 60 * 1000
  const FifteenMinutesMs: nat := 15 * 60 * 1000
  const NoRefreshToken := Failed("No refresh token provided")

  datatype LoginResponse = LoginResponse(accessToken: Wire, refreshToken: Wire, user: User)

  /** The three cookies `login` writes, each over the configured options with its own `maxAge`. */
  function LoginCookies(env: Env, accessToken: Wire, refreshToken: Wire, csrfToken: Wire): seq<SetCookie> {
    var cfg := Security(env);
    var dev := IsDevelopment(env);
    [ SetCookie(cfg.cookies.accessTokenName, accessToken,
                cfg.cookies.options.(maxAge := if dev then OneHourMs else FifteenMinutesMs)),
      SetCookie(cfg.cookies.refreshTokenName, refreshToken,
                cfg.cookies.options.(maxAge := if dev then ThirtyDaysMs else SevenDaysMs)),
      SetCookie(cfg.cookies.csrfTokenName, csrfToken,
                cfg.cookies.csrfOptions.(maxAge := if dev then ThirtyDaysMs else OneDayMs)) ]
  }

  /** The three instructions `logout` sends: `clearCookie(name)` with no options. */
  function LogoutCookies(env: Env): seq<SetCookie> {
    var cfg := Security(env);
    [ ClearCookie(cfg.cookies.accessTokenName, None, "/"),
      ClearCookie(cfg.cookies.refreshTokenName, None, "/"),
      ClearCookie(cfg.cookies.csrfTokenName, None, "/") ]
  }

  /** The token cookies are httpOnly and the CSRF cookie is readable by scripts; all carry the one sameSite, path, domain and secure flag. */
  lemma LoginCookieAttributes(env: Env, a: Wire, r: Wire, c: Wire)
    ensures var cs := LoginCookies(env, a, r, c);
      && |cs| == 3 && cs[0].SetCookie? && cs[1].SetCookie? && cs[2].SetCookie?
      && cs[0].name == Security(env).cookies.accessTokenName && cs[0].value == a
      && cs[1].name == Security(env).cookies.refreshTokenName && cs[1].value == r
      && cs[2].name == Security(env).cookies.csrfTokenName && cs[2].value == c
      && cs[0].options.httpOnly && cs[1].options.httpOnly && !cs[2].options.httpOnly
      && (forall i | 0 <= i < 3 :: cs[i].options.secure == IsProduction(env))
      && (forall i | 0 <= i < 3 :: cs[i].options.path == Security(env).cookies.options.path)
      && (forall i | 0 <= i < 3 :: cs[i].options.domain == (if IsProduction(env) then env.domain else None))
  {
  }

  /** Lifetimes: development 1 h / 30 d / 30 d, production 15 min / 7 d / 24 h, whatever the maxAge overrides say. */
  lemma LoginCookieLifetimes(env: Env, a: Wire, r: Wire, c: Wire)
    ensures var cs := LoginCookies(env, a, r, c);
      [cs[0].options.maxAge, cs[1].options.maxAge, cs[2].options.maxAge] ==
        if IsDevelopment(env) then [3600000, 2592000000, 2592000000] else [900000, 604800000, 86400000]
  {
  }

  /**
   * `login(input)`: on bad credentials the error propagates before any
   * cookie is written; otherwise the three cookies carry the command's tokens
   * and a freshly generated CSRF token, and the response returns the same
   * tokens with the command's user.
   */
  method Login(env: Env, users: map<int, User>, email: string, password: string, now: int, salt: nat, res: Response)
    returns (r: Result<LoginResponse, Error>)
    requires UserTable(users)
    modifies res
    ensures r.Success? <==> Credentials(users, email, password)
    ensures r.Failure? ==> r.error == LoginHandler.InvalidCredentials && res.setCookies == old(res.setCookies)
    ensures r.Success? ==>
      var login := LoginHandler.Execute(Security(env), users, email, password, now).value;
      && r.value == LoginResponse(login.accessToken, login.refreshToken, login.user)
      && res.setCookies == old(res.setCookies) +
           LoginCookies(env, login.accessToken, login.refreshToken, CsrfMiddleware.GenerateToken(Security(env), salt))
  {
    var cfg := Security(env);
    var result := LoginHandler.Execute(cfg, users, email, password, now);
    if result.Failure? {
      return Failure(result.error);
    }
    var csrfToken := CsrfMiddleware.GenerateToken(cfg, salt);
    var dev := IsDevelopment(env);
    res.Cookie(cfg.cookies.accessTokenName, result.value.accessToken,
               cfg.cookies.options.(maxAge := if dev then OneHourMs else FifteenMinutesMs));
    res.Cookie(cfg.cookies.refreshTokenName, result.value.refreshToken,
               cfg.cookies.options.(maxAge := if dev then ThirtyDaysMs else SevenDaysMs));
    res.Cookie(cfg.cookies.csrfTokenName, csrfToken,
               cfg.cookies.csrfOptions.(maxAge := if dev then ThirtyDaysMs else OneDayMs));
    r := Success(LoginResponse(result.value.accessToken, result.value.refreshToken, result.value.user));
  }

  /**
   * `refreshToken()`: with no non-empty refresh cookie it fails before the
   * service is called; a refused rotation propagates its error; in both cases
   * no cookie is written. Otherwise only the access cookie is rewritten, with
   * a 15-minute maxAge in every environment, and the new token is returned.
   */
  method RefreshToken(env: Env, users: map<int, User>, req: Request, now: int, res: Response) returns (r: Result<Wire, Error>)
    modifies res
    ensures !Truthy(CookieValue(req, Security(env).cookies.refreshTokenName)) ==>
      r == Failure(NoRefreshToken) && res.setCookies == old(res.setCookies)
    ensures Truthy(CookieValue(req, Security(env).cookies.refreshTokenName)) ==>
      var rotated := RefreshAccessToken(Security(env), users, req.cookies[Security(env).cookies.refreshTokenName], now);
      && (rotated.Failure? ==> r == rotated && res.setCookies == old(res.setCookies))
      && (rotated.Success? ==>
            && r == rotated
            && res.setCookies == old(res.setCookies) +
                 [SetCookie(Security(env).cookies.accessTokenName, rotated.value,
                            Security(env).cookies.options.(maxAge := FifteenMinutesMs))])
  {
    var cfg := Security(env);
    var refreshToken := CookieValue(req, cfg.cookies.refreshTokenName);
    if !Truthy(refreshToken) {
      return Failure(NoRefreshToken);
    }
    var rotated := RefreshAccessToken(cfg, users, refreshToken.value, now);
    if rotated.Failure? {
      return rotated;
    }
    res.Cookie(cfg.cookies.accessTokenName, rotated.value, cfg.cookies.options.(maxAge := FifteenMinutesMs));
    r := rotated;
  }

  /** `getCsrfToken()`: writes only the CSRF cookie, with the CSRF options, and returns the value it wrote, which the gate accepts. */
  method GetCsrfToken(env: Env, salt: nat, res: Response) returns (token: Wire)
    modifies res
    ensures CsrfMiddleware.VerifyToken(Security(env), token)
    ensures token == CsrfMiddleware.GenerateToken(Security(env), salt)
    ensures res.setCookies == old(res.setCookies) + [SetCookie(Security(env).cookies.csrfTokenName, token, Security(env).cookies.csrfOptions)]
  {
    var cfg := Security(env);
    token := CsrfMiddleware.GenerateToken(cfg, salt);
    res.Cookie(cfg.cookies.csrfTokenName, token, cfg.cookies.csrfOptions);
  }

  /** `logout()`: clears the three configured names without options and always answers true. */
  method Logout(env: Env, res: Response) returns (ok: bool)
    modifies res
    ensures ok
    ensures res.setCookies == old(res.setCookies) + LogoutCookies(env)
  {
    var cfg := Security(env);
    res.ClearCookie(cfg.cookies.accessTokenName);
    res.ClearCookie(cfg.cookies.refreshTokenName);
    res.ClearCookie(cfg.cookies.csrfTokenName);
    ok := true;
  }

  /** `profile()`: the guard's user reloaded from the store with its profile. */
  function Profile(users: map<int, User>, profiles: map<int, Profile>, principal: User): (r: Result<UserWithProfile, Error>)
    requires ProfileTable(profiles)
    ensures r.Success? <==> principal.id in users
    ensures r.Success? ==> r.value.user == users[principal.id] && r.value.profile == ProfileOf(profiles, principal.id)
    ensures r.Failure? ==> r.error == UserNotFound
  {
    GetUserWithProfile(users, profiles, principal.id)
  }

  /**
   * After a login, a successful `refreshToken` replaces the browser's access
   * cookie with the rotated token and leaves the refresh and CSRF cookies as
   * login set them, provided the three configured names differ.
   */
  lemma RefreshReplacesAccessCookie(env: Env, jar: map<CookieKey, Wire>, a: Wire, r: Wire, c: Wire, rotated: Wire)
    requires var cfg := Security(env).cookies;
      cfg.accessTokenName != cfg.refreshTokenName && cfg.accessTokenName != cfg.csrfTokenName
      && cfg.refreshTokenName != cfg.csrfTokenName
    ensures var cfg := Security(env).cookies;
      var login := LoginCookies(env, a, r, c);
      var after := Apply(jar, login + [SetCookie(cfg.accessTokenName, rotated, cfg.options.(maxAge := FifteenMinutesMs))]);
      && KeyOf(login[0]) in after && after[KeyOf(login[0])] == rotated
      && KeyOf(login[1]) in after && after[KeyOf(login[1])] == r
      && KeyOf(login[2]) in after && after[KeyOf(login[2])] == c
  {
    var cfg := Security(env).cookies;
    var login := LoginCookies(env, a, r, c);
    var cs := login + [SetCookie(cfg.accessTokenName, rotated, cfg.options.(maxAge := FifteenMinutesMs))];
    assert KeyOf(cs[3]) == KeyOf(login[0]);
    ApplyLast(jar, cs, 3);
    ApplyLast(jar, cs, 2);
    ApplyLast(jar, cs, 1);
  }

  /** Logging out twice leaves the browser as logging out once. */
  lemma LogoutIdempotent(env: Env, jar: map<CookieKey, Wire>)
    ensures Apply(Apply(jar, LogoutCookies(env)), LogoutCookies(env)) == Apply(jar, LogoutCookies(env))
  {
    ClearsIdempotent(jar, LogoutCookies(env));
  }

  /** The login's CSRF cookie lets a later request through the gate, with no header needed. */
  lemma LoginCsrfCookiePasses(env: Env, a: Wire, r: Wire, salt: nat, req: Request)
    requires CsrfMiddleware.TokenHeader !in req.headers
    requires var name := Security(env).cookies.csrfTokenName;
      name in req.cookies && req.cookies[name] == LoginCookies(env, a, r, CsrfMiddleware.GenerateToken(Security(env), salt))[2].value
    ensures CsrfMiddleware.Use(Security(env), req) == CsrfMiddleware.Next
  {
  }

  /** Where cookies are set with no domain and path '/', as in development by default, logging out removes all three login cookies. */
  lemma LogoutClearsHostCookies(env: Env, jar: map<CookieKey, Wire>, a: Wire, r: Wire, c: Wire)
    requires Security(env).cookies.options.domain.None? && Security(env).cookies.options.path == "/"
    ensures var after := Apply(Apply(jar, LoginCookies(env, a, r, c)), LogoutCookies(env));
      forall i | 0 <= i < 3 :: KeyOf(LoginCookies(env, a, r, c)[i]) !in after
  {
    var login, logout := LoginCookies(env, a, r, c), LogoutCookies(env);
    forall i | 0 <= i < 3
      ensures KeyOf(login[i]) !in Apply(Apply(jar, login), logout)
    {
      assert KeyOf(login[i]) == KeyOf(logout[i]);
      ClearsRemoveEach(Apply(jar, login), logout, i);
    }
  }

  /**
   * As written: when production sets a cookie domain, or the cookie path is
   * not '/', `clearCookie(name)` addresses a different cookie than `login`
   * set, and all three login cookies survive logout.
   */
  lemma LogoutLeavesScopedCookies(env: Env, jar: map<CookieKey, Wire>, a: Wire, r: Wire, c: Wire)
    requires Security(env).cookies.options.domain.Some? || Security(env).cookies.options.path != "/"
    ensures var after := Apply(Apply(jar, LoginCookies(env, a, r, c)), LogoutCookies(env));
      forall i | 0 <= i < 3 :: KeyOf(LoginCookies(env, a, r, c)[i]) in after
  {
    var login, logout := LoginCookies(env, a, r, c), LogoutCookies(env);
    forall i | 0 <= i < 3
      ensures KeyOf(login[i]) in Apply(Apply(jar, login), logout)
    {
      SetsAddEach(jar, login, i);
      ApplyUntouched(Apply(jar, login), logout, KeyOf(login[i]));
    }
  }

  /** The instructions a logout that passes the cookie options sends. */
  function ScopedLogoutCookies(env: Env): seq<SetCookie> {
    var cfg := Security(env);
    [ ClearCookie(cfg.cookies.accessTokenName, cfg.cookies.options.domain, cfg.cookies.options.path),
      ClearCookie(cfg.cookies.refreshTokenName, cfg.cookies.options.domain, cfg.cookies.options.path),
      ClearCookie(cfg.cookies.csrfTokenName, cfg.cookies.csrfOptions.domain, cfg.cookies.csrfOptions.path) ]
  }

  /**
   * Corrected `logout()`: `clearCookie(name, { domain, path })` with the
   * domain and path each cookie was set with. Only those two options are
   * passed: the configured options also hold a `maxAge`, which Express 4
   * would turn into a fresh expiry, rewriting the cookie instead of
   * removing it.
   */
  method ScopedLogout(env: Env, res: Response) returns (ok: bool)
    modifies res
    ensures ok
    ensures res.setCookies == old(res.setCookies) + ScopedLogoutCookies(env)
  {
    var cfg := Security(env);
    res.ClearCookieWith(cfg.cookies.accessTokenName, cfg.cookies.options);
    res.ClearCookieWith(cfg.cookies.refreshTokenName, cfg.cookies.options);
    res.ClearCookieWith(cfg.cookies.csrfTokenName, cfg.cookies.csrfOptions);
    ok := true;
  }

  /** In every environment the corrected logout removes all three login cookies, and repeating it changes nothing. */
  lemma ScopedLogoutClearsLogin(env: Env, jar: map<CookieKey, Wire>, a: Wire, r: Wire, c: Wire)
    ensures var after := Apply(Apply(jar, LoginCookies(env, a, r, c)), ScopedLogoutCookies(env));
      forall i | 0 <= i < 3 :: KeyOf(LoginCookies(env, a, r, c)[i]) !in after
    ensures Apply(Apply(jar, ScopedLogoutCookies(env)), ScopedLogoutCookies(env)) == Apply(jar, ScopedLogoutCookies(env))
  {
    var login, logout := LoginCookies(env, a, r, c), ScopedLogoutCookies(env);
    forall i | 0 <= i < 3
      ensures KeyOf(login[i]) !in Apply(Apply(jar, login), logout)
    {
      assert KeyOf(login[i]) == KeyOf(logout[i]);
      ClearsRemoveEach(Apply(jar, login), logout, i);
    }
    ClearsIdempotent(jar, logout);
  }
}
