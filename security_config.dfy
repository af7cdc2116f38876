/**
 * `securityConfig`: the settings object the backend builds once from its
 * environment. The environment is an explicit `Env` value; an unset variable is
 * `None`. JavaScript's `process.env.X || default` treats an empty string like an
 * unset variable, which `Or` reproduces.
 */
module SecurityConfig {
  import opened Wrappers

  /** A token lifetime as written in the configuration ('15m') and the number of seconds it denotes. */
  datatype Span = Span(written: string, seconds: nat)

  const OneHour := Span("1h", 3600)
  const FifteenMinutes := Span("15m", 900)
  const ThirtyDays := Span("30d", 2592000)
  const SevenDays := Span("7d", 604800)

  /** The environment variables the configuration reads. */
  datatype Env = Env(
    nodeEnv: Option<string>,                  // NODE_ENV
    jwtAccessSecret: Option<string>,          // JWT_ACCESS_SECRET
    jwtRefreshSecret: Option<string>,         // JWT_REFRESH_SECRET
    jwtAccessExpiresIn: Option<Span>,         // JWT_ACCESS_EXPIRES_IN
    jwtRefreshExpiresIn: Option<Span>,        // JWT_REFRESH_EXPIRES_IN
    cookieAccessTokenName: Option<string>,    // COOKIE_ACCESS_TOKEN_NAME
    cookieRefreshTokenName: Option<string>,   // COOKIE_REFRESH_TOKEN_NAME
    cookieCsrfTokenName: Option<string>,      // COOKIE_CSRF_TOKEN_NAME
    cookieSameSite: Option<string>,           // COOKIE_SAME_SITE
    cookieMaxAge: Option<nat>,                // COOKIE_MAX_AGE, already parsed
    cookieCsrfMaxAge: Option<nat>,            // COOKIE_CSRF_MAX_AGE, already parsed
    cookiePath: Option<string>,               // COOKIE_PATH
    domain: Option<string>,                   // DOMAIN
    frontendUrl: Option<string>,              // FRONTEND_URL
    csrfSecret: Option<string>                // CSRF_SECRET
  )

  datatype JwtSettings = JwtSettings(
    accessTokenSecret: string,
    refreshTokenSecret: string,
    accessTokenExpiresIn: Span,
    refreshTokenExpiresIn: Span
  )

  /** The options handed to `res.cookie`; `maxAge` is in milliseconds. */
  datatype CookieOptions = CookieOptions(
    httpOnly: bool,
    secure: bool,
    sameSite: string,
    maxAge: nat,
    path: string,
    domain: Option<string>
  )

  datatype CookieSettings = CookieSettings(
    accessTokenName: string,
    refreshTokenName: string,
    csrfTokenName: string,
    options: CookieOptions,      // for the access and refresh cookies
    csrfOptions: CookieOptions   // for the anti-forgery cookie
  )

  datatype CorsSettings = CorsSettings(origin: string, credentials: bool, methods: seq<string>, allowedHeaders: seq<string>)

  datatype CsrfSettings = CsrfSettings(secret: string, ignoreMethods: seq<string>)

  datatype Config = Config(jwt: JwtSettings, cookies: CookieSettings, cors: CorsSettings, csrf: CsrfSettings)

  /** `process.env.X || fallback` for a string variable. */
  function Or(v: Option<string>, fallback: string): string {
    if v.Some? && v.value != "" then v.value else fallback
  }

  /** `process.env.X || fallback` for a lifetime label. */
  function SpanOr(v: Option<Span>, fallback: Span): Span {
    if v.Some? && v.value.written != "" then v.value else fallback
  }

  function NatOr(v: Option<nat>, fallback: nat): nat {
    if v.Some? then v.value else fallback
  }

  predicate IsProduction(env: Env) {
    env.nodeEnv == Some("production")
  }

  /** `isDevelopment`: every NODE_ENV other than exactly 'production', including an unset one. */
  predicate IsDevelopment(env: Env) {
    env.nodeEnv != Some("production")
  }

  const ThirtyDaysMs: nat := 30 * 24 * 60 * 60 * 1000
  const SevenDaysMs: nat := 604800000
  const OneDayMs: nat := 86400000

  /** The methods the anti-forgery check lets through unchecked. */
  const SafeMethods: seq<string> := ["GET", "HEAD", "OPTIONS"]

  /**
   * `securityConfig` for the environment `env`: both cookie option sets are
   * secure exactly in production and agree on sameSite, path and domain; only
   * the token cookies are httpOnly; development fixes the token lifetimes and
   * cookie ages whatever the overrides say, production reads them with the
   * documented defaults.
   */
  function Security(env: Env): (c: Config)
    ensures c.cookies.options.secure == c.cookies.csrfOptions.secure == !IsDevelopment(env)
    ensures c.cookies.options.httpOnly && !c.cookies.csrfOptions.httpOnly
    ensures c.cookies.options.sameSite == c.cookies.csrfOptions.sameSite
    ensures c.cookies.options.path == c.cookies.csrfOptions.path
    ensures c.cookies.options.domain == c.cookies.csrfOptions.domain
    ensures IsDevelopment(env) ==> c.cookies.options.domain.None?
    ensures IsDevelopment(env) ==>
      && c.jwt.accessTokenExpiresIn == OneHour && c.jwt.refreshTokenExpiresIn == ThirtyDays
      && c.cookies.options.maxAge == 2592000000 && c.cookies.csrfOptions.maxAge == 2592000000
    ensures !IsDevelopment(env) ==>
      && c.jwt.accessTokenExpiresIn == SpanOr(env.jwtAccessExpiresIn, FifteenMinutes)
      && c.jwt.refreshTokenExpiresIn == SpanOr(env.jwtRefreshExpiresIn, SevenDays)
      && c.cookies.options.maxAge == NatOr(env.cookieMaxAge, SevenDaysMs)
      && c.cookies.csrfOptions.maxAge == NatOr(env.cookieCsrfMaxAge, OneDayMs)
      && c.cookies.options.domain == env.domain
    ensures c.csrf.ignoreMethods == SafeMethods
  {
    var dev := IsDevelopment(env);
    var sameSite := Or(env.cookieSameSite, "lax");
    var path := Or(env.cookiePath, "/");
    var domain := if IsProduction(env) then env.domain else None;
    Config(
      JwtSettings(
        Or(env.jwtAccessSecret, "your-access-secret-key"),
        Or(env.jwtRefreshSecret, "your-refresh-secret-key"),
        if dev then OneHour else SpanOr(env.jwtAccessExpiresIn, FifteenMinutes),
        if dev then ThirtyDays else SpanOr(env.jwtRefreshExpiresIn, SevenDays)),
      CookieSettings(
        Or(env.cookieAccessTokenName, "accessToken"),
        Or(env.cookieRefreshTokenName, "refreshToken"),
        Or(env.cookieCsrfTokenName, "csrfToken"),
        CookieOptions(true, IsProduction(env), sameSite,
                      if dev then ThirtyDaysMs else NatOr(env.cookieMaxAge, SevenDaysMs), path, domain),
        CookieOptions(false, IsProduction(env), sameSite,
                      if dev then ThirtyDaysMs else NatOr(env.cookieCsrfMaxAge, OneDayMs), path, domain)),
      CorsSettings(
        Or(env.frontendUrl, "http://localhost:5173"),
        true,
        ["GET", "POST", "PUT", "DELETE", "OPTIONS"],
        ["Content-Type", "Authorization", "X-CSRF-Token"]),
      CsrfSettings(Or(env.csrfSecret, "your-csrf-secret-key"), SafeMethods))
  }

  /** With no overrides at all, the documented defaults apply. */
  lemma Defaults(env: Env)
    requires env.cookieAccessTokenName.None? && env.cookieRefreshTokenName.None? && env.cookieCsrfTokenName.None?
    requires env.cookieSameSite.None? && env.cookiePath.None?
    ensures Security(env).cookies.accessTokenName == "accessToken"
    ensures Security(env).cookies.refreshTokenName == "refreshToken"
    ensures Security(env).cookies.csrfTokenName == "csrfToken"
    ensures Security(env).cookies.options.sameSite == "lax" && Security(env).cookies.options.path == "/"
  {
  }

  /** An override set to the empty string is ignored, as `||` ignores falsy values. */
  lemma EmptyOverrideIgnored(env: Env)
    requires env.cookieSameSite == Some("")
    ensures Security(env).cookies.options.sameSite == "lax"
  {
  }

}
