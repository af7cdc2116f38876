/**
 * The passport strategy behind `GqlAuthGuard`. The token is taken from the
 * access-token cookie when that is non-empty, otherwise from an
 * `Authorization: Bearer …` header; it must verify under the access secret
 * before it expires; `validate` then accepts only 'access'-typed payloads
 * whose `sub` names a stored user. Any failure makes the guard answer
 * "Unauthorized".
 */
module JwtStrategy {
  import opened Wrappers
  import opened Crypto
  import opened Errors
  import opened Text
  import opened SecurityConfig
  import opened Http
  import opened Store
  import AuthService

  const Rejected := Unauthorized("Unauthorized")

  /**
   * `ExtractJwt.fromAuthHeaderAsBearerToken()`: the credentials of the
   * Authorization header when its scheme is "bearer" in any letter case.
   */
  function BearerToken(req: Request): (t: Option<Wire>)
    ensures t.Some? <==> req.authorization.Some? && LowerAscii(req.authorization.value.scheme) == "bearer"
    ensures t.Some? ==> t.value == req.authorization.value.credentials
  {
    match req.authorization
    case None => None
    case Some(auth) => if LowerAscii(auth.scheme) == "bearer" then Some(auth.credentials) else None
  }

  /** `jwtFromRequest`: the access-token cookie when it is non-empty, otherwise the bearer token. */
  function ExtractToken(cfg: Config, req: Request): (t: Option<Wire>)
    ensures Truthy(CookieValue(req, cfg.cookies.accessTokenName)) ==> t == CookieValue(req, cfg.cookies.accessTokenName)
    ensures !Truthy(CookieValue(req, cfg.cookies.accessTokenName)) ==> t == BearerToken(req)
  {
    var cookie := CookieValue(req, cfg.cookies.accessTokenName);
    if Truthy(cookie) then cookie else BearerToken(req)
  }

  /** `validate(payload)`: the user named by `sub` when the payload is 'access'-typed, otherwise nothing. */
  function Validate(users: map<int, User>, payload: Payload): (r: Option<User>)
    ensures r.Some? <==> payload.typ == Access && payload.sub in users
    ensures r.Some? ==> r.value == users[payload.sub]
  {
    if payload.typ != Access then None else FindUser(users, payload.sub)
  }

  /**
   * The whole guard at time `now`: extraction, verification under the access
   * secret with expiry enforced (`ignoreExpiration: false`), then `validate`.
   */
  function Authenticate(cfg: Config, users: map<int, User>, req: Request, now: int): (r: Result<User, Error>)
    ensures r.Success? <==>
      var t := ExtractToken(cfg, req);
      && Truthy(t) && t.value.Jwt? && t.value.secret == cfg.jwt.accessTokenSecret && now < t.value.exp
      && t.value.payload.typ == Access && t.value.payload.sub in users
    ensures r.Success? ==> r.value == users[ExtractToken(cfg, req).value.payload.sub]
    ensures r.Failure? ==> r.error == Rejected
  {
    var token := ExtractToken(cfg, req);
    if !Truthy(token) then Failure(Rejected)
    else match JwtVerify(token.value, cfg.jwt.accessTokenSecret, now)
      case None => Failure(Rejected)
      case Some(payload) =>
        match Validate(users, payload)
        case None => Failure(Rejected)
        case Some(user) => Success(user)
  }

  /** The guard accepts exactly the tokens the service's own access check accepts, provided their user still exists. */
  lemma AgreesWithVerifyAccessToken(cfg: Config, users: map<int, User>, req: Request, now: int)
    ensures Authenticate(cfg, users, req, now).Success? <==>
      && Truthy(ExtractToken(cfg, req))
      && AuthService.VerifyAccessToken(cfg, ExtractToken(cfg, req).value, now).Success?
      && AuthService.VerifyAccessToken(cfg, ExtractToken(cfg, req).value, now).value.sub in users
  {
  }

  /** A refresh token never yields a principal, whether sent as the cookie or as a bearer header. */
  lemma RefreshTokenRejected(cfg: Config, users: map<int, User>, req: Request, user: User, issued: int, now: int)
    requires ExtractToken(cfg, req) == Some(AuthService.IssueRefreshToken(cfg, user, issued))
    ensures Authenticate(cfg, users, req, now) == Failure(Rejected)
  {
  }

  /** A non-empty access cookie is used even when a valid bearer header is also present: a stale cookie locks the header out. */
  lemma CookieShadowsBearer(cfg: Config, users: map<int, User>, req: Request, user: User, issued: int, now: int)
    requires cfg.cookies.accessTokenName in req.cookies && req.cookies[cfg.cookies.accessTokenName] == Text("stale")
    requires req.authorization == Some(Authorization("Bearer", AuthService.IssueAccessToken(cfg, user, issued)))
    ensures Authenticate(cfg, users, req, now) == Failure(Rejected)
  {
    assert ExtractToken(cfg, req) == Some(Text("stale"));
  }

  /** With no cookie, a live access token in a bearer header of any letter case authenticates its user. */
  lemma BearerAuthenticates(cfg: Config, users: map<int, User>, req: Request, user: User, issued: int, now: int)
    requires UserTable(users) && user.id in users
    requires cfg.cookies.accessTokenName !in req.cookies
    requires req.authorization == Some(Authorization("bEaReR", AuthService.IssueAccessToken(cfg, user, issued)))
    requires issued <= now < issued + cfg.jwt.accessTokenExpiresIn.seconds
    ensures Authenticate(cfg, users, req, now) == Success(users[user.id])
  {
    assert LowerAscii("bEaReR") == "bearer";
  }
}
