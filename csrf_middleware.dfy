/**
 * The anti-forgery gate every GraphQL request passes before a resolver runs.
 * It is an ordered chain of tests: safe methods pass, then three exemptions
 * decided by plain substring tests on the body's query text, then the token
 * presented in the `x-csrf-token` header (or, failing that, the CSRF cookie) is
 * required and must verify against the configured secret. The configuration
 * the source reads from a module constant is a parameter here.
 */
module CsrfMiddleware {
  import opened Wrappers
  import opened Crypto
  import opened Errors
  import opened Text
  import opened SecurityConfig
  import opened Http

  /** What the middleware does with a request: call `next()`, or throw. */
  datatype Verdict = Next | Reject(error: Error)

  const TokenHeader := "x-csrf-token"
  const MissingToken := Unauthorized("CSRF token missing")
  const InvalidToken := Unauthorized("Invalid CSRF token")

  /** `req.body?.query?.includes(sub)`: false when there is no body or no query. */
  predicate QueryIncludes(req: Request, sub: string) {
    req.body.Some? && req.body.value.query.Some? && Contains(req.body.value.query.value, sub)
  }

  /** The three query-text exemptions, in the order they are tested: introspection, auth mutations, token fetch. */
  predicate ExemptQuery(req: Request) {
    || QueryIncludes(req, "IntrospectionQuery")
    || (QueryIncludes(req, "mutation") && (QueryIncludes(req, "register") || QueryIncludes(req, "login")))
    || QueryIncludes(req, "getCsrfToken")
  }

  /** Requests the gate lets through without looking at any token. */
  predicate Exempt(cfg: Config, req: Request) {
    req.verb in cfg.csrf.ignoreMethods || ExemptQuery(req)
  }

  /**
   * `req.headers['x-csrf-token'] || req.cookies[csrfTokenName]`: the header
   * when it is non-empty, otherwise whatever the cookie holds (maybe nothing).
   */
  function PresentedToken(cfg: Config, req: Request): (t: Option<Wire>)
    ensures Truthy(HeaderValue(req, TokenHeader)) ==> t == HeaderValue(req, TokenHeader)
    ensures !Truthy(HeaderValue(req, TokenHeader)) ==> t == CookieValue(req, cfg.cookies.csrfTokenName)
  {
    var header := HeaderValue(req, TokenHeader);
    if Truthy(header) then header else CookieValue(req, cfg.cookies.csrfTokenName)
  }

  /**
   * `CsrfMiddleware.use`. Exempt requests pass whatever token they carry; any
   * other request passes exactly when it presents a non-empty token that
   * verifies against the CSRF secret, is rejected as missing when it presents
   * none, and as invalid otherwise.
   */
  function Use(cfg: Config, req: Request): (v: Verdict)
    ensures Exempt(cfg, req) ==> v == Next
    ensures !Exempt(cfg, req) ==>
      (v == Next <==> Truthy(PresentedToken(cfg, req)) && CsrfVerify(cfg.csrf.secret, PresentedToken(cfg, req).value))
    ensures !Exempt(cfg, req) && !Truthy(PresentedToken(cfg, req)) ==> v == Reject(MissingToken)
    ensures !Exempt(cfg, req) && Truthy(PresentedToken(cfg, req)) && !CsrfVerify(cfg.csrf.secret, PresentedToken(cfg, req).value) ==>
      v == Reject(InvalidToken)
    ensures v == Next || v == Reject(MissingToken) || v == Reject(InvalidToken)
  {
    if req.verb in cfg.csrf.ignoreMethods then Next
    else if QueryIncludes(req, "IntrospectionQuery") then Next
    else if QueryIncludes(req, "mutation") && (QueryIncludes(req, "register") || QueryIncludes(req, "login")) then Next
    else if QueryIncludes(req, "getCsrfToken") then Next
    else
      var token := PresentedToken(cfg, req);
      if !Truthy(token) then Reject(MissingToken)
      else if !CsrfVerify(cfg.csrf.secret, token.value) then Reject(InvalidToken)
      else Next
  }

  /** `generateToken()`: a fresh token from the CSRF secret, which the gate's own check accepts. */
  function GenerateToken(cfg: Config, salt: nat): (t: Wire)
    ensures VerifyToken(cfg, t)
    ensures t != Text("")
  {
    CsrfCreate(cfg.csrf.secret, salt)
  }

  /** `verifyToken(token)`: the check the gate applies to a presented token. */
  predicate VerifyToken(cfg: Config, t: Wire) {
    CsrfVerify(cfg.csrf.secret, t)
  }

  /** Under the security configuration, GET, HEAD and OPTIONS pass with no token at all, and no other method is exempt by method. */
  lemma SafeMethodsPass(env: Env, req: Request)
    ensures req.verb in ["GET", "HEAD", "OPTIONS"] ==> Use(Security(env), req) == Next
    ensures Exempt(Security(env), req) <==> req.verb in ["GET", "HEAD", "OPTIONS"] || ExemptQuery(req)
  {
  }

  /** An exempt request gets the same verdict whatever headers and cookies it carries. */
  lemma ExemptionIgnoresTokens(cfg: Config, req: Request, headers: map<string, Wire>, cookies: map<string, Wire>)
    requires Exempt(cfg, req)
    ensures Use(cfg, req.(headers := headers, cookies := cookies)) == Next
  {
    assert Exempt(cfg, req.(headers := headers, cookies := cookies));
  }

  /** A request carrying a header token made from the CSRF secret passes, whatever its method, body or cookies. */
  lemma GeneratedHeaderTokenPasses(cfg: Config, req: Request, salt: nat)
    requires TokenHeader in req.headers && req.headers[TokenHeader] == GenerateToken(cfg, salt)
    ensures Use(cfg, req) == Next
  {
  }

  /**
   * A non-empty header token shadows the cookie: a forged header is rejected
   * even when the cookie holds a good token.
   */
  lemma HeaderShadowsCookie(cfg: Config, req: Request, salt: nat)
    requires !Exempt(cfg, req)
    requires TokenHeader in req.headers && req.headers[TokenHeader] == Text("forged")
    requires cfg.cookies.csrfTokenName in req.cookies && req.cookies[cfg.cookies.csrfTokenName] == GenerateToken(cfg, salt)
    ensures Use(cfg, req) == Reject(InvalidToken)
  {
    assert PresentedToken(cfg, req) == Some(Text("forged"));
  }

  /** An empty header falls back to the cookie. */
  lemma EmptyHeaderFallsBackToCookie(cfg: Config, req: Request, salt: nat)
    requires TokenHeader in req.headers && req.headers[TokenHeader] == Text("")
    requires cfg.cookies.csrfTokenName in req.cookies && req.cookies[cfg.cookies.csrfTokenName] == GenerateToken(cfg, salt)
    ensures Use(cfg, req) == Next
  {
    assert PresentedToken(cfg, req) == Some(GenerateToken(cfg, salt));
  }

  /**
   * The exemptions are substring tests: a state-changing mutation that merely
   * mentions "login" somewhere in its text (here in a trailing comment) passes
   * the gate with no token at all.
   */
  lemma SubstringExemptionAdmitsAnyMutation(cfg: Config)
    requires "POST" !in cfg.csrf.ignoreMethods
    ensures Use(cfg, Request("POST", Some(Body(Some("mutation { deletePost(id: 1) } # login"))), map[], None, map[])) == Next
  {
    var q := "mutation { deletePost(id: 1) } # login";
    assert q[0..8] == "mutation";
    ContainsAt(q, "mutation", 0);
    assert q[33..38] == "login";
    ContainsAt(q, "login", 33);
  }
}
