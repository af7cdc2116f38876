/**
 * `LoginHandler.execute`: the credential check, then an access and a refresh
 * token for the authenticated user.
 */
module LoginHandler {
  import opened Wrappers
  import opened Crypto
  import opened Errors
  import opened SecurityConfig
  import opened Store
  import opened AuthService

  const InvalidCredentials := Failed("Invalid credentials")

  datatype LoginResult = LoginResult(accessToken: Wire, refreshToken: Wire, user: User)

  /**
   * A failed credential check gives "Invalid credentials" and no token;
   * otherwise the result pairs the access and the refresh token issued at
   * `now` for the user the check returned.
   */
  function Execute(cfg: Config, users: map<int, User>, email: string, password: string, now: int): (r: Result<LoginResult, Error>)
    requires UserTable(users)
    ensures r.Success? <==> Credentials(users, email, password)
    ensures r.Failure? ==> r.error == InvalidCredentials
    ensures r.Success? ==>
      && r.value.user.id in users && users[r.value.user.id] == r.value.user
      && r.value.user.email == email && Compare(password, r.value.user.password)
      && r.value.accessToken == IssueAccessToken(cfg, r.value.user, now)
      && r.value.refreshToken == IssueRefreshToken(cfg, r.value.user, now)
  {
    match ValidateUser(users, email, password)
    case None => Failure(InvalidCredentials)
    case Some(user) =>
      var accessToken := IssueAccessToken(cfg, user, now);
      var refreshToken := IssueRefreshToken(cfg, user, now);
      Success(LoginResult(accessToken, refreshToken, user))
  }

  /** An unknown email and a known email with the wrong password are answered identically. */
  lemma FailuresIndistinguishable(cfg: Config, users: map<int, User>, unknown: string, p1: string, known: string, p2: string, now: int)
    requires UserTable(users)
    requires !EmailTaken(users, unknown)
    requires forall k | k in users && users[k].email == known :: !Compare(p2, users[k].password)
    ensures Execute(cfg, users, unknown, p1, now) == Execute(cfg, users, known, p2, now) == Failure(InvalidCredentials)
  {
  }

  /** Both tokens of a login name the same user, and the access token verifies for it until it expires. */
  lemma LoginTokensNameTheUser(cfg: Config, users: map<int, User>, email: string, password: string, now: int, later: int)
    requires UserTable(users) && Credentials(users, email, password)
    requires now <= later < now + cfg.jwt.accessTokenExpiresIn.seconds
    ensures var r := Execute(cfg, users, email, password, now).value;
      && r.accessToken.payload.sub == r.refreshToken.payload.sub == r.user.id
      && VerifyAccessToken(cfg, r.accessToken, later) == Success(Payload(r.user.username, r.user.id, Access))
  {
  }
}
