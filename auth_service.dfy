/**
 * `AuthService`: credential checks, issuing and verifying the two kinds of
 * session token, rotating the access token from a refresh token, and the
 * profile edit. Each token kind has its own secret and lifetime from the
 * security configuration; the token's `type` claim is checked separately from
 * its signature. The configuration, the clock (`now`, in seconds) and bcrypt's
 * random salt are parameters.
 */
module AuthService {
  import opened Wrappers
  import opened Crypto
  import opened Errors
  import opened Text
  import opened SecurityConfig
  import opened Store

  const InvalidAccessToken := Unauthorized("Invalid access token")
  const InvalidRefreshToken := Unauthorized("Invalid refresh token")
  const UserNotFound := BadRequest("User not found")

  /** The claims put in a token of kind `typ` for `user`. */
  function PayloadFor(user: User, typ: TokenType): Payload {
    Payload(user.username, user.id, typ)
  }

  /** There is a user with exactly this email whose digest matches the password. */
  predicate Credentials(users: map<int, User>, email: string, password: string) {
    exists k | k in users :: users[k].email == email && Compare(password, users[k].password)
  }

  /**
   * `validateUser(email, password)`: the user with that email when the
   * password matches its digest, otherwise nothing (an unknown email and a
   * wrong password give the same answer).
   */
  function ValidateUser(users: map<int, User>, email: string, password: string): (r: Option<User>)
    requires UserTable(users)
    ensures r.Some? <==> Credentials(users, email, password)
    ensures r.Some? ==> r.value.id in users && users[r.value.id] == r.value && r.value.email == email
    ensures r.Some? ==> Compare(password, r.value.password)
  {
    match FindUserByEmail(users, email)
    case None => None
    case Some(user) => if Compare(password, user.password) then Some(user) else None
  }

  /**
   * `hashPassword(password)`: a bcrypt digest with cost 10 that matches
   * `password`, and no other password when both encode to at most 72 bytes.
   */
  function HashPassword(password: string, salt: nat): (d: Digest)
    ensures d.Bcrypt? && d.rounds == SaltRounds
    ensures Compare(password, d)
    ensures forall p | p != password && |Utf8(p)| <= BcryptMaxKeyBytes && |Utf8(password)| <= BcryptMaxKeyBytes ::
      !Compare(p, d)
  {
    HashMatchesOnlyItsKey(password, salt);
    Hash(password, salt)
  }

  /** `issueAccessToken(user)`: the user's claims typed 'access', signed with the access secret for the access lifetime. */
  function IssueAccessToken(cfg: Config, user: User, now: int): (t: Wire)
    ensures t.Jwt? && t.payload == Payload(user.username, user.id, Access)
    ensures t.secret == cfg.jwt.accessTokenSecret && t.iat == now && t.exp == now + cfg.jwt.accessTokenExpiresIn.seconds
  {
    JwtSign(PayloadFor(user, Access), cfg.jwt.accessTokenSecret, cfg.jwt.accessTokenExpiresIn.seconds, now)
  }

  /** `issueRefreshToken(user)`: the same claims typed 'refresh', signed with the refresh secret for the refresh lifetime. */
  function IssueRefreshToken(cfg: Config, user: User, now: int): (t: Wire)
    ensures t.Jwt? && t.payload == Payload(user.username, user.id, Refresh)
    ensures t.secret == cfg.jwt.refreshTokenSecret && t.iat == now && t.exp == now + cfg.jwt.refreshTokenExpiresIn.seconds
  {
    JwtSign(PayloadFor(user, Refresh), cfg.jwt.refreshTokenSecret, cfg.jwt.refreshTokenExpiresIn.seconds, now)
  }

  /** `issueJwt(user)`, kept for older callers: an access token. */
  function IssueJwt(cfg: Config, user: User, now: int): (t: Wire)
    ensures t.Jwt? && t.payload == Payload(user.username, user.id, Access)
    ensures t.secret == cfg.jwt.accessTokenSecret && t.iat == now && t.exp == now + cfg.jwt.accessTokenExpiresIn.seconds
  {
    IssueAccessToken(cfg, user, now)
  }

  /**
   * `verifyAccessToken(token)`: the payload when the token verifies under
   * the access secret before it expires and is typed 'access'; every other
   * case fails with the one error "Invalid access token".
   */
  function VerifyAccessToken(cfg: Config, token: Wire, now: int): (r: Result<Payload, Error>)
    ensures r.Success? <==>
      token.Jwt? && token.secret == cfg.jwt.accessTokenSecret && now < token.exp && token.payload.typ == Access
    ensures r.Success? ==> r.value == token.payload
    ensures r.Failure? ==> r.error == InvalidAccessToken
  {
    match JwtVerify(token, cfg.jwt.accessTokenSecret, now)
    case None => Failure(InvalidAccessToken)
    case Some(payload) => if payload.typ != Access then Failure(InvalidAccessToken) else Success(payload)
  }

  /**
   * `refreshAccessToken(refreshToken)`: a new access token, issued at `now`
   * for the stored user the token names, when the token verifies under the
   * refresh secret before it expires, is typed 'refresh' and that user still
   * exists. Every failure becomes the one error "Invalid refresh token".
   */
  function RefreshAccessToken(cfg: Config, users: map<int, User>, token: Wire, now: int): (r: Result<Wire, Error>)
    ensures r.Success? <==>
      && token.Jwt? && token.secret == cfg.jwt.refreshTokenSecret && now < token.exp
      && token.payload.typ == Refresh && token.payload.sub in users
    ensures r.Success? ==> r.value == IssueAccessToken(cfg, users[token.payload.sub], now)
    ensures r.Failure? ==> r.error == InvalidRefreshToken
  {
    match JwtVerify(token, cfg.jwt.refreshTokenSecret, now)
    case None => Failure(InvalidRefreshToken)
    case Some(payload) =>
      if payload.typ != Refresh then Failure(InvalidRefreshToken)
      else match FindUser(users, payload.sub)
        case None => Failure(InvalidRefreshToken)
        case Some(user) => Success(IssueAccessToken(cfg, user, now))
  }

  /** A user together with its profile row, as loaded with `relations: ['profile']`. */
  datatype UserWithProfile = UserWithProfile(user: User, profile: Option<Profile>)

  /** `getUserWithProfile(userId)`: the stored user and its profile, or "User not found". */
  function GetUserWithProfile(users: map<int, User>, profiles: map<int, Profile>, userId: int): (r: Result<UserWithProfile, Error>)
    requires ProfileTable(profiles)
    ensures r.Success? <==> userId in users
    ensures r.Success? ==> r.value.user == users[userId]
    ensures r.Success? ==> (r.value.profile.Some? <==> HasProfile(profiles, userId))
    ensures r.Success? && r.value.profile.Some? ==>
      r.value.profile.value.userId == userId && r.value.profile.value.id in profiles
      && profiles[r.value.profile.value.id] == r.value.profile.value
    ensures r.Failure? ==> r.error == UserNotFound
  {
    match FindUser(users, userId)
    case None => Failure(UserNotFound)
    case Some(user) => Success(UserWithProfile(user, ProfileOf(profiles, userId)))
  }

  // ----- access and refresh tokens together -----

  /** Before it expires, the access token issued for a user verifies and names that user. */
  lemma AccessRoundTrip(cfg: Config, user: User, now: int, later: int)
    requires now <= later < now + cfg.jwt.accessTokenExpiresIn.seconds
    ensures VerifyAccessToken(cfg, IssueAccessToken(cfg, user, now), later) == Success(PayloadFor(user, Access))
    ensures VerifyAccessToken(cfg, IssueAccessToken(cfg, user, now), later).value.sub == user.id
  {
  }

  /** Once its lifetime has elapsed, an access token fails like any other bad token. */
  lemma AccessExpires(cfg: Config, user: User, now: int, later: int)
    requires now + cfg.jwt.accessTokenExpiresIn.seconds <= later
    ensures VerifyAccessToken(cfg, IssueAccessToken(cfg, user, now), later) == Failure(InvalidAccessToken)
  {
  }

  /** A refresh token is never accepted as an access token, even when both kinds share a secret. */
  lemma RefreshIsNotAccess(cfg: Config, user: User, now: int, later: int)
    ensures VerifyAccessToken(cfg, IssueRefreshToken(cfg, user, now), later) == Failure(InvalidAccessToken)
  {
  }

  /** An access token can never be used to rotate, even when both kinds share a secret. */
  lemma AccessIsNotRefresh(cfg: Config, users: map<int, User>, user: User, now: int, later: int)
    ensures RefreshAccessToken(cfg, users, IssueAccessToken(cfg, user, now), later) == Failure(InvalidRefreshToken)
  {
  }

  /**
   * Rotation: a live refresh token for a stored user yields an access token
   * that verifies and names the same user id, with the username as stored now.
   */
  lemma RefreshThenVerify(cfg: Config, users: map<int, User>, user: User, issued: int, now: int, later: int)
    requires UserTable(users) && user.id in users
    requires issued <= now < issued + cfg.jwt.refreshTokenExpiresIn.seconds
    requires now <= later < now + cfg.jwt.accessTokenExpiresIn.seconds
    ensures RefreshAccessToken(cfg, users, IssueRefreshToken(cfg, user, issued), now).Success?
    ensures VerifyAccessToken(cfg, RefreshAccessToken(cfg, users, IssueRefreshToken(cfg, user, issued), now).value, later)
            == Success(Payload(users[user.id].username, user.id, Access))
  {
  }

  /** A refresh token whose user has since been deleted is refused. */
  lemma RefreshForMissingUser(cfg: Config, users: map<int, User>, user: User, issued: int, now: int)
    requires user.id !in users
    ensures RefreshAccessToken(cfg, users, IssueRefreshToken(cfg, user, issued), now) == Failure(InvalidRefreshToken)
  {
  }

  // ----- updateProfile -----

  /** The optional fields of the profile form (`UpdateProfileInput`). */
  datatype ProfileInput = ProfileInput(
    username: Option<string>, email: Option<string>, password: Option<string>, bio: Option<string>)

  /** `input.x && input.x.trim()`: present and not blank. */
  predicate NonBlank(v: Option<string>) {
    v.Some? && Trim(v.value) != []
  }

  /**
   * `input.bio || undefined`: an empty bio becomes an undefined one, which
   * the following save leaves out, so it never clears a bio already stored.
   */
  function StoredBio(bio: string): (r: Option<string>)
    ensures r.None? <==> bio == []
    ensures r.Some? ==> r.value == bio
  {
    if bio == [] then None else Some(bio)
  }

  /**
   * The duplicate-username lookup `findOne({ where: { username, id: userId } })`
   * followed by the test `existingUser.id !== userId`: it reports a conflict
   * when the row it finds has a different id.
   */
  predicate UsernameConflict(users: map<int, User>, username: string, userId: int)
    requires UserTable(users)
  {
    userId in users && users[userId].username == username && users[userId].id != userId
  }

  /** The same lookup and test for the email. */
  predicate EmailConflict(users: map<int, User>, email: string, userId: int)
    requires UserTable(users)
  {
    userId in users && users[userId].email == email && users[userId].id != userId
  }

  /**
   * Both lookups also constrain `id = userId`, so any row they find is the
   * user itself and the "already exists" errors can never be raised.
   */
  lemma DuplicateChecksNeverFire(users: map<int, User>, value: string, userId: int)
    requires UserTable(users)
    ensures !UsernameConflict(users, value, userId) && !EmailConflict(users, value, userId)
  {
  }

  /** The user row after the edit: each non-blank field trimmed in, the trimmed password hashed. */
  function EditedUser(user: User, input: ProfileInput, salt: nat): User {
    var u1 := if NonBlank(input.username) then user.(username := Trim(input.username.value)) else user;
    var u2 := if NonBlank(input.email) then u1.(email := Trim(input.email.value)) else u1;
    if NonBlank(input.password) then u2.(password := HashPassword(Trim(input.password.value), salt)) else u2
  }

  /** What the edit does to each field: only non-blank fields change, they are stored trimmed, and the id never changes. */
  lemma EditedUserFields(user: User, input: ProfileInput, salt: nat)
    ensures EditedUser(user, input, salt).id == user.id
    ensures EditedUser(user, input, salt).username == if NonBlank(input.username) then Trim(input.username.value) else user.username
    ensures EditedUser(user, input, salt).email == if NonBlank(input.email) then Trim(input.email.value) else user.email
    ensures !NonBlank(input.password) ==> EditedUser(user, input, salt).password == user.password
    ensures NonBlank(input.password) ==>
      var d, pw := EditedUser(user, input, salt).password, Trim(input.password.value);
      && Compare(pw, d)
      && forall p | p != pw && |Utf8(p)| <= BcryptMaxKeyBytes && |Utf8(pw)| <= BcryptMaxKeyBytes :: !Compare(p, d)
  {
  }

  /** A blank or whitespace-only field leaves the row as it was. */
  lemma BlankFieldsChangeNothing(user: User, input: ProfileInput, salt: nat)
    requires input.username.Some? && AllWhitespace(input.username.value)
    requires input.email.None? && input.password.None?
    ensures EditedUser(user, input, salt) == user
  {
    TrimEmptyIffAllWhitespace(input.username.value);
  }

  /**
   * `updateProfile(userId, input)`. A missing user gives "User not found" and
   * changes nothing. Otherwise the edited user row is saved, which fails only
   * by a unique-index violation on a username or email held by another user
   * (the handler's own duplicate checks never fire); then, when a bio is given,
   * the user's profile gets the stored bio, created if there was none. The
   * result is the reloaded user with its profile.
   */
  method UpdateProfile(db: Db, userId: int, input: ProfileInput, salt: nat) returns (r: Result<UserWithProfile, Error>)
    requires db.Valid()
    modifies db
    ensures db.Valid()
    ensures userId !in old(db.users) ==> r == Failure(UserNotFound) && db.users == old(db.users) && db.profiles == old(db.profiles)
    ensures userId in old(db.users) ==>
      var edited := EditedUser(old(db.users)[userId], input, salt);
      && (r.Failure? <==>
            UsernameHeldByOther(old(db.users), edited.username, userId) || EmailHeldByOther(old(db.users), edited.email, userId))
      && (r.Failure? ==>
            && r.error == UniqueViolation(if UsernameHeldByOther(old(db.users), edited.username, userId) then "username" else "email")
            && db.users == old(db.users) && db.profiles == old(db.profiles))
      && (r.Success? ==>
            && db.users == old(db.users)[userId := edited]
            && r.value == UserWithProfile(edited, ProfileOf(db.profiles, userId))
            && (input.bio.None? ==> db.profiles == old(db.profiles))
            && (input.bio.Some? ==> BioWritten(old(db.profiles), db.profiles, userId, StoredBio(input.bio.value))))
    ensures db.tags == old(db.tags) && db.posts == old(db.posts)
  {
    var found := FindUser(db.users, userId);
    if found.None? {
      return Failure(UserNotFound);
    }
    var user := found.value;
    if NonBlank(input.username) {
      DuplicateChecksNeverFire(db.users, Trim(input.username.value), userId);
      user := user.(username := Trim(input.username.value));
    }
    if NonBlank(input.email) {
      DuplicateChecksNeverFire(db.users, Trim(input.email.value), userId);
      user := user.(email := Trim(input.email.value));
    }
    if NonBlank(input.password) {
      user := user.(password := HashPassword(Trim(input.password.value), salt));
    }
    assert user == EditedUser(old(db.users)[userId], input, salt);
    var saved := db.SaveUser(user);
    if saved.Failure? {
      return Failure(saved.error);
    }
    if input.bio.Some? {
      UpsertBio(db, userId, StoredBio(input.bio.value));
    }
    r := Success(UserWithProfile(user, ProfileOf(db.profiles, userId)));
  }
}
