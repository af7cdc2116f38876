/**
 * `RegisterHandler.execute`: refuse a taken username, then a taken email;
 * otherwise store the user with a bcrypt digest of the password and give it
 * an empty profile.
 */
module RegisterHandler {
  import opened Wrappers
  import opened Crypto
  import opened Errors
  import opened Store
  import opened AuthService

  const UsernameExists := BadRequest("Username already exists")
  const EmailExists := BadRequest("Email already exists")

  /**
   * Both uniqueness checks precede every write, so a refusal changes
   * nothing; the username check runs first and wins when both fail. On
   * success exactly one user (with the hashed password, never the plaintext)
   * and exactly one profile for it, with no bio, are added, and the user is
   * returned.
   */
  method Execute(db: Db, username: string, email: string, password: string, salt: nat) returns (r: Result<User, Error>)
    requires db.Valid()
    modifies db
    ensures db.Valid()
    ensures r.Failure? <==> UsernameTaken(old(db.users), username) || EmailTaken(old(db.users), email)
    ensures r.Failure? ==>
      && r.error == (if UsernameTaken(old(db.users), username) then UsernameExists else EmailExists)
      && db.users == old(db.users) && db.profiles == old(db.profiles)
    ensures r.Success? ==>
      && r.value == User(old(db.nextUserId), username, email, HashPassword(password, salt))
      && r.value.id !in old(db.users)
      && db.users == old(db.users)[r.value.id := r.value]
      && old(db.nextProfileId) !in old(db.profiles)
      && db.profiles == old(db.profiles)[old(db.nextProfileId) := Profile(old(db.nextProfileId), r.value.id, None)]
    ensures db.tags == old(db.tags) && db.posts == old(db.posts)
  {
    if UsernameTaken(db.users, username) {
      return Failure(UsernameExists);
    }
    if EmailTaken(db.users, email) {
      return Failure(EmailExists);
    }
    var hashed := HashPassword(password, salt);
    var inserted := db.InsertUser(username, email, hashed);
    var user := inserted.value;
    var profile := db.InsertProfile(user.id, None);
    assert profile.Success? by {
      assert !HasProfile(old(db.profiles), user.id);
    }
    r := Success(user);
  }

  /**
   * The table a successful registration leaves behind lets the new user log
   * in with exactly the passwords whose bcrypt key (first 72 UTF-8 bytes)
   * is that of the registered password: the registered password itself, and
   * no other one when both encode to at most 72 bytes.
   */
  lemma RegisteredUserCanLogIn(users: map<int, User>, user: User, password: string, other: string, salt: nat)
    requires UserTable(users) && user.id in users
    requires users[user.id] == user && user.password == HashPassword(password, salt)
    ensures ValidateUser(users, user.email, password) == Some(user)
    ensures ValidateUser(users, user.email, other) == if BcryptKey(other) == BcryptKey(password) then Some(user) else None
    ensures other != password && |Utf8(other)| <= BcryptMaxKeyBytes && |Utf8(password)| <= BcryptMaxKeyBytes ==>
      ValidateUser(users, user.email, other).None?
  {
    assert EmailTaken(users, user.email);
    var found := FindUserByEmail(users, user.email);
    assert found.value.id == user.id;
  }
}
