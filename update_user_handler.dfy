/**
 * `UpdateUserHandler.execute`: the row is looked up by the command's
 * `userId` (its `id` is never read); a defined username is written as given,
 * a defined password is replaced by its bcrypt digest, the row is saved, and
 * then a defined bio is written to the user's profile, which is created when
 * missing.
 */
module UpdateUserHandler {
  import opened Wrappers
  import opened Crypto
  import opened Errors
  import opened Store
  import opened AuthService

  const UserMissing := Failed("User not found")

  datatype UpdateUserCommand = UpdateUserCommand(
    id: int, username: Option<string>, password: Option<string>, bio: Option<string>, userId: int)

  /** The row after the edit: no trimming, no validation; the password hashed as given. */
  function EditedUser(user: User, cmd: UpdateUserCommand, salt: nat): User {
    var u1 := if cmd.username.Some? then user.(username := cmd.username.value) else user;
    if cmd.password.Some? then u1.(password := HashPassword(cmd.password.value, salt)) else u1
  }

  /**
   * A `userId` with no row gives "User not found" and nothing changes. The
   * save can then fail only on the unique index, when another user holds the
   * new username; it changes nothing then either. Otherwise the row becomes
   * the edited user, the profile gets the stored bio when one is given and
   * stays untouched when none is, and the edited user is returned.
   */
  method Execute(db: Db, cmd: UpdateUserCommand, salt: nat) returns (r: Result<User, Error>)
    requires db.Valid()
    modifies db
    ensures db.Valid()
    ensures cmd.userId !in old(db.users) ==>
      r == Failure(UserMissing) && db.users == old(db.users) && db.profiles == old(db.profiles)
    ensures cmd.userId in old(db.users) ==>
      var edited := EditedUser(old(db.users)[cmd.userId], cmd, salt);
      && (r.Failure? <==> UsernameHeldByOther(old(db.users), edited.username, cmd.userId))
      && (r.Failure? ==> r.error == UniqueViolation("username") && db.users == old(db.users) && db.profiles == old(db.profiles))
      && (r.Success? ==>
            && r.value == edited
            && db.users == old(db.users)[cmd.userId := edited]
            && (cmd.bio.None? ==> db.profiles == old(db.profiles))
            && (cmd.bio.Some? ==> BioWritten(old(db.profiles), db.profiles, cmd.userId, StoredBio(cmd.bio.value))))
    ensures db.tags == old(db.tags) && db.posts == old(db.posts)
  {
    var found := FindUser(db.users, cmd.userId);
    if found.None? {
      return Failure(UserMissing);
    }
    var user := found.value;
    if cmd.username.Some? {
      user := user.(username := cmd.username.value);
    }
    if cmd.password.Some? {
      user := user.(password := HashPassword(cmd.password.value, salt));
    }
    var saved := db.SaveUser(user);
    if saved.Failure? {
      return Failure(saved.error);
    }
    if cmd.bio.Some? {
      UpsertBio(db, cmd.userId, StoredBio(cmd.bio.value));
    }
    r := Success(user);
  }

  /**
   * What the edit does to each field: the id and email never change, a given
   * username is stored verbatim (even an empty one), and a given password is
   * replaced by a digest that matches that password and, up to
   * bcrypt's 72-byte key, no other.
   */
  lemma EditedUserFields(user: User, cmd: UpdateUserCommand, salt: nat)
    ensures EditedUser(user, cmd, salt).id == user.id && EditedUser(user, cmd, salt).email == user.email
    ensures EditedUser(user, cmd, salt).username == if cmd.username.Some? then cmd.username.value else user.username
    ensures cmd.password.None? ==> EditedUser(user, cmd, salt).password == user.password
    ensures cmd.password.Some? ==>
      var d, pw := EditedUser(user, cmd, salt).password, cmd.password.value;
      && Compare(pw, d)
      && forall p | p != pw && |Utf8(p)| <= BcryptMaxKeyBytes && |Utf8(pw)| <= BcryptMaxKeyBytes :: !Compare(p, d)
  {
  }

  /** Unlike the profile edit, this handler does not trim: a padded password is hashed with its padding. */
  lemma PasswordNotTrimmed(user: User, salt: nat)
    ensures var cmd := UpdateUserCommand(0, None, Some(" Secret1 "), None, user.id);
      !Compare("Secret1", EditedUser(user, cmd, salt).password)
  {
  }
}
