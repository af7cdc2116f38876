/** `DeleteUserHandler.execute`: find the user, allow only deleting oneself, delete the row. */
module DeleteUserHandler {
  import opened Wrappers
  import opened Errors
  import opened Store
  import RegisterHandler

  const UserMissing := Failed("User not found")
  const NotOwnAccount := Failed("You can only delete your own account")

  /**
   * A missing user gives "User not found", and a requester other than the
   * user (including none at all) gives "You can only delete your own
   * account". The delete itself is refused by the foreign keys while a
   * profile or a post refers to the user. Every refusal changes nothing;
   * otherwise exactly that user row is removed and the answer is true.
   */
  method Execute(db: Db, id: int, userId: Option<int>) returns (r: Result<bool, Error>)
    requires db.Valid()
    modifies db
    ensures db.Valid()
    ensures id !in old(db.users) ==> r == Failure(UserMissing)
    ensures id in old(db.users) && userId != Some(id) ==> r == Failure(NotOwnAccount)
    ensures id in old(db.users) && userId == Some(id) ==>
      && (r.Failure? <==> HasProfile(old(db.profiles), id) || AuthorsPost(old(db.posts), id))
      && (r.Failure? ==> r.error == ForeignKeyViolation(if HasProfile(old(db.profiles), id) then "user_profiles" else "posts"))
    ensures r.Success? ==> r.value && db.users == old(db.users) - {id}
    ensures r.Failure? ==> db.users == old(db.users)
    ensures db.profiles == old(db.profiles) && db.tags == old(db.tags) && db.posts == old(db.posts)
  {
    var found := FindUser(db.users, id);
    if found.None? {
      return Failure(UserMissing);
    }
    if Some(found.value.id) != userId {
      return Failure(NotOwnAccount);
    }
    var deleted := db.DeleteUser(id);
    if deleted.Failure? {
      return Failure(deleted.error);
    }
    r := Success(deleted.value != 0);
  }

  /**
   * Registration gives every user a profile, and the profile's foreign key
   * blocks the delete: a user the register handler has just created cannot
   * be deleted, even by itself, and stays in the table.
   */
  method RegisterThenDelete(db: Db, username: string, email: string, password: string, salt: nat)
    returns (registered: Result<User, Error>, deleted: Result<bool, Error>)
    requires db.Valid()
    modifies db
    ensures db.Valid()
    ensures registered.Success? ==>
      && deleted == Failure(ForeignKeyViolation("user_profiles"))
      && registered.value.id in db.users
      && db.users == old(db.users)[registered.value.id := registered.value]
    ensures registered.Failure? ==> db.users == old(db.users) && db.profiles == old(db.profiles)
  {
    registered := RegisterHandler.Execute(db, username, email, password, salt);
    if registered.Failure? {
      return registered, Failure(UserMissing);
    }
    var id := registered.value.id;
    assert db.profiles[old(db.nextProfileId)].userId == id;
    deleted := Execute(db, id, Some(id));
  }
}
