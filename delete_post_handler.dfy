/** `DeletePostHandler.execute`: validate both ids, find the post, check ownership, delete it. */
module DeletePostHandler {
  import opened Wrappers
  import opened Errors
  import opened Text
  import opened Store

  const InvalidPostId := BadRequest("Invalid post ID")
  const UserIdRequired := BadRequest("User ID is required")
  const NotOwner := Unauthorized("You are not the owner of this post")

  function NotFoundError(id: int): Error {
    NotFound("Post with ID " + IntToString(id) + " not found")
  }

  /** `!userId || userId <= 0`: the requester id is missing or not positive. */
  predicate BadUserId(userId: Option<int>) {
    userId.None? || userId.value <= 0
  }

  /**
   * The checks in their order: post id, requester id, existence, ownership.
   * Every refusal leaves the table unchanged. Otherwise exactly that post is
   * removed, with its tag links, and the answer is true.
   */
  method Execute(db: Db, id: int, userId: Option<int>) returns (r: Result<bool, Error>)
    requires db.Valid()
    modifies db
    ensures db.Valid()
    ensures id <= 0 ==> r == Failure(InvalidPostId)
    ensures id > 0 && BadUserId(userId) ==> r == Failure(UserIdRequired)
    ensures id > 0 && !BadUserId(userId) && id !in old(db.posts) ==> r == Failure(NotFoundError(id))
    ensures id > 0 && !BadUserId(userId) && id in old(db.posts) && old(db.posts)[id].authorId != userId.value ==>
      r == Failure(NotOwner)
    ensures r.Success? <==>
      id > 0 && !BadUserId(userId) && id in old(db.posts) && old(db.posts)[id].authorId == userId.value
    ensures r.Success? ==> r.value && db.posts == old(db.posts) - {id}
    ensures r.Failure? ==> db.posts == old(db.posts)
    ensures db.users == old(db.users) && db.profiles == old(db.profiles) && db.tags == old(db.tags)
  {
    if id <= 0 {
      return Failure(InvalidPostId);
    }
    if BadUserId(userId) {
      return Failure(UserIdRequired);
    }
    if id !in db.posts {
      return Failure(NotFoundError(id));
    }
    if db.posts[id].authorId != userId.value {
      return Failure(NotOwner);
    }
    var affected := db.DeletePost(id);
    r := Success(affected > 0);
  }
}
