/** `DeleteTagHandler.execute`: find the tag, refuse it while any post uses it, otherwise delete it. */
module DeleteTagHandler {
  import opened Wrappers
  import opened Errors
  import opened Text
  import opened Store

  function NotFoundError(id: int): Error {
    BadRequest("Tag with ID " + IntToString(id) + " not found")
  }

  function InUseError(name: string, count: nat): Error {
    BadRequest("Cannot delete tag '" + name + "' because it is used by " + NatToString(count)
               + " post(s). Please remove it from all posts first.")
  }

  /**
   * A missing tag gives "not found"; a tag linked to one or more posts is
   * refused with the number of those posts; in both cases nothing changes.
   * Otherwise exactly that tag is removed and the answer is true (one row
   * affected).
   */
  method Execute(db: Db, id: int) returns (r: Result<bool, Error>)
    requires db.Valid()
    modifies db
    ensures db.Valid()
    ensures id !in old(db.tags) ==> r == Failure(NotFoundError(id))
    ensures id in old(db.tags) && PostsUsing(old(db.posts), id) != {} ==>
      r == Failure(InUseError(old(db.tags)[id].name, |PostsUsing(old(db.posts), id)|))
    ensures r.Success? <==> id in old(db.tags) && PostsUsing(old(db.posts), id) == {}
    ensures r.Success? ==> r.value && db.tags == old(db.tags) - {id}
    ensures r.Failure? ==> db.tags == old(db.tags)
    ensures db.users == old(db.users) && db.profiles == old(db.profiles) && db.posts == old(db.posts)
  {
    if id !in db.tags {
      return Failure(NotFoundError(id));
    }
    var tag := db.tags[id];
    var usedBy := PostsUsing(db.posts, id);
    if |usedBy| > 0 {
      return Failure(InUseError(tag.name, |usedBy|));
    }
    var deleted := db.DeleteTag(id);
    r := Success(deleted.value > 0);
  }

  /** Deleting a tag never leaves a post pointing at a missing tag: every remaining link is to a remaining tag. */
  lemma NoDanglingLinks(posts: map<int, Post>, tags: map<int, Tag>, id: int)
    requires forall k | k in posts :: posts[k].tagIds <= tags.Keys
    requires PostsUsing(posts, id) == {}
    ensures forall k | k in posts :: posts[k].tagIds <= (tags - {id}).Keys
  {
    forall k | k in posts
      ensures posts[k].tagIds <= (tags - {id}).Keys
    {
      assert k !in PostsUsing(posts, id);
    }
  }
}
