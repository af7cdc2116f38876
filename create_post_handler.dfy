/**
 * `CreatePostHandler.execute`: the author must exist; the requested tag ids
 * are resolved against the tag table, and ids with no tag are dropped
 * without an error; the post is stored with the given title and content.
 */
module CreatePostHandler {
  import opened Wrappers
  import opened Errors
  import opened Text
  import opened Store

  function AuthorNotFound(authorId: int): Error {
    NotFound("Author not found (id: " + IntToString(authorId) + ")")
  }

  /** The tags a new post is linked to: the existing tags among the requested ids, none when no id is given. */
  function ResolvedTags(tags: map<int, Tag>, tagIds: Option<seq<int>>): (r: set<int>)
    ensures r <= tags.Keys
    ensures forall k :: k in r <==> k in tags && tagIds.Some? && k in tagIds.value
  {
    if tagIds.Some? && |tagIds.value| > 0 then ExistingTagIds(tags, tagIds.value) else {}
  }

  /**
   * A missing author gives "Author not found" and nothing is saved.
   * Otherwise exactly one post is added, with the given title and content,
   * the found author and exactly the existing tags among `tagIds`.
   */
  method Execute(db: Db, title: string, content: string, authorId: int, tagIds: Option<seq<int>>) returns (r: Result<Post, Error>)
    requires db.Valid()
    modifies db
    ensures db.Valid()
    ensures r.Failure? <==> authorId !in old(db.users)
    ensures r.Failure? ==> r.error == AuthorNotFound(authorId) && db.posts == old(db.posts)
    ensures r.Success? ==>
      && r.value == Post(old(db.nextPostId), title, content, authorId, ResolvedTags(old(db.tags), tagIds))
      && r.value.id !in old(db.posts)
      && db.posts == old(db.posts)[r.value.id := r.value]
    ensures db.users == old(db.users) && db.profiles == old(db.profiles) && db.tags == old(db.tags)
  {
    var author := FindUser(db.users, authorId);
    if author.None? {
      return Failure(AuthorNotFound(authorId));
    }
    var tags: set<int> := {};
    if tagIds.Some? && |tagIds.value| > 0 {
      tags := ExistingTagIds(db.tags, tagIds.value);
    }
    r := db.InsertPost(title, content, author.value.id, tags);
  }

  /** An absent or empty id list gives a post with no tags, and unknown ids never add one. */
  lemma NoIdsNoTags(tags: map<int, Tag>, tagIds: Option<seq<int>>)
    requires tagIds.None? || tagIds.value == []
    ensures ResolvedTags(tags, tagIds) == {}
  {
  }

  /** Resolution ignores ids with no tag: adding unknown ids to the request changes nothing. */
  lemma UnknownIdsIgnored(tags: map<int, Tag>, ids: seq<int>, unknown: seq<int>)
    requires |ids| > 0
    requires forall i | 0 <= i < |unknown| :: unknown[i] !in tags
    ensures ResolvedTags(tags, Some(ids + unknown)) == ResolvedTags(tags, Some(ids))
  {
  }
}
