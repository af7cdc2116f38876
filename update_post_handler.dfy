/**
 * `UpdatePostHandler.execute`: the post must exist and belong to the
 * requester; given fields are overwritten; the tag links are replaced only
 * when a non-empty id list is given.
 */
module UpdatePostHandler {
  import opened Wrappers
  import opened Errors
  import opened Text
  import opened Store
  import CreatePostHandler

  const NotOwner := Unauthorized("You can only update your own posts")

  function PostNotFound(id: int): Error {
    NotFound("Post not found (id: " + IntToString(id) + ")")
  }

  /** The post after the edit: title and content replaced when given, tags replaced when a non-empty list is given. */
  function EditedPost(post: Post, tags: map<int, Tag>, title: Option<string>, content: Option<string>, tagIds: Option<seq<int>>): Post {
    var p1 := if title.Some? then post.(title := title.value) else post;
    var p2 := if content.Some? then p1.(content := content.value) else p1;
    if tagIds.Some? && |tagIds.value| > 0 then p2.(tagIds := ExistingTagIds(tags, tagIds.value)) else p2
  }

  /**
   * A missing post gives "Post not found"; a post of another author gives
   * "You can only update your own posts"; in both cases nothing changes.
   * Otherwise only that post changes, to the edited post, which is returned.
   */
  method Execute(db: Db, id: int, title: Option<string>, content: Option<string>, authorId: int, tagIds: Option<seq<int>>)
    returns (r: Result<Post, Error>)
    requires db.Valid()
    modifies db
    ensures db.Valid()
    ensures id !in old(db.posts) ==> r == Failure(PostNotFound(id))
    ensures id in old(db.posts) && old(db.posts)[id].authorId != authorId ==> r == Failure(NotOwner)
    ensures r.Success? <==> id in old(db.posts) && old(db.posts)[id].authorId == authorId
    ensures r.Success? ==>
      && r.value == EditedPost(old(db.posts)[id], old(db.tags), title, content, tagIds)
      && db.posts == old(db.posts)[id := r.value]
    ensures r.Failure? ==> db.posts == old(db.posts)
    ensures db.users == old(db.users) && db.profiles == old(db.profiles) && db.tags == old(db.tags)
  {
    if id !in db.posts {
      return Failure(PostNotFound(id));
    }
    var post := db.posts[id];
    if post.authorId != authorId {
      return Failure(NotOwner);
    }
    if title.Some? {
      post := post.(title := title.value);
    }
    if content.Some? {
      post := post.(content := content.value);
    }
    if tagIds.Some? && |tagIds.value| > 0 {
      post := post.(tagIds := ExistingTagIds(db.tags, tagIds.value));
    }
    r := db.SavePost(post);
  }

  /**
   * The edit never changes the id or the author; given fields are
   * overwritten, absent ones kept; tags are kept unless a non-empty list is
   * given, and then become exactly the existing tags it names, as on
   * creation.
   */
  lemma EditedPostFields(post: Post, tags: map<int, Tag>, title: Option<string>, content: Option<string>, tagIds: Option<seq<int>>)
    ensures var e := EditedPost(post, tags, title, content, tagIds);
      && e.id == post.id && e.authorId == post.authorId
      && e.title == (if title.Some? then title.value else post.title)
      && e.content == (if content.Some? then content.value else post.content)
      && (tagIds.None? || tagIds.value == [] ==> e.tagIds == post.tagIds)
      && (tagIds.Some? && tagIds.value != [] ==> e.tagIds == CreatePostHandler.ResolvedTags(tags, tagIds))
  {
  }

  /** The post resolver's `input.title ?? ''` (and the same for content): an omitted field is sent as the empty string. */
  function OrEmpty(v: Option<string>): (r: Option<string>)
    ensures r.Some?
    ensures v.Some? ==> r == v
  {
    if v.Some? then v else Some("")
  }

  /**
   * Through the resolver both fields are always overwritten: an omitted
   * title or content becomes empty, so the old text survives only when it
   * is sent again (or was already empty).
   */
  lemma OmittedFieldsBecomeEmpty(post: Post, tags: map<int, Tag>, title: Option<string>, content: Option<string>, tagIds: Option<seq<int>>)
    ensures var e := EditedPost(post, tags, OrEmpty(title), OrEmpty(content), tagIds);
      && e.title == (if title.Some? then title.value else "")
      && e.content == (if content.Some? then content.value else "")
      && (e.title == post.title ==> title == Some(post.title) || (title.None? && post.title == ""))
  {
  }
}
