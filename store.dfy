/**
 * The MySQL database behind the TypeORM repositories, as four tables held in
 * maps keyed by primary key. `Db.Valid` is what the schema guarantees: primary
 * keys below the AUTO_INCREMENT counter, the unique indexes on `users.username`,
 * `users.email`, `tags.name` and `user_profiles.userId`, and the foreign keys
 * `posts.authorId -> users`, `user_profiles.userId -> users` and
 * `post_tags.tagsId -> tags` (all ON DELETE NO ACTION). The `post_tags` join
 * table is folded into `Post.tagIds`; its `postsId` key cascades on delete, so
 * deleting a post removes its tag links with it.
 *
 * Every write either violates a constraint, in which case it fails with the
 * violated constraint and changes nothing, or changes exactly one row.
 */
module Store {
  import opened Wrappers
  import opened Crypto
  import opened Errors

  datatype User = User(id: int, username: string, email: string, password: Digest)
  datatype Profile = Profile(id: int, userId: int, bio: Option<string>)
  datatype Tag = Tag(id: int, name: string)
  datatype Post = Post(id: int, title: string, content: string, authorId: int, tagIds: set<int>)

  // ----- lookups over one table -----

  predicate UsernameTaken(users: map<int, User>, name: string) {
    exists k | k in users :: users[k].username == name
  }

  predicate EmailTaken(users: map<int, User>, email: string) {
    exists k | k in users :: users[k].email == email
  }

  /** Some row other than `id` already holds `name`. */
  predicate UsernameHeldByOther(users: map<int, User>, name: string, id: int) {
    exists k | k in users :: k != id && users[k].username == name
  }

  predicate EmailHeldByOther(users: map<int, User>, email: string, id: int) {
    exists k | k in users :: k != id && users[k].email == email
  }

  predicate TagNameTaken(tags: map<int, Tag>, name: string) {
    exists k | k in tags :: tags[k].name == name
  }

  predicate TagNameHeldByOther(tags: map<int, Tag>, name: string, id: int) {
    exists k | k in tags :: k != id && tags[k].name == name
  }

  predicate HasProfile(profiles: map<int, Profile>, userId: int) {
    exists k | k in profiles :: profiles[k].userId == userId
  }

  predicate AuthorsPost(posts: map<int, Post>, userId: int) {
    exists k | k in posts :: posts[k].authorId == userId
  }

  /** The ids of the posts linked to tag `tagId` through `post_tags`. */
  function PostsUsing(posts: map<int, Post>, tagId: int): (r: set<int>)
    ensures forall k :: k in r <==> k in posts && tagId in posts[k].tagIds
  {
    set k | k in posts && tagId in posts[k].tagIds
  }

  /** `findBy({ id: In(ids) })`: the ids of the existing tags among `ids`. */
  function ExistingTagIds(tags: map<int, Tag>, ids: seq<int>): (r: set<int>)
    ensures forall k :: k in r <==> k in tags && k in ids
  {
    set k | k in tags && k in ids
  }

  // ----- table shapes -----

  predicate UserTable(users: map<int, User>) {
    && (forall k | k in users :: users[k].id == k)
    && (forall a, b | a in users && b in users && a != b ::
          users[a].username != users[b].username && users[a].email != users[b].email)
  }

  predicate ProfileTable(profiles: map<int, Profile>) {
    && (forall k | k in profiles :: profiles[k].id == k)
    && (forall a, b | a in profiles && b in profiles && a != b :: profiles[a].userId != profiles[b].userId)
  }

  predicate TagTable(tags: map<int, Tag>) {
    && (forall k | k in tags :: tags[k].id == k)
    && (forall a, b | a in tags && b in tags && a != b :: tags[a].name != tags[b].name)
  }

  predicate PostTable(posts: map<int, Post>) {
    forall k | k in posts :: posts[k].id == k
  }

  /** `findOne({ where: { email } })` under the unique index on `email`. */
  function FindUserByEmail(users: map<int, User>, email: string): (r: Option<User>)
    requires UserTable(users)
    ensures r.Some? <==> EmailTaken(users, email)
    ensures r.Some? ==> r.value.id in users && users[r.value.id] == r.value && r.value.email == email
  {
    if EmailTaken(users, email) then
      var k :| k in users && users[k].email == email;
      Some(users[k])
    else
      None
  }

  /** `findOne({ where: { id } })`. */
  function FindUser(users: map<int, User>, id: int): (r: Option<User>)
    ensures r.Some? <==> id in users
    ensures r.Some? ==> r.value == users[id]
  {
    if id in users then Some(users[id]) else None
  }

  /** `findOne({ where: { user: { id: userId } } })` under the unique index on `userId`. */
  function ProfileOf(profiles: map<int, Profile>, userId: int): (r: Option<Profile>)
    requires ProfileTable(profiles)
    ensures r.Some? <==> HasProfile(profiles, userId)
    ensures r.Some? ==> r.value.id in profiles && profiles[r.value.id] == r.value && r.value.userId == userId
  {
    if HasProfile(profiles, userId) then
      var k :| k in profiles && profiles[k].userId == userId;
      Some(profiles[k])
    else
      None
  }

  class Db {
    var users: map<int, User>
    var profiles: map<int, Profile>
    var tags: map<int, Tag>
    var posts: map<int, Post>
    // the AUTO_INCREMENT counters of the four tables
    var nextUserId: int
    var nextProfileId: int
    var nextTagId: int
    var nextPostId: int

    ghost predicate Valid()
      reads this
    {
      && UserTable(users) && ProfileTable(profiles) && TagTable(tags) && PostTable(posts)
      && 0 < nextUserId && 0 < nextProfileId && 0 < nextTagId && 0 < nextPostId
      && (forall k | k in users :: 0 < k < nextUserId)
      && (forall k | k in profiles :: 0 < k < nextProfileId)
      && (forall k | k in tags :: 0 < k < nextTagId)
      && (forall k | k in posts :: 0 < k < nextPostId)
      && (forall k | k in profiles :: profiles[k].userId in users)
      && (forall k | k in posts :: posts[k].authorId in users && posts[k].tagIds <= tags.Keys)
    }

    /** An empty database after the migrations. */
    constructor ()
      ensures Valid()
      ensures users == map[] && profiles == map[] && tags == map[] && posts == map[]
    {
      users, profiles, tags, posts := map[], map[], map[], map[];
      nextUserId, nextProfileId, nextTagId, nextPostId := 1, 1, 1, 1;
    }

    /** `INSERT INTO users`. */
    method InsertUser(username: string, email: string, password: Digest) returns (r: Result<User, Error>)
      requires Valid()
      modifies this
      ensures Valid()
      ensures r.Success? <==> !UsernameTaken(old(users), username) && !EmailTaken(old(users), email)
      ensures r.Success? ==>
        && r.value == User(old(nextUserId), username, email, password)
        && r.value.id !in old(users)
        && users == old(users)[r.value.id := r.value]
        && nextUserId == old(nextUserId) + 1
      ensures r.Failure? ==>
        && r.error == UniqueViolation(if UsernameTaken(old(users), username) then "username" else "email")
        && users == old(users) && nextUserId == old(nextUserId)
      ensures profiles == old(profiles) && tags == old(tags) && posts == old(posts)
      ensures nextProfileId == old(nextProfileId) && nextTagId == old(nextTagId) && nextPostId == old(nextPostId)
    {
      if UsernameTaken(users, username) {
        return Failure(UniqueViolation("username"));
      }
      if EmailTaken(users, email) {
        return Failure(UniqueViolation("email"));
      }
      var u := User(nextUserId, username, email, password);
      users := users[u.id := u];
      nextUserId := nextUserId + 1;
      r := Success(u);
    }

    /** `UPDATE users` of the row `u.id` (TypeORM `save` of a loaded row). */
    method SaveUser(u: User) returns (r: Result<User, Error>)
      requires Valid() && u.id in users
      modifies this
      ensures Valid()
      ensures r.Success? <==>
        !UsernameHeldByOther(old(users), u.username, u.id) && !EmailHeldByOther(old(users), u.email, u.id)
      ensures r.Success? ==> r.value == u && users == old(users)[u.id := u]
      ensures r.Failure? ==>
        && r.error == UniqueViolation(if UsernameHeldByOther(old(users), u.username, u.id) then "username" else "email")
        && users == old(users)
      ensures profiles == old(profiles) && tags == old(tags) && posts == old(posts)
      ensures nextUserId == old(nextUserId) && nextProfileId == old(nextProfileId)
      ensures nextTagId == old(nextTagId) && nextPostId == old(nextPostId)
    {
      if UsernameHeldByOther(users, u.username, u.id) {
        return Failure(UniqueViolation("username"));
      }
      if EmailHeldByOther(users, u.email, u.id) {
        return Failure(UniqueViolation("email"));
      }
      users := users[u.id := u];
      r := Success(u);
    }

    /** `DELETE FROM users WHERE id = ?`; the result is the number of rows affected. */
    method DeleteUser(id: int) returns (r: Result<nat, Error>)
      requires Valid()
      modifies this
      ensures Valid()
      ensures r.Failure? <==> id in old(users) && (HasProfile(old(profiles), id) || AuthorsPost(old(posts), id))
      ensures r.Failure? ==>
        && r.error == ForeignKeyViolation(if HasProfile(old(profiles), id) then "user_profiles" else "posts")
        && users == old(users)
      ensures r.Success? ==> r.value == (if id in old(users) then 1 else 0) && users == old(users) - {id}
      ensures profiles == old(profiles) && tags == old(tags) && posts == old(posts)
      ensures nextUserId == old(nextUserId) && nextProfileId == old(nextProfileId)
      ensures nextTagId == old(nextTagId) && nextPostId == old(nextPostId)
    {
      if id !in users {
        return Success(0);
      }
      if HasProfile(profiles, id) {
        return Failure(ForeignKeyViolation("user_profiles"));
      }
      if AuthorsPost(posts, id) {
        return Failure(ForeignKeyViolation("posts"));
      }
      users := users - {id};
      r := Success(1);
    }

    /** `INSERT INTO user_profiles`. */
    method InsertProfile(userId: int, bio: Option<string>) returns (r: Result<Profile, Error>)
      requires Valid()
      modifies this
      ensures Valid()
      ensures r.Success? <==> userId in old(users) && !HasProfile(old(profiles), userId)
      ensures r.Success? ==>
        && r.value == Profile(old(nextProfileId), userId, bio)
        && r.value.id !in old(profiles)
        && profiles == old(profiles)[r.value.id := r.value]
        && nextProfileId == old(nextProfileId) + 1
      ensures r.Failure? ==>
        && r.error == (if userId !in old(users) then ForeignKeyViolation("users") else UniqueViolation("userId"))
        && profiles == old(profiles) && nextProfileId == old(nextProfileId)
      ensures users == old(users) && tags == old(tags) && posts == old(posts)
      ensures nextUserId == old(nextUserId) && nextTagId == old(nextTagId) && nextPostId == old(nextPostId)
    {
      if userId !in users {
        return Failure(ForeignKeyViolation("users"));
      }
      if HasProfile(profiles, userId) {
        return Failure(UniqueViolation("userId"));
      }
      var p := Profile(nextProfileId, userId, bio);
      profiles := profiles[p.id := p];
      nextProfileId := nextProfileId + 1;
      r := Success(p);
    }

    /** `UPDATE user_profiles SET bio = ?` of the row `id`. */
    method SaveBio(id: int, bio: Option<string>)
      requires Valid() && id in profiles
      modifies this
      ensures Valid()
      ensures profiles == old(profiles)[id := old(profiles)[id].(bio := bio)]
      ensures users == old(users) && tags == old(tags) && posts == old(posts)
      ensures nextUserId == old(nextUserId) && nextProfileId == old(nextProfileId)
      ensures nextTagId == old(nextTagId) && nextPostId == old(nextPostId)
    {
      profiles := profiles[id := profiles[id].(bio := bio)];
    }

    /** `INSERT INTO tags`. */
    method InsertTag(name: string) returns (r: Result<Tag, Error>)
      requires Valid()
      modifies this
      ensures Valid()
      ensures r.Success? <==> !TagNameTaken(old(tags), name)
      ensures r.Success? ==>
        && r.value == Tag(old(nextTagId), name)
        && r.value.id !in old(tags)
        && tags == old(tags)[r.value.id := r.value]
        && nextTagId == old(nextTagId) + 1
      ensures r.Failure? ==> r.error == UniqueViolation("name") && tags == old(tags) && nextTagId == old(nextTagId)
      ensures users == old(users) && profiles == old(profiles) && posts == old(posts)
      ensures nextUserId == old(nextUserId) && nextProfileId == old(nextProfileId) && nextPostId == old(nextPostId)
    {
      if TagNameTaken(tags, name) {
        return Failure(UniqueViolation("name"));
      }
      var t := Tag(nextTagId, name);
      tags := tags[t.id := t];
      nextTagId := nextTagId + 1;
      r := Success(t);
    }

    /** `UPDATE tags` of the row `t.id`. */
    method SaveTag(t: Tag) returns (r: Result<Tag, Error>)
      requires Valid() && t.id in tags
      modifies this
      ensures Valid()
      ensures r.Success? <==> !TagNameHeldByOther(old(tags), t.name, t.id)
      ensures r.Success? ==> r.value == t && tags == old(tags)[t.id := t]
      ensures r.Failure? ==> r.error == UniqueViolation("name") && tags == old(tags)
      ensures users == old(users) && profiles == old(profiles) && posts == old(posts)
      ensures nextUserId == old(nextUserId) && nextProfileId == old(nextProfileId)
      ensures nextTagId == old(nextTagId) && nextPostId == old(nextPostId)
    {
      if TagNameHeldByOther(tags, t.name, t.id) {
        return Failure(UniqueViolation("name"));
      }
      tags := tags[t.id := t];
      r := Success(t);
    }

    /** `DELETE FROM tags WHERE id = ?`; the result is the number of rows affected. */
    method DeleteTag(id: int) returns (r: Result<nat, Error>)
      requires Valid()
      modifies this
      ensures Valid()
      ensures r.Failure? <==> PostsUsing(old(posts), id) != {}
      ensures r.Failure? ==> r.error == ForeignKeyViolation("post_tags") && tags == old(tags)
      ensures r.Success? ==> r.value == (if id in old(tags) then 1 else 0) && tags == old(tags) - {id}
      ensures users == old(users) && profiles == old(profiles) && posts == old(posts)
      ensures nextUserId == old(nextUserId) && nextProfileId == old(nextProfileId)
      ensures nextTagId == old(nextTagId) && nextPostId == old(nextPostId)
    {
      if PostsUsing(posts, id) != {} {
        return Failure(ForeignKeyViolation("post_tags"));
      }
      var affected: nat := if id in tags then 1 else 0;
      tags := tags - {id};
      r := Success(affected);
    }

    /** `INSERT INTO posts` together with its `post_tags` links. */
    method InsertPost(title: string, content: string, authorId: int, tagIds: set<int>) returns (r: Result<Post, Error>)
      requires Valid()
      modifies this
      ensures Valid()
      ensures r.Success? <==> authorId in old(users) && tagIds <= old(tags).Keys
      ensures r.Success? ==>
        && r.value == Post(old(nextPostId), title, content, authorId, tagIds)
        && r.value.id !in old(posts)
        && posts == old(posts)[r.value.id := r.value]
        && nextPostId == old(nextPostId) + 1
      ensures r.Failure? ==>
        && r.error == ForeignKeyViolation(if authorId !in old(users) then "users" else "tags")
        && posts == old(posts) && nextPostId == old(nextPostId)
      ensures users == old(users) && profiles == old(profiles) && tags == old(tags)
      ensures nextUserId == old(nextUserId) && nextProfileId == old(nextProfileId) && nextTagId == old(nextTagId)
    {
      if authorId !in users {
        return Failure(ForeignKeyViolation("users"));
      }
      if !(tagIds <= tags.Keys) {
        return Failure(ForeignKeyViolation("tags"));
      }
      var p := Post(nextPostId, title, content, authorId, tagIds);
      posts := posts[p.id := p];
      nextPostId := nextPostId + 1;
      r := Success(p);
    }

    /** `UPDATE posts` of the row `p.id`, rewriting its `post_tags` links. */
    method SavePost(p: Post) returns (r: Result<Post, Error>)
      requires Valid() && p.id in posts
      modifies this
      ensures Valid()
      ensures r.Success? <==> p.authorId in old(users) && p.tagIds <= old(tags).Keys
      ensures r.Success? ==> r.value == p && posts == old(posts)[p.id := p]
      ensures r.Failure? ==>
        && r.error == ForeignKeyViolation(if p.authorId !in old(users) then "users" else "tags")
        && posts == old(posts)
      ensures users == old(users) && profiles == old(profiles) && tags == old(tags)
      ensures nextUserId == old(nextUserId) && nextProfileId == old(nextProfileId)
      ensures nextTagId == old(nextTagId) && nextPostId == old(nextPostId)
    {
      if p.authorId !in users {
        return Failure(ForeignKeyViolation("users"));
      }
      if !(p.tagIds <= tags.Keys) {
        return Failure(ForeignKeyViolation("tags"));
      }
      posts := posts[p.id := p];
      r := Success(p);
    }

    /** `DELETE FROM posts WHERE id = ?`; its `post_tags` links cascade. */
    method DeletePost(id: int) returns (affected: nat)
      requires Valid()
      modifies this
      ensures Valid()
      ensures affected == (if id in old(posts) then 1 else 0)
      ensures posts == old(posts) - {id}
      ensures users == old(users) && profiles == old(profiles) && tags == old(tags)
      ensures nextUserId == old(nextUserId) && nextProfileId == old(nextProfileId)
      ensures nextTagId == old(nextTagId) && nextPostId == old(nextPostId)
    {
      affected := if id in posts then 1 else 0;
      posts := posts - {id};
    }
  }

  /**
   * The profile table after the bio of `userId` has been saved as `bio`:
   * the user's profile row (the existing one, or a new one) holds `bio`, and
   * no other row changed. An entity save leaves an undefined property out of
   * the `UPDATE`, so an existing row keeps its bio when `bio` is `None`; a
   * row created by the save has a `NULL` bio then.
   */
  predicate BioWritten(before: map<int, Profile>, after: map<int, Profile>, userId: int, bio: Option<string>)
    requires ProfileTable(before) && ProfileTable(after)
  {
    var p := ProfileOf(after, userId);
    && p.Some?
    && p.value.bio == (if bio.None? && HasProfile(before, userId) then ProfileOf(before, userId).value.bio else bio)
    && after == before[p.value.id := p.value]
    && (HasProfile(before, userId) ==> p.value.id == ProfileOf(before, userId).value.id)
    && (!HasProfile(before, userId) ==> p.value.id !in before)
  }

  /**
   * The find-then-create-or-update sequence both profile edits run: look up
   * the profile of `userId`; create it with `bio` when there is none,
   * otherwise set its bio, which the save skips when `bio` is `None`.
   */
  method UpsertBio(db: Db, userId: int, bio: Option<string>)
    requires db.Valid() && userId in db.users
    modifies db
    ensures db.Valid()
    ensures BioWritten(old(db.profiles), db.profiles, userId, bio)
    ensures db.users == old(db.users) && db.tags == old(db.tags) && db.posts == old(db.posts)
  {
    var existing := ProfileOf(db.profiles, userId);
    if existing.None? {
      var created := db.InsertProfile(userId, bio);
      var k := created.value.id;
      assert k in db.profiles && db.profiles[k].userId == userId;
      assert ProfileOf(db.profiles, userId).value.id == k;
    } else {
      var k := existing.value.id;
      if bio.Some? {
        db.SaveBio(k, bio);
      } else {
        assert db.profiles == db.profiles[k := db.profiles[k]];
      }
      assert k in db.profiles && db.profiles[k].userId == userId;
      assert ProfileOf(db.profiles, userId).value.id == k;
    }
  }

  /** Saving an undefined bio over an existing profile changes no row. */
  lemma UndefinedBioKeepsProfile(before: map<int, Profile>, after: map<int, Profile>, userId: int)
    requires ProfileTable(before) && ProfileTable(after)
    requires HasProfile(before, userId) && BioWritten(before, after, userId, None)
    ensures after == before
  {
    var p := ProfileOf(after, userId).value;
    var q := ProfileOf(before, userId).value;
    assert p.id == q.id && p.bio == q.bio && p.userId == q.userId;
    assert before[q.id] == q;
  }
}
