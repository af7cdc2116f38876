/** `CreateTagHandler.execute`: refuse an exact duplicate name, otherwise insert the name as given. */
module CreateTagHandler {
  import opened Wrappers
  import opened Errors
  import opened Store

  /** The error for a name some tag already has. */
  function NameExists(name: string): Error {
    Failed("Tag with name '" + name + "' already exists")
  }

  /**
   * A name held by some tag, compared exactly (no trimming, case-sensitive),
   * is refused and nothing changes; any other name, however short or blank,
   * becomes exactly one new tag, which is returned.
   */
  method Execute(db: Db, name: string) returns (r: Result<Tag, Error>)
    requires db.Valid()
    modifies db
    ensures db.Valid()
    ensures r.Failure? <==> TagNameTaken(old(db.tags), name)
    ensures r.Failure? ==> r.error == NameExists(name) && db.tags == old(db.tags)
    ensures r.Success? ==>
      && r.value == Tag(old(db.nextTagId), name)
      && r.value.id !in old(db.tags)
      && db.tags == old(db.tags)[r.value.id := r.value]
    ensures db.users == old(db.users) && db.profiles == old(db.profiles) && db.posts == old(db.posts)
  {
    if TagNameTaken(db.tags, name) {
      return Failure(NameExists(name));
    }
    r := db.InsertTag(name);
  }

  /**
   * After either outcome every name is held by at most one tag, and a tag
   * with the requested name exists.
   */
  lemma NamesStayUnique(before: map<int, Tag>, after: map<int, Tag>, name: string, id: int)
    requires TagTable(before)
    requires TagNameTaken(before, name) ==> after == before
    requires !TagNameTaken(before, name) ==> id !in before && after == before[id := Tag(id, name)]
    ensures TagTable(after) && TagNameTaken(after, name)
  {
    if !TagNameTaken(before, name) {
      assert after[id].name == name;
    }
  }
}
