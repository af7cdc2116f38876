/**
 * `UpdateTagHandler.execute`: validate the id and the trimmed name, find the
 * tag, refuse a name held by another tag, then rename the tag to the trimmed
 * name. All input checks run before any lookup.
 */
module UpdateTagHandler {
  import opened Wrappers
  import opened Errors
  import opened Text
  import opened Store

  const InvalidId := BadRequest("Invalid tag ID")
  const EmptyName := BadRequest("Tag name cannot be empty")
  const BadLength := BadRequest("Tag name must be between 2 and 50 characters")

  function NotFoundError(id: int): Error {
    BadRequest("Tag with ID " + IntToString(id) + " not found")
  }

  function NameExists(name: string): Error {
    BadRequest("Tag with name '" + name + "' already exists")
  }

  /** The input checks, which need no lookup: positive id, non-blank name, trimmed length 2..50. */
  predicate ValidInput(id: int, name: string) {
    id > 0 && Trim(name) != [] && 2 <= |Trim(name)| <= 50
  }

  /**
   * The checks in their order: id, emptiness, length, existence, duplicate.
   * Each failure is reported by the first check that fails and changes
   * nothing. On success only the tag `id` changes, and its name becomes the
   * trimmed name.
   */
  method Execute(db: Db, id: int, name: string) returns (r: Result<Tag, Error>)
    requires db.Valid()
    modifies db
    ensures db.Valid()
    ensures id <= 0 ==> r == Failure(InvalidId)
    ensures id > 0 && Trim(name) == [] ==> r == Failure(EmptyName)
    ensures id > 0 && Trim(name) != [] && !(2 <= |Trim(name)| <= 50) ==> r == Failure(BadLength)
    ensures ValidInput(id, name) && id !in old(db.tags) ==> r == Failure(NotFoundError(id))
    ensures ValidInput(id, name) && id in old(db.tags) && TagNameHeldByOther(old(db.tags), Trim(name), id) ==>
      r == Failure(NameExists(Trim(name)))
    ensures r.Success? <==>
      ValidInput(id, name) && id in old(db.tags) && !TagNameHeldByOther(old(db.tags), Trim(name), id)
    ensures r.Success? ==> r.value == Tag(id, Trim(name)) && db.tags == old(db.tags)[id := r.value]
    ensures r.Failure? ==> db.tags == old(db.tags)
    ensures db.users == old(db.users) && db.profiles == old(db.profiles) && db.posts == old(db.posts)
  {
    if id <= 0 {
      return Failure(InvalidId);
    }
    var trimmed := Trim(name);
    if trimmed == [] {
      return Failure(EmptyName);
    }
    if |trimmed| < 2 || |trimmed| > 50 {
      return Failure(BadLength);
    }
    if id !in db.tags {
      return Failure(NotFoundError(id));
    }
    if TagNameHeldByOther(db.tags, trimmed, id) {
      return Failure(NameExists(trimmed));
    }
    var tag := db.tags[id].(name := trimmed);
    r := db.SaveTag(tag);
  }

  /** Renaming a tag to the name it already has (up to surrounding whitespace) is never refused as a duplicate. */
  lemma RenameToOwnName(tags: map<int, Tag>, id: int, name: string)
    requires TagTable(tags) && id in tags && Trim(name) == tags[id].name
    ensures !TagNameHeldByOther(tags, Trim(name), id)
  {
  }

  /** A whitespace-only name is refused as empty, however long it is. */
  lemma BlankNameIsEmpty(id: int, name: string)
    requires id > 0 && AllWhitespace(name)
    ensures Trim(name) == []
  {
    TrimEmptyIffAllWhitespace(name);
  }

  /** The stored name never has surrounding whitespace. */
  lemma StoredNameIsTrimmed(name: string)
    ensures var t := Trim(name); t == [] || (!IsWhitespace(t[0]) && !IsWhitespace(t[|t| - 1]))
    ensures Trim(Trim(name)) == Trim(name)
  {
    TrimIdempotent(name);
  }
}
