/** The zod schemas of the tag forms. */
module TagValidator {
  import opened Wrappers
  import opened Text
  import opened Schema

  const NameTooShort := "Tag name must be at least 2 characters"
  const NameTooLong := "Tag name must be at most 50 characters"
  const NameBadChars := "Tag name can only contain letters, numbers, spaces, underscores, and hyphens"

  predicate IsTagNameChar(c: char) {
    IsAsciiLetter(c) || IsAsciiDigit(c) || IsWhitespace(c) || c == '_' || c == '-'
  }

  /** `/^[a-zA-Z0-9\s_-]+$/`. */
  predicate TagNamePattern(s: string) {
    |s| > 0 && forall i | 0 <= i < |s| :: IsTagNameChar(s[i])
  }

  function TagNameIssues(s: string, path: seq<string>): seq<Issue> {
    Check(|s| >= 2, path, NameTooShort)
    + Check(|s| <= 50, path, NameTooLong)
    + Check(TagNamePattern(s), path, NameBadChars)
  }

  /** `createTagSchema`: `{ name }`. */
  function CreateTagIssues(name: string): seq<Issue> {
    TagNameIssues(name, ["name"])
  }

  /** `updateTagSchema`: `{ id, name? }`; the id is any number. */
  function UpdateTagIssues(id: int, name: Option<string>): seq<Issue> {
    if name.Some? then TagNameIssues(name.value, ["name"]) else []
  }

  /** A tag name is accepted iff it has 2 to 50 characters, each a letter, digit, whitespace, `_` or `-`. */
  lemma TagNameAccepted(s: string, path: seq<string>)
    ensures TagNameIssues(s, path) == [] <==> 2 <= |s| <= 50 && forall i | 0 <= i < |s| :: IsTagNameChar(s[i])
  {
  }

  /**
   * The update form accepts an omitted name whatever the id, and a given one
   * iff it has 2 to 50 tag-name characters; every issue it reports is on `name`.
   */
  lemma UpdateTagAccepted(id: int, name: Option<string>)
    ensures UpdateTagIssues(id, name) == [] <==>
      name.None? || (2 <= |name.value| <= 50 && forall i | 0 <= i < |name.value| :: IsTagNameChar(name.value[i]))
    ensures forall k | 0 <= k < |UpdateTagIssues(id, name)| :: UpdateTagIssues(id, name)[k].path == ["name"]
  {
    if name.Some? {
      TagNameAccepted(name.value, ["name"]);
    }
  }

  /**
   * The pattern admits whitespace, so a name of two spaces passes the form.
   * The create handler stores it as given; it trims to the empty name that
   * the update handler refuses.
   */
  lemma BlankNamePassesForm()
    ensures CreateTagIssues("  ") == []
    ensures Trim("  ") == []
  {
    assert IsTagNameChar("  "[0]) && IsTagNameChar("  "[1]);
    TrimEmptyIffAllWhitespace("  ");
  }
}
