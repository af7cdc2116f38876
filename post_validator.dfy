/**
 * The zod schemas of the post forms. The refinements `val !== null` on a
 * string always hold, so they never add an issue and are not written out.
 */
module PostValidator {
  import opened Schema

  const TitleEmpty := "Title cannot be empty or null"
  const TitleTooShort := "Title must be at least 5 characters"
  const TitleTooLong := "Title must be at most 100 characters"
  const ContentEmpty := "Content cannot be empty or null"
  const ContentTooShort := "Content must be at least 10 characters"
  const ContentTooLong := "Content must be at most 5000 characters"
  const NoTags := "At least one tag must be selected"

  function TitleIssues(s: string, path: seq<string>): seq<Issue> {
    Check(|s| >= 1, path, TitleEmpty)
    + Check(|s| >= 5, path, TitleTooShort)
    + Check(|s| <= 100, path, TitleTooLong)
  }

  function ContentIssues(s: string, path: seq<string>): seq<Issue> {
    Check(|s| >= 1, path, ContentEmpty)
    + Check(|s| >= 10, path, ContentTooShort)
    + Check(|s| <= 5000, path, ContentTooLong)
  }

  datatype PostForm = PostForm(title: string, content: string, tagIds: seq<int>)

  /** `createPostSchema`: title, content and at least one tag id. */
  function CreatePostIssues(f: PostForm): seq<Issue> {
    TitleIssues(f.title, ["title"])
    + ContentIssues(f.content, ["content"])
    + Check(|f.tagIds| >= 1, ["tagIds"], NoTags)
  }

  /** `updatePostSchema`: the create schema extended with a numeric `id`. */
  function UpdatePostIssues(id: int, f: PostForm): seq<Issue> {
    CreatePostIssues(f)
  }

  /** A post form is accepted iff the title has 5 to 100 characters, the content 10 to 5000, and some tag is chosen. */
  lemma PostAccepted(f: PostForm)
    ensures CreatePostIssues(f) == [] <==> 5 <= |f.title| <= 100 && 10 <= |f.content| <= 5000 && |f.tagIds| >= 1
  {
  }

  /** An empty title is reported twice, as empty and as too short, before any content issue. */
  lemma EmptyTitleReportedTwice(f: PostForm)
    requires f.title == []
    ensures var issues := CreatePostIssues(f);
      |issues| >= 2 && issues[0] == Issue(["title"], TitleEmpty) && issues[1] == Issue(["title"], TitleTooShort)
  {
  }

  /**
   * The update form is accepted under the same bounds as the create form,
   * whatever the id: title 5 to 100 characters, content 10 to 5000, some tag.
   */
  lemma UpdatePostAccepted(id: int, f: PostForm)
    ensures UpdatePostIssues(id, f) == [] <==> 5 <= |f.title| <= 100 && 10 <= |f.content| <= 5000 && |f.tagIds| >= 1
  {
    PostAccepted(f);
  }
}
