/**
 * What a zod parse reports: a list of issues, each with the path of the
 * offending field and a message; an empty list is success. String checks
 * (`min`, `max`, `regex`, `email`, `nonempty`) all run, in declaration order,
 * and each one that fails adds its issue; an object refinement runs after
 * the field checks, since their issues do not abort the parse.
 */
module Schema {
  datatype Issue = Issue(path: seq<string>, message: string)

  /** One check: no issue when `ok`, otherwise one issue at `path`. */
  function Check(ok: bool, path: seq<string>, message: string): (r: seq<Issue>)
    ensures r == [] <==> ok
    ensures !ok ==> r == [Issue(path, message)]
  {
    if ok then [] else [Issue(path, message)]
  }
}
