/**
 * `useFormValidation(schema)`: the React hook that keeps a form's error
 * messages, one per field, keyed by the issue path joined with ".". The
 * schema is represented by what its parse reports: the issue list of the
 * whole form, and for one field the issues of that field's own schema, or
 * `None` when the object schema has no such field. A state update is applied
 * at once rather than on the next render.
 */
module UseFormValidation {
  import opened Wrappers
  import opened Text
  import opened Schema

  /** The key an issue is filed under: `error.path.join('.')`. */
  function FieldKey(issue: Issue): string {
    Join(issue.path, ".")
  }

  /** The error map built from `issues` in order, a later issue overwriting an earlier one at the same key. */
  function ErrorsOf(issues: seq<Issue>): map<string, string>
    decreases |issues|
  {
    if issues == [] then map[]
    else
      var last := issues[|issues| - 1];
      ErrorsOf(issues[..|issues| - 1])[FieldKey(last) := last.message]
  }

  /** The error map has a key for every issue and no other. */
  lemma {:induction false} ErrorsOfKeys(issues: seq<Issue>)
    ensures ErrorsOf(issues).Keys == set i | 0 <= i < |issues| :: FieldKey(issues[i])
    decreases |issues|
  {
    if issues != [] {
      var init := issues[..|issues| - 1];
      ErrorsOfKeys(init);
      var n := |issues| - 1;
      assert forall i | 0 <= i < n :: init[i] == issues[i];
      assert (set i | 0 <= i < |issues| :: FieldKey(issues[i]))
          == (set i | 0 <= i < n :: FieldKey(init[i])) + {FieldKey(issues[n])};
    }
  }

  /** The form reports no error exactly when the parse had no issue. */
  lemma ErrorsOfEmptyIff(issues: seq<Issue>)
    ensures ErrorsOf(issues) == map[] <==> issues == []
  {
    ErrorsOfKeys(issues);
    if issues != [] {
      assert FieldKey(issues[0]) in ErrorsOf(issues).Keys;
    }
  }

  /** The message kept for a key is that of the last issue filed under it. */
  lemma {:induction false} LastIssueWins(issues: seq<Issue>, i: int)
    requires 0 <= i < |issues|
    requires forall j | i < j < |issues| :: FieldKey(issues[j]) != FieldKey(issues[i])
    ensures FieldKey(issues[i]) in ErrorsOf(issues)
    ensures ErrorsOf(issues)[FieldKey(issues[i])] == issues[i].message
    decreases |issues|
  {
    if i < |issues| - 1 {
      var init := issues[..|issues| - 1];
      assert forall j | i < j < |init| :: init[j] == issues[j];
      LastIssueWins(init, i);
    }
  }

  class FormValidation {
    /** `errors`: field key to message. */
    var errors: map<string, string>

    constructor()
      ensures errors == map[]
    {
      errors := map[];
    }

    /**
     * `validateForm(data)`, given the issues `schema.safeParse(data)` reports:
     * the form is valid iff there was no issue, and the error map is rebuilt
     * from the issues alone, forgetting every earlier error.
     */
    method ValidateForm(issues: seq<Issue>) returns (ok: bool)
      modifies this
      ensures ok <==> issues == []
      ensures errors == ErrorsOf(issues)
    {
      if issues != [] {
        var newErrors: map<string, string> := map[];
        var i := 0;
        while i < |issues|
          invariant 0 <= i <= |issues|
          invariant newErrors == ErrorsOf(issues[..i])
        {
          assert issues[..i + 1][..i] == issues[..i];
          newErrors := newErrors[FieldKey(issues[i]) := issues[i].message];
          i := i + 1;
        }
        assert issues[..i] == issues;
        errors := newErrors;
        return false;
      }
      errors := map[];
      return true;
    }

    /**
     * `validateField(field, value)`, given the issues the field's own schema
     * reports for `value` (`None` when the schema has no such field): an
     * unknown field passes and changes nothing; a valid value clears the
     * field's error; an invalid one records the first issue's message. No
     * other field's error changes.
     */
    method ValidateField(field: string, fieldIssues: Option<seq<Issue>>) returns (ok: bool)
      modifies this
      ensures ok <==> fieldIssues.None? || fieldIssues.value == []
      ensures fieldIssues.None? ==> errors == old(errors)
      ensures fieldIssues.Some? && fieldIssues.value == [] ==> errors == old(errors) - {field}
      ensures fieldIssues.Some? && fieldIssues.value != [] ==> errors == old(errors)[field := fieldIssues.value[0].message]
    {
      if fieldIssues.None? {
        return true;
      }
      var issues := fieldIssues.value;
      if issues == [] {
        errors := errors - {field};
        return true;
      }
      errors := errors[field := issues[0].message];
      return false;
    }

    /** `clearErrors()`: no field keeps an error. */
    method ClearErrors()
      modifies this
      ensures errors == map[]
    {
      errors := map[];
    }

    /** `clearFieldError(field)`: the field loses its error, every other field keeps its own. */
    method ClearFieldError(field: string)
      modifies this
      ensures errors == old(errors) - {field}
    {
      errors := errors - {field};
    }
  }

  /** A field-level error never outlives a later whole-form validation that has no issue for that field. */
  lemma FormValidationForgetsField(issues: seq<Issue>, field: string)
    requires forall i | 0 <= i < |issues| :: FieldKey(issues[i]) != field
    ensures field !in ErrorsOf(issues)
  {
    ErrorsOfKeys(issues);
  }
}
