/**
 * The zod schemas of the login, register and profile forms. Each schema is a
 * function from the form's values to the issues zod reports, and each
 * pattern is a predicate on characters. Email format is a parameter
 * (`isEmail`), standing for zod's own email check.
 */
module AuthValidator {
  import opened Wrappers
  import opened Text
  import opened Schema

  // ----- messages -----

  const UsernameTooShort := "Username must be at least 3 characters"
  const UsernameTooLong := "Username must be at most 20 characters"
  const UsernameBadChars := "Username can only contain letters, numbers, underscores, and hyphens"
  const InvalidEmail := "Invalid email address"
  const EmailTooShort := "Email must be at least 5 characters"
  const EmailTooLong := "Email must be at most 50 characters"
  const PasswordTooShort := "Password must be at least 8 characters"
  const PasswordTooWeak := "Password must contain at least one uppercase letter, one lowercase letter, and one number"
  const UpdatePasswordTooWeak := "Password must contain at least one uppercase letter, one lowercase letter, one number, and one special character"
  const BioTooLong := "Bio must be at most 500 characters"
  const PasswordRequired := "Password is required"
  const Mismatch := "Passwords don't match"

  // ----- the three patterns -----

  predicate IsUsernameChar(c: char) {
    IsAsciiLetter(c) || IsAsciiDigit(c) || c == '_' || c == '-'
  }

  /** `/^[a-zA-Z0-9_-]+$/`. */
  predicate UsernamePattern(s: string) {
    |s| > 0 && forall i | 0 <= i < |s| :: IsUsernameChar(s[i])
  }

  predicate HasUpper(s: string) { exists i | 0 <= i < |s| :: IsAsciiUpper(s[i]) }
  predicate HasLower(s: string) { exists i | 0 <= i < |s| :: IsAsciiLower(s[i]) }
  predicate HasDigit(s: string) { exists i | 0 <= i < |s| :: IsAsciiDigit(s[i]) }

  /** `[\W_]`: any character other than an ASCII letter or digit. */
  predicate IsSpecial(c: char) {
    !IsAsciiLetter(c) && !IsAsciiDigit(c)
  }

  predicate HasSpecial(s: string) { exists i | 0 <= i < |s| :: IsSpecial(s[i]) }

  /** `.+$` from the start: non-empty, and `.` never matches a line terminator. */
  predicate SingleLine(s: string) {
    |s| > 0 && forall i | 0 <= i < |s| :: !IsLineTerminator(s[i])
  }

  /** `/^(?=.*[A-Z])(?=.*[a-z])(?=.*\d).+$/`. */
  predicate PasswordPattern(s: string) {
    SingleLine(s) && HasUpper(s) && HasLower(s) && HasDigit(s)
  }

  /** `/^(?=.*[a-z])(?=.*[A-Z])(?=.*\d)(?=.*[\W_]).+$/`. */
  predicate UpdatePasswordPattern(s: string) {
    PasswordPattern(s) && HasSpecial(s)
  }

  // ----- field schemas -----

  function UsernameIssues(s: string, path: seq<string>): seq<Issue> {
    Check(|s| >= 3, path, UsernameTooShort)
    + Check(|s| <= 20, path, UsernameTooLong)
    + Check(UsernamePattern(s), path, UsernameBadChars)
  }

  function EmailIssues(isEmail: string -> bool, s: string, path: seq<string>): seq<Issue> {
    Check(isEmail(s), path, InvalidEmail)
    + Check(|s| >= 5, path, EmailTooShort)
    + Check(|s| <= 50, path, EmailTooLong)
  }

  function PasswordIssues(s: string, path: seq<string>): seq<Issue> {
    Check(|s| >= 8, path, PasswordTooShort)
    + Check(PasswordPattern(s), path,
            PasswordTooWeak)
  }

  function UpdatePasswordIssues(s: string, path: seq<string>): seq<Issue> {
    Check(|s| >= 8, path, PasswordTooShort)
    + Check(UpdatePasswordPattern(s), path,
            UpdatePasswordTooWeak)
  }

  function BioIssues(s: string, path: seq<string>): seq<Issue> {
    Check(|s| <= 500, path, BioTooLong)
  }

  // ----- form schemas -----

  function LoginIssues(isEmail: string -> bool, email: string, password: string): seq<Issue> {
    EmailIssues(isEmail, email, ["email"]) + Check(|password| >= 1, ["password"], PasswordRequired)
  }

  datatype RegisterForm = RegisterForm(username: string, email: string, password: string, confirmPassword: string)

  function RegisterIssues(isEmail: string -> bool, f: RegisterForm): seq<Issue> {
    UsernameIssues(f.username, ["username"])
    + EmailIssues(isEmail, f.email, ["email"])
    + PasswordIssues(f.password, ["password"])
    + Check(f.password == f.confirmPassword, ["confirmPassword"], Mismatch)
  }

  datatype ProfileForm = ProfileForm(
    username: Option<string>, email: Option<string>, password: Option<string>,
    confirmPassword: Option<string>, bio: Option<string>)

  /** The refinement: when a non-empty password is given, the confirmation must equal it. */
  predicate ConfirmMatches(f: ProfileForm) {
    f.password.Some? && |f.password.value| > 0 ==> f.confirmPassword == f.password
  }

  /** The optional fields' own issues, in declaration order. */
  function ProfileFieldIssues(isEmail: string -> bool, f: ProfileForm): seq<Issue> {
    (if f.username.Some? then UsernameIssues(f.username.value, ["username"]) else [])
    + (if f.email.Some? then EmailIssues(isEmail, f.email.value, ["email"]) else [])
    + (if f.password.Some? then UpdatePasswordIssues(f.password.value, ["password"]) else [])
    + (if f.bio.Some? then BioIssues(f.bio.value, ["bio"]) else [])
  }

  function ProfileUpdateIssues(isEmail: string -> bool, f: ProfileForm): seq<Issue> {
    ProfileFieldIssues(isEmail, f) + Check(ConfirmMatches(f), ["confirmPassword"], Mismatch)
  }

  // ----- what each schema accepts -----

  /** A username is accepted iff it has 3 to 20 characters, all letters, digits, `_` or `-`. */
  lemma UsernameAccepted(s: string, path: seq<string>)
    ensures UsernameIssues(s, path) == [] <==> 3 <= |s| <= 20 && forall i | 0 <= i < |s| :: IsUsernameChar(s[i])
  {
  }

  /** A register password is accepted iff it has at least 8 characters on one line, with an uppercase letter, a lowercase letter and a digit. */
  lemma PasswordAccepted(s: string, path: seq<string>)
    ensures PasswordIssues(s, path) == [] <==>
      |s| >= 8 && (forall i | 0 <= i < |s| :: !IsLineTerminator(s[i])) && HasUpper(s) && HasLower(s) && HasDigit(s)
  {
  }

  /** An update password must also hold a character that is not an ASCII letter or digit. */
  lemma UpdatePasswordAccepted(s: string, path: seq<string>)
    ensures UpdatePasswordIssues(s, path) == [] <==> PasswordIssues(s, path) == [] && HasSpecial(s)
  {
  }

  /** Every password the profile form accepts, the register form accepts too. */
  lemma UpdatePasswordStricter(s: string, path: seq<string>)
    ensures UpdatePasswordIssues(s, path) == [] ==> PasswordIssues(s, path) == []
  {
  }

  /** The converse fails: "Passw0rd" registers but is refused as a new password. */
  lemma UpdatePasswordStrictlyStricter()
    ensures PasswordIssues("Passw0rd", []) == []
    ensures UpdatePasswordIssues("Passw0rd", []) != []
  {
    var s := "Passw0rd";
    assert IsAsciiUpper(s[0]) && IsAsciiLower(s[1]) && IsAsciiDigit(s[5]);
    assert forall i | 0 <= i < |s| :: !IsSpecial(s[i]);
  }

  /** An email is accepted iff the format check holds and it has 5 to 50 characters. */
  lemma EmailAccepted(isEmail: string -> bool, s: string, path: seq<string>)
    ensures EmailIssues(isEmail, s, path) == [] <==> isEmail(s) && 5 <= |s| <= 50
  {
  }

  /** Login needs only a valid email and a non-empty password. */
  lemma LoginAccepted(isEmail: string -> bool, email: string, password: string)
    ensures LoginIssues(isEmail, email, password) == [] <==> EmailIssues(isEmail, email, ["email"]) == [] && password != []
  {
  }

  /** Registration is accepted iff every field is and the confirmation equals the password. */
  lemma RegisterAccepted(isEmail: string -> bool, f: RegisterForm)
    ensures RegisterIssues(isEmail, f) == [] <==>
      && UsernameIssues(f.username, ["username"]) == []
      && EmailIssues(isEmail, f.email, ["email"]) == []
      && PasswordIssues(f.password, ["password"]) == []
      && f.password == f.confirmPassword
  {
  }

  /** A mismatch is always reported, last, under `confirmPassword`, whatever else is wrong. */
  lemma RegisterMismatchReported(isEmail: string -> bool, f: RegisterForm)
    requires f.password != f.confirmPassword
    ensures var issues := RegisterIssues(isEmail, f);
      |issues| > 0 && issues[|issues| - 1] == Issue(["confirmPassword"], Mismatch)
  {
  }

  /** The empty profile form is accepted: every field is optional. */
  lemma EmptyProfileAccepted(isEmail: string -> bool)
    ensures ProfileUpdateIssues(isEmail, ProfileForm(None, None, None, None, None)) == []
  {
  }

  /** Every issue in `issues` is reported at `path`. */
  predicate AllAt(issues: seq<Issue>, path: seq<string>) {
    forall k | 0 <= k < |issues| :: issues[k].path == path
  }

  /** Each field schema reports its issues at the path it is given. */
  lemma FieldSchemasStayAtPath(isEmail: string -> bool, s: string, path: seq<string>)
    ensures AllAt(UsernameIssues(s, path), path)
    ensures AllAt(EmailIssues(isEmail, s, path), path)
    ensures AllAt(UpdatePasswordIssues(s, path), path)
    ensures AllAt(BioIssues(s, path), path)
  {
  }

  lemma NotAtOtherPath(issues: seq<Issue>, path: seq<string>, target: Issue)
    requires AllAt(issues, path) && target.path != path
    ensures target !in issues
  {
  }

  /**
   * The mismatch issue appears exactly when a non-empty password is given and
   * the confirmation differs from it; an empty or absent password needs no confirmation.
   */
  lemma ProfileMismatchIff(isEmail: string -> bool, f: ProfileForm)
    ensures Issue(["confirmPassword"], Mismatch) in ProfileUpdateIssues(isEmail, f) <==>
      f.password.Some? && |f.password.value| > 0 && f.confirmPassword != f.password
  {
    var u := if f.username.Some? then UsernameIssues(f.username.value, ["username"]) else [];
    var e := if f.email.Some? then EmailIssues(isEmail, f.email.value, ["email"]) else [];
    var p := if f.password.Some? then UpdatePasswordIssues(f.password.value, ["password"]) else [];
    var b := if f.bio.Some? then BioIssues(f.bio.value, ["bio"]) else [];
    if f.username.Some? { FieldSchemasStayAtPath(isEmail, f.username.value, ["username"]); }
    if f.email.Some? { FieldSchemasStayAtPath(isEmail, f.email.value, ["email"]); }
    if f.password.Some? { FieldSchemasStayAtPath(isEmail, f.password.value, ["password"]); }
    if f.bio.Some? { FieldSchemasStayAtPath(isEmail, f.bio.value, ["bio"]); }
    var target := Issue(["confirmPassword"], Mismatch);
    NotAtOtherPath(u, ["username"], target);
    NotAtOtherPath(e, ["email"], target);
    NotAtOtherPath(p, ["password"], target);
    NotAtOtherPath(b, ["bio"], target);
    assert ProfileFieldIssues(isEmail, f) == u + e + p + b;
    assert target !in u + e + p + b;
  }

  /** A bio is accepted iff it has at most 500 characters. */
  lemma BioAccepted(s: string)
    ensures BioIssues(s, ["bio"]) == [] <==> |s| <= 500
  {
  }
}
