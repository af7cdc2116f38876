# Session security, data commands and form validation of a NestJS/GraphQL blog

This project models the core of a blog with a NestJS/GraphQL backend over MySQL (through TypeORM) and a React frontend. It covers three parts.

**Session-security backend.**
- The security configuration is a function of the environment.
- The anti-forgery gate (`CsrfMiddleware.use`) is an ordered chain of tests:
  1. safe methods pass;
  2. three substring exemptions on the query text pass;
  3. a header token, or failing that the cookie token, must be present and must verify.
- The token service issues, verifies and rotates typed access and refresh tokens. Each kind has its own secret and lifetime.
- The passport strategy reads the access cookie first and falls back to the bearer header.
- The login and register commands.
- The resolver methods that write and clear cookies. A `Response` object records every `Set-Cookie` instruction in order. `Http.Apply` folds those instructions over a browser cookie jar keyed by name, domain and path.

**Data-layer command handlers** for tags, posts and users. They run against a `Db` class whose fields are the four tables. They enforce:
- the unique indexes on username, email, tag name and profile owner;
- the foreign keys created by the migrations.

Every handler either rejects and changes nothing, or changes exactly the rows it names.

**The frontend zod schemas and the `useFormValidation` hook.**
- A schema is a function from form values to the ordered list of issues zod reports.
- The hook is a class whose `errors` map is updated by the four operations.

Cryptography is symbolic:
- A JWT records its secret, payload, issue time and expiry. Verifying it compares secrets and checks `now < exp`.
- An anti-forgery token records the secret it was made from.
- A bcrypt digest records the plain password and the salt. Comparing looks only at the first 72 bytes of each password's UTF-8 encoding, as bcrypt does.

The clock (`now`), the random salts and the environment are parameters.

Some behaviours of the code are captured as they are written:
- The anti-forgery exemptions are plain substring tests. A mutation whose text mentions "login" anywhere passes with no token (`CsrfMiddleware.SubstringExemptionAdmitsAnyMutation`).
- The duplicate checks of `updateProfile` also filter on `id = userId`, so they can never fire (`AuthService.DuplicateChecksNeverFire`). Only the database's unique index rejects a taken username or email.
- `UpdateUserHandler` looks the user up by `command.userId`, not by `command.id`. It does not trim or validate.
- A non-empty access cookie shadows a valid bearer header (`JwtStrategy.CookieShadowsBearer`).
- Two foreign keys on `users.id` use ON DELETE NO ACTION: the one from `user_profiles` and the one from `posts`. Registration always creates a profile. So when the delete handler is called with the user's own id as the requester, deleting a registered user fails with a foreign-key violation (`DeleteUserHandler.Execute`, `DeleteUserHandler.RegisterThenDelete`). Through the user resolver the requester is never set, so the delete is refused earlier (see "Left out").
- bcrypt ignores everything after the first 72 bytes of a password, and the backend accepts passwords of up to 100 characters. Two long passwords that share their first 72 bytes match the same digest (`Crypto.LongPasswordsCollide`).
- A tag name of blanks passes the frontend schema (`TagValidator.BlankNamePassesForm`). The create handler stores it as given; it trims to the empty name that the update handler refuses.

Where the code and its written description differ, the model follows the code:
- Object refinements run after continuable string-check issues. So the registration mismatch issue comes after the field issues.
- An empty `tagIds` list leaves a post's tags as they were on update.

## Model

| member | source | states |
|---|---|---|
| SecurityConfig.Security | backend/src/config/security.config.ts:1-51 | both cookie option sets are secure exactly outside development; only the token cookies are httpOnly; sameSite, path and domain agree; development fixes lifetimes 1h/30d and both cookie ages at 30 days (2592000000 ms) and has no domain; production reads the overrides with defaults 15m/7d, 7 days and 1 day, and the DOMAIN variable; the ignore list is GET, HEAD, OPTIONS |
| SecurityConfig.Defaults | backend/src/config/security.config.ts:17-23 | with no overrides the cookie names are accessToken, refreshToken, csrfToken, sameSite is lax and the path is / |
| SecurityConfig.EmptyOverrideIgnored | backend/src/config/security.config.ts:23 | an override set to the empty string falls back to the default, as `||` does |
| Crypto.JwtSign | backend/src/auth/service/auth.service.ts:45-55 | a signed token carries the payload and the secret, is issued now and expires after exactly the lifetime |
| Crypto.JwtVerify | backend/src/auth/jwt/jwt.strategy.ts:25-26 | verification succeeds iff the value is a token signed with that secret and now is before its expiry, and then yields its payload |
| Crypto.JwtRoundTrip | backend/src/auth/service/auth.service.ts:93-103 | a token verifies under its own secret exactly until its lifetime elapses |
| Crypto.JwtWrongSecret | backend/src/auth/service/auth.service.ts:72-75 | a token never verifies under another secret |
| Crypto.CsrfRoundTrip | backend/src/middleware/csrf.middleware.ts:48-55 | a token made from a secret verifies against it and against no other secret |
| Crypto.BcryptKey | backend/src/auth/service/auth.service.ts:31-41 | the bytes bcrypt hashes: the whole UTF-8 encoding when it has at most 72 bytes, otherwise its first 72 bytes |
| Crypto.Utf8Injective | backend/src/auth/service/auth.service.ts:31 | two strings with the same UTF-8 bytes are the same string |
| Crypto.HashCompare | backend/src/auth/service/auth.service.ts:28-42 | a digest matches the password it was made from, and no other password when both encode to at most 72 bytes |
| Crypto.SharedPrefixCollides | backend/src/auth/service/auth.service.ts:31-41 | passwords that agree on a prefix of 72 or more bytes match each other's digests, whatever follows |
| Crypto.LongPasswordsCollide | backend/src/auth/service/auth.service.ts:31-41 | "Aa1" plus 69 x's plus "y" (73 characters) and the same text ending in "z" differ, yet one's digest accepts the other |
| CsrfMiddleware.PresentedToken | backend/src/middleware/csrf.middleware.ts:33 | the header token when it is non-empty, otherwise the cookie value, possibly absent |
| CsrfMiddleware.Use | backend/src/middleware/csrf.middleware.ts:10-45 | exempt requests pass whatever they carry; any other passes iff the presented token is non-empty and verifies; no token gives "CSRF token missing", a bad one "Invalid CSRF token"; no other outcome exists |
| CsrfMiddleware.GenerateToken | backend/src/middleware/csrf.middleware.ts:48-50 | a generated token is non-empty and passes the gate's own verification |
| CsrfMiddleware.SafeMethodsPass | backend/src/middleware/csrf.middleware.ts:12-14 | under the security configuration GET, HEAD and OPTIONS pass with no token, and exemption holds iff the method is safe or the query is exempt |
| CsrfMiddleware.ExemptionIgnoresTokens | backend/src/middleware/csrf.middleware.ts:12-30 | an exempt request passes whatever headers and cookies it carries |
| CsrfMiddleware.GeneratedHeaderTokenPasses | backend/src/middleware/csrf.middleware.ts:33-44 | a header holding a generated token passes whatever the method, body or cookies |
| CsrfMiddleware.HeaderShadowsCookie | backend/src/middleware/csrf.middleware.ts:33-42 | a forged non-empty header is rejected as invalid even when the cookie holds a good token |
| CsrfMiddleware.EmptyHeaderFallsBackToCookie | backend/src/middleware/csrf.middleware.ts:33 | an empty header falls back to the cookie |
| CsrfMiddleware.SubstringExemptionAdmitsAnyMutation | backend/src/middleware/csrf.middleware.ts:22-25 | a deletePost mutation mentioning "login" in a comment passes with no token |
| AuthService.ValidateUser | backend/src/auth/service/auth.service.ts:28-37 | the user is returned iff a user with exactly that email has a digest matching the password; it is the stored row |
| AuthService.HashPassword | backend/src/auth/service/auth.service.ts:40-42 | a cost-10 digest that matches the password, and no other password when both encode to at most 72 bytes |
| AuthService.IssueAccessToken | backend/src/auth/service/auth.service.ts:45-55 | claims {username, sub = id, type access}, the access secret, expiry now plus the access lifetime |
| AuthService.IssueRefreshToken | backend/src/auth/service/auth.service.ts:58-68 | the same claims typed refresh, the refresh secret and the refresh lifetime |
| AuthService.IssueJwt | backend/src/auth/service/auth.service.ts:110-112 | the same token as an access token |
| AuthService.VerifyAccessToken | backend/src/auth/service/auth.service.ts:93-107 | success iff the token verifies under the access secret before expiry and is typed access, yielding its payload; every failure gives "Invalid access token" |
| AuthService.RefreshAccessToken | backend/src/auth/service/auth.service.ts:71-90 | success iff the token verifies under the refresh secret, is typed refresh and its user exists, yielding a fresh access token for the stored user; every failure gives "Invalid refresh token" |
| AuthService.GetUserWithProfile | backend/src/auth/service/auth.service.ts:190-200 | the stored user with its profile row when one exists, otherwise "User not found" |
| AuthService.AccessRoundTrip | backend/src/auth/service/auth.service.ts:45-55 | before expiry an issued access token verifies and names the user's id and username |
| AuthService.AccessExpires | backend/src/auth/service/auth.service.ts:93-107 | after its lifetime an access token is refused with the uniform error |
| AuthService.RefreshIsNotAccess | backend/src/auth/service/auth.service.ts:99-101 | a refresh token is never accepted as an access token, even with shared secrets |
| AuthService.AccessIsNotRefresh | backend/src/auth/service/auth.service.ts:77-79 | an access token never rotates |
| AuthService.RefreshThenVerify | backend/src/auth/service/auth.service.ts:71-90 | a live refresh token of a stored user rotates into an access token that verifies for the same id |
| AuthService.RefreshForMissingUser | backend/src/auth/service/auth.service.ts:81-84 | a refresh token whose user is gone is refused |
| AuthService.StoredBio | backend/src/auth/service/auth.service.ts:166-170 | an empty bio becomes undefined (no value to write); any other is written as given |
| AuthService.DuplicateChecksNeverFire | backend/src/auth/service/auth.service.ts:127-143 | the username and email duplicate lookups, filtered on the user's own id, never report a conflict |
| AuthService.EditedUserFields | backend/src/auth/service/auth.service.ts:127-151 | the id never changes; username and email change only when non-blank, stored trimmed; a non-blank password is stored as a digest that matches its trimmed text, and no other text when both encode to at most 72 bytes |
| AuthService.BlankFieldsChangeNothing | backend/src/auth/service/auth.service.ts:127-151 | a whitespace-only field leaves the row as it was |
| AuthService.UpdateProfile | backend/src/auth/service/auth.service.ts:115-187 | a missing user gives "User not found" and no change; otherwise the edited row is saved, failing only on a unique index held by another user; a given non-empty bio is written to the user's profile, created when absent; an empty one creates a profile with no bio when absent and otherwise leaves the profile as it was, since the save skips undefined columns; tags and posts never change |
| JwtStrategy.BearerToken | backend/src/auth/jwt/jwt.strategy.ts:23 | the Authorization credentials iff the scheme is "bearer" in any letter case |
| JwtStrategy.ExtractToken | backend/src/auth/jwt/jwt.strategy.ts:18-24 | the access cookie when non-empty, otherwise the bearer token |
| JwtStrategy.Validate | backend/src/auth/jwt/jwt.strategy.ts:31-40 | a user iff the payload is typed access and its sub is a stored user, and then exactly that user |
| JwtStrategy.Authenticate | backend/src/auth/jwt/jwt.strategy.ts:16-40 | a principal iff a token is extracted, verifies under the access secret before expiry and validates; otherwise "Unauthorized" |
| JwtStrategy.AgreesWithVerifyAccessToken | backend/src/auth/jwt/jwt.strategy.ts:18-40 | the guard accepts exactly the tokens the service's access check accepts whose user still exists |
| JwtStrategy.RefreshTokenRejected | backend/src/auth/jwt/jwt.strategy.ts:32-34 | a refresh token never yields a principal |
| JwtStrategy.CookieShadowsBearer | backend/src/auth/jwt/jwt.strategy.ts:19-22 | a stale non-empty access cookie locks out a valid bearer header |
| JwtStrategy.BearerAuthenticates | backend/src/auth/jwt/jwt.strategy.ts:23-40 | with no cookie, a live access token in a bearer header of any case authenticates its user |
| LoginHandler.Execute | backend/src/auth/commands/login.handler.ts:13-22 | success iff the credentials hold; failure is "Invalid credentials" with no token; success pairs an access and a refresh token for the checked user |
| LoginHandler.FailuresIndistinguishable | backend/src/auth/commands/login.handler.ts:15-16 | an unknown email and a wrong password give the same failure |
| LoginHandler.LoginTokensNameTheUser | backend/src/auth/commands/login.handler.ts:18-21 | both tokens name the returned user, and the access token verifies for it until expiry |
| RegisterHandler.Execute | backend/src/auth/commands/register.handler.ts:21-43 | a taken username gives "Username already exists" before the email check, a taken email "Email already exists", and neither changes anything; success adds exactly one user with a digest of the password and one profile with no bio, and returns the user |
| RegisterHandler.RegisteredUserCanLogIn | backend/src/auth/commands/register.handler.ts:31-33 | the stored user logs in with exactly the passwords whose first 72 UTF-8 bytes are those of the registered password: the registered one, and no other when both encode to at most 72 bytes |
| AuthResolver.LoginCookieAttributes | backend/src/auth/auth.resolver.ts:67-86 | login writes three cookies: access and refresh httpOnly, the anti-forgery cookie readable by scripts, all with the configured secure flag, path and domain |
| AuthResolver.LoginCookieLifetimes | backend/src/auth/auth.resolver.ts:68-86 | development 1 h, 30 d, 30 d; production 15 min, 7 d, 24 h |
| AuthResolver.Login | backend/src/auth/auth.resolver.ts:61-93 | bad credentials propagate with no cookie written; otherwise the three cookies carry the command's tokens and a generated anti-forgery token, and the same tokens are returned with the user |
| AuthResolver.RefreshToken | backend/src/auth/auth.resolver.ts:97-118 | no non-empty refresh cookie gives "No refresh token provided" with no cookie written; a refused rotation propagates; success rewrites only the access cookie with a 15-minute maxAge and returns the token |
| AuthResolver.GetCsrfToken | backend/src/auth/auth.resolver.ts:122-131 | writes only the anti-forgery cookie and returns the value it wrote, which verifies |
| AuthResolver.Logout | backend/src/auth/auth.resolver.ts:135-141 | clears the three configured names without options and answers true |
| AuthResolver.Profile | backend/src/auth/auth.resolver.ts:146-149 | the guard's user reloaded with its profile, or "User not found" |
| AuthResolver.RefreshReplacesAccessCookie | backend/src/auth/auth.resolver.ts:105-113 | after a login, a successful refresh leaves the browser holding the rotated access token, with the refresh and CSRF cookies as login set them, when the three names differ |
| AuthResolver.LogoutIdempotent | backend/src/auth/auth.resolver.ts:135-141 | logging out twice leaves the browser jar as logging out once |
| AuthResolver.LoginCsrfCookiePasses | backend/src/auth/auth.resolver.ts:83-86 | the anti-forgery cookie written at login passes the gate later with no header |
| AuthResolver.LogoutClearsHostCookies | backend/src/auth/auth.resolver.ts:135-141 | with no cookie domain and path /, logout removes all three login cookies |
| AuthResolver.LogoutLeavesScopedCookies | backend/src/auth/auth.resolver.ts:135-141 | with a cookie domain or a path other than /, all three login cookies survive logout |
| AuthResolver.ScopedLogout | backend/src/auth/auth.resolver.ts:135-141 | the corrected logout clears each cookie with the options it was set with |
| AuthResolver.ScopedLogoutClearsLogin | backend/src/auth/auth.resolver.ts:135-141 | in every environment the corrected logout removes all three login cookies and is idempotent |
| Http.Response.Cookie | backend/src/auth/auth.resolver.ts:71-86 | `res.cookie` appends one set instruction to the response |
| Http.Response.ClearCookie | backend/src/auth/auth.resolver.ts:137-139 | `res.clearCookie(name)` appends a clear for that name with no domain and path / |
| Http.ApplyUntouched | backend/src/auth/auth.resolver.ts:135-141 | a cookie no instruction addresses keeps its value |
| Http.ApplyLast | backend/src/auth/auth.resolver.ts:105-113 | the last instruction addressing a cookie decides it in the browser: a set leaves its value, a clear removes it |
| Http.ClearsIdempotent | backend/src/auth/auth.resolver.ts:135-141 | applying the same clears twice equals applying them once |
| Store.Db.InsertUser | backend/src/database/migrations/1753720126276-InitSchema.ts:9 | a taken username or email fails with the violated index and no change; otherwise exactly one row is added under the next id |
| Store.Db.SaveUser | backend/src/users/entities/user.entity.ts:20-26 | saving a row fails on a username or email held by another row, otherwise replaces exactly that row |
| Store.Db.DeleteUser | backend/src/database/migrations/1753720126277-AddUserProfile.ts:8 | a user referenced by a profile or a post cannot be deleted; otherwise the row is removed and the count of removed rows returned |
| Store.Db.DeleteTag | backend/src/database/migrations/1753720126276-InitSchema.ts:13 | a tag linked from a post cannot be deleted; otherwise the row is removed |
| Store.Db.DeletePost | backend/src/database/migrations/1753720126276-InitSchema.ts:12 | the post and its tag links go together |
| Store.UpsertBio | backend/src/auth/service/auth.service.ts:157-174 | a missing profile is created under a fresh id with the bio, possibly none; an existing one keeps its id and gets the bio when one is given, and keeps its old bio when none is; no other row changes |
| Store.UndefinedBioKeepsProfile | backend/src/auth/service/auth.service.ts:168-173 | saving an undefined bio over an existing profile leaves the profile table unchanged |
| CreateTagHandler.Execute | backend/src/tags/commands/create-tag.handler.ts:15-27 | fails iff a tag has exactly that name, changing nothing; otherwise adds exactly one tag with the name as given and returns it |
| CreateTagHandler.NamesStayUnique | backend/src/tags/commands/create-tag.handler.ts:17-26 | after either outcome tag names are unique and the name is present |
| UpdateTagHandler.Execute | backend/src/tags/commands/update-tag.handler.ts:15-64 | checks id, blankness, trimmed length, existence, then a duplicate held by another tag, in that order; success renames only that tag to the trimmed name |
| UpdateTagHandler.RenameToOwnName | backend/src/tags/commands/update-tag.handler.ts:41-49 | renaming a tag to its own name is never a duplicate |
| UpdateTagHandler.BlankNameIsEmpty | backend/src/tags/commands/update-tag.handler.ts:23-25 | a whitespace-only name trims to empty |
| UpdateTagHandler.StoredNameIsTrimmed | backend/src/tags/commands/update-tag.handler.ts:52 | the stored name has no surrounding whitespace and trimming it again changes nothing |
| DeleteTagHandler.Execute | backend/src/tags/commands/delete-tag.handler.ts:15-36 | a missing tag gives not found; a tag used by posts is refused with its name and use count; otherwise exactly that tag is removed and the result is true |
| DeleteTagHandler.NoDanglingLinks | backend/src/tags/commands/delete-tag.handler.ts:27-32 | after a permitted delete every remaining link points at a remaining tag |
| CreatePostHandler.ResolvedTags | backend/src/posts/commands/create-post.handler.ts:43-53 | the tags are exactly the existing tags whose ids are requested |
| CreatePostHandler.Execute | backend/src/posts/commands/create-post.handler.ts:22-64 | a missing author fails and saves nothing; otherwise exactly one post with the given title and content, the author and the resolved tags is added |
| CreatePostHandler.NoIdsNoTags | backend/src/posts/commands/create-post.handler.ts:43-45 | an absent or empty id list gives no tags |
| CreatePostHandler.UnknownIdsIgnored | backend/src/posts/commands/create-post.handler.ts:44-53 | unknown ids change nothing and raise no error |
| UpdatePostHandler.Execute | backend/src/posts/commands/update-post.handler.ts:22-61 | a missing post gives not found, another author "You can only update your own posts", neither changing anything; success replaces exactly that post with its edit |
| UpdatePostHandler.EditedPostFields | backend/src/posts/commands/update-post.handler.ts:42-57 | id and author never change; given title and content overwrite; tags are replaced by the resolved tags only for a non-empty list |
| UpdatePostHandler.OrEmpty | backend/src/posts/post.resolver.ts:68-69 | the resolver's `?? ''` always sends a value, the given one when there is one |
| UpdatePostHandler.OmittedFieldsBecomeEmpty | backend/src/posts/post.resolver.ts:68-69 | through the resolver an omitted title or content becomes empty, so the old text survives only when it is sent again or was already empty |
| DeletePostHandler.Execute | backend/src/posts/commands/delete-post.handler.ts:16-49 | checks post id, user id, existence, then ownership, in that order, each failure changing nothing; success removes exactly that post and answers true |
| UpdateUserHandler.Execute | backend/src/users/commands/update-user.handler.ts:20-58 | the row found by userId is edited; a missing one gives "User not found"; saving fails only on a username held by another user; a given non-empty bio is written to the profile, created when absent; an empty one creates a profile with no bio when absent and otherwise changes nothing |
| UpdateUserHandler.EditedUserFields | backend/src/users/commands/update-user.handler.ts:25-32 | id and email never change; a given username is stored as is; a given password is stored as a digest that matches exactly that text, untrimmed, and no other text when both encode to at most 72 bytes |
| UpdateUserHandler.PasswordNotTrimmed | backend/src/users/commands/update-user.handler.ts:29-32 | a padded password does not match its unpadded text |
| DeleteUserHandler.Execute | backend/src/users/commands/delete-user.handler.ts:15-21 | a missing user gives "User not found", another requester "You can only delete your own account"; a referenced user fails on the foreign key; success removes only that row and answers true |
| DeleteUserHandler.RegisterThenDelete | backend/src/users/commands/delete-user.handler.ts:15-21 | after a successful registration, the new user deleting its own account is refused with the `user_profiles` foreign-key violation and the user stays in the table; a refused registration changes no user or profile |
| AuthValidator.UsernameAccepted | frontend/src/validators/auth.validator.ts:3-11 | a username is accepted iff it has 3 to 20 characters, each a letter, digit, `_` or `-` |
| AuthValidator.PasswordAccepted | frontend/src/validators/auth.validator.ts:4-25 | a password is accepted iff it has at least 8 characters with no line break, an uppercase letter, a lowercase letter and a digit |
| AuthValidator.UpdatePasswordAccepted | frontend/src/validators/auth.validator.ts:5-33 | an update password also needs a character that is not an ASCII letter or digit |
| AuthValidator.UpdatePasswordStricter | frontend/src/validators/auth.validator.ts:19-33 | every accepted update password is an accepted register password |
| AuthValidator.UpdatePasswordStrictlyStricter | frontend/src/validators/auth.validator.ts:19-33 | "Passw0rd" registers but is refused as an update password |
| AuthValidator.EmailAccepted | frontend/src/validators/auth.validator.ts:13-17 | an email is accepted iff the format check holds and it has 5 to 50 characters |
| AuthValidator.LoginAccepted | frontend/src/validators/auth.validator.ts:35-38 | login needs a valid email and a non-empty password |
| AuthValidator.RegisterAccepted | frontend/src/validators/auth.validator.ts:40-48 | registration is accepted iff every field is and the confirmation equals the password |
| AuthValidator.RegisterMismatchReported | frontend/src/validators/auth.validator.ts:45-48 | a mismatch is always reported last, under confirmPassword |
| AuthValidator.EmptyProfileAccepted | frontend/src/validators/auth.validator.ts:55-60 | the profile form with no field set is accepted |
| AuthValidator.ProfileMismatchIff | frontend/src/validators/auth.validator.ts:61-69 | the mismatch issue appears iff a non-empty password is given and the confirmation differs |
| AuthValidator.BioAccepted | frontend/src/validators/auth.validator.ts:50-53 | a bio is accepted iff it has at most 500 characters |
| TagValidator.TagNameAccepted | frontend/src/validators/tag.validator.ts:3-7 | a tag name is accepted iff it has 2 to 50 characters, each a letter, digit, whitespace, `_` or `-` |
| TagValidator.UpdateTagAccepted | frontend/src/validators/tag.validator.ts:9-16 | the update form is accepted iff the name is omitted or has 2 to 50 letters, digits, whitespace, `_` or `-`, whatever the id; every issue is on the name |
| TagValidator.BlankNamePassesForm | frontend/src/validators/tag.validator.ts:3-7 | two spaces pass the form although they trim to empty |
| PostValidator.PostAccepted | frontend/src/validators/post.validator.ts:3-21 | a post form is accepted iff the title has 5 to 100 characters, the content 10 to 5000, and a tag is chosen |
| PostValidator.EmptyTitleReportedTwice | frontend/src/validators/post.validator.ts:3-8 | an empty title gives the empty-title issue then the too-short issue, first |
| PostValidator.UpdatePostAccepted | frontend/src/validators/post.validator.ts:23-25 | the update form is accepted iff the title has 5 to 100 characters, the content 10 to 5000 and some tag is chosen, whatever the id |
| UseFormValidation.ErrorsOfKeys | frontend/src/validators/hooks/useFormValidation.ts:20-23 | the error map has the dot-joined path of every issue as a key and no other key |
| UseFormValidation.ErrorsOfEmptyIff | frontend/src/validators/hooks/useFormValidation.ts:18-29 | the error map is empty iff there was no issue |
| UseFormValidation.LastIssueWins | frontend/src/validators/hooks/useFormValidation.ts:20-23 | a key holds the message of the last issue filed under it |
| UseFormValidation.FormValidation.ValidateForm | frontend/src/validators/hooks/useFormValidation.ts:15-30 | answers true iff there is no issue, and replaces the whole map by the map built from the issues |
| UseFormValidation.FormValidation.ValidateField | frontend/src/validators/hooks/useFormValidation.ts:32-56 | an unknown field passes with no change; a valid value removes only that key; an invalid one sets only that key, to the first issue's message |
| UseFormValidation.FormValidation.ClearErrors | frontend/src/validators/hooks/useFormValidation.ts:58-60 | the map becomes empty |
| UseFormValidation.FormValidation.ClearFieldError | frontend/src/validators/hooks/useFormValidation.ts:62-68 | only the given key is removed, so a second call changes nothing |
| UseFormValidation.FormValidationForgetsField | frontend/src/validators/hooks/useFormValidation.ts:19-24 | a form validation with no issue for a field leaves the field with no error |
| Text.TrimEmptyIffAllWhitespace | backend/src/tags/commands/update-tag.handler.ts:23-25 | `trim()` gives the empty string iff every character is whitespace |
| Text.TrimIdempotent | backend/src/tags/commands/update-tag.handler.ts:52 | trimming twice equals trimming once |

## Left out

- Cryptography is not computed. bcrypt, JWT signing and the `csrf` library are symbolic values, with the contracts listed above. Of bcrypt's input handling only the 72-byte truncation of the UTF-8 encoding is modelled; JavaScript strings with lone UTF-16 surrogates cannot be written as Dafny strings.
- `process.env`, the clock and randomness are parameters. Lifetime labels such as '15m' are not parsed. Numeric overrides are already naturals, so `parseInt` yielding NaN is not modelled.
- Email format is a parameter (`isEmail`).
- zod's type errors for a missing or non-string field are not modelled. Form values are strings, numbers or lists of numbers.
- The `val !== null` refinements of the post schemas always hold on a string, so they are not written out.
- `validateField`'s branch for an exception other than a `ZodError` is not modelled, because a zod parse throws only `ZodError`.
- React state updates are applied at once, not at the next render.
- The DTO validation pipe (`*.input.ts`) is not modelled. Neither are the post, tag and user resolvers, which only build commands and dispatch them; the argument mappings that matter are noted on the handler lines below.
- DeleteUserHandler.Execute: the requester is an `Option<int>` argument. The user resolver (backend/src/users/user.resolver.ts:43) passes `user.userId`, a property the User entity returned by the strategy lacks, so it is always undefined: every delete made through the API is refused with "You can only delete your own account" (or "User not found"). The model covers the handler for any requester, including the `None` the resolver supplies.
- UpdateUserHandler.Execute: `userId` is a number. The user resolver passes `user.id` as the bio and no `userId`, so TypeORM's unfiltered lookup of an undefined id is not modelled.
- DeletePostHandler.Execute: `userId` is an optional number. The post resolver's own argument mapping is not modelled.
- TypeORM's `save` skips undefined properties. Where a handler can set a column to undefined, the model writes out the skip: the profile bio in `Store.UpsertBio`. Elsewhere the model passes each handler's actual new row.
- Not modelled: column collation (case-insensitive comparison in MySQL), the varchar(255) column limits, UTF-16 string lengths, and gaps in AUTO_INCREMENT after a failed insert.
- Branches that cannot be reached are left out. They are "Failed to save tag update", "Failed to delete post" and "User not found after update": each follows a save or delete that the model shows always succeeds or has already checked.
- Concurrency and async ordering are not modelled, nor the check-then-insert race in registration and tag creation. Each handler is one atomic step.
- Logging is not modelled, nor HTTP headers, CORS, the route exclusions of the middleware, or module wiring.
- AuthService.UpdateProfile: the row loaded back after the save is the saved row itself. The reload query is not modelled separately.

## Findings

| source | as written | input that shows it | evidently intended | confidence | as-written member | corrected member |
|---|---|---|---|---|---|---|
| backend/src/auth/auth.resolver.ts:135-141 | `logout` calls `clearCookie(name)` with no options, which addresses the cookie with no domain and path / | production with DOMAIN set, or COOKIE_PATH other than /: the login cookies were set with that domain or path, so all three survive logout | clear each cookie with `{ domain, path }` as it was set (not the whole options object, whose `maxAge` Express 4 would turn into a new expiry), so that logout ends the session in every environment | high, not executed | AuthResolver.LogoutLeavesScopedCookies | AuthResolver.ScopedLogoutClearsLogin |
