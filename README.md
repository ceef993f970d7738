# Reported users backend: authorization and visibility

This project is a Dafny model of the service layer of a small ASP.NET backend. Users register and log in. Authenticated users create, read, update, soft-delete and search "reported user" records. An admin role can activate draft records and list all drafts. The model covers four service classes:

- `ReportedUserService`: the record operations.
- `UserService`: the caller's own account.
- `AuthService`: registration, login and the token's claims.
- `UserContextAccessor`: how a request's principal becomes a caller id.

The document database is the class `Store.Database`. Its two collections are sequences in natural (insertion) order, and every service holds a reference to the same instance. The MongoDB calls map onto three functions in `Queries`:

| MongoDB call | model |
|---|---|
| `Find(filter).ToList()` | `Filter` |
| `Find(filter).FirstOrDefault()` | `First` (the first match) |
| `UpdateOne(filter, …)` | writes the document at `FirstIndex` |
| `DeleteOne(filter)` | removes the document at `FirstIndex` |

How the model is organised:

- **The caller.** The caller is the `Option<string>` that `UserContext.GetCurrentUserId` returns. The record and account operations begin with the `string.IsNullOrEmpty(currentUserId)` guard, which is `Models.Authenticated`. There are two exceptions: the admin status change and the drafts list skip that guard and go straight to the admin lookup, `Store.CallerIsAdmin`. Registration and login read no caller at all.
- **Exceptions.** A thrown exception becomes an `Err` of `Models.Error`:
  - `Unauthorized(…)` stands for `UnauthorizedAccessException`.
  - `Failure(…)` stands for any other exception.
- **Write methods.** Each write is a method of its service class with `modifies db`. Its postcondition gives the whole new state of both collections. That state is expressed through a pure decision function:
  - `ReportedUsers.AuthorizeStatusChange`, `AuthorizeUpdate`, `AuthorizeDelete`
  - `Users.AuthorizeSelf`

  The function returns either the error or the position of the document to write, and it replays the C# method's checks in their order.
- **Reads.** The read operations are functions of the collections.
- **Cross-operation properties.** `ReportedUserProperties` holds the lemmas that relate several operations.
- **Client.** `Scenario` is a client that replays registration, login, creation and activation through the methods' contracts only.

The model keeps these notable behaviours of the code:

- **Admin status change.** It writes any status it is given, including `Draft`, so it can also move a record back from `Active` to `Draft`.
- **Drafts list and status change.** A caller who is not an admin is refused with `UnauthorizedAccessException` (HTTP 401), the same kind as an unauthenticated caller.
- **Soft delete and `updatedAt`.** Soft delete sets only `Deleted` and leaves `UpdatedAt` as it was, unlike every other write.
- **The `deleted` flag.** It is not one-way. An update writes the request's `Deleted`, which defaults to `false`, so an update from the owner or an admin restores a soft-deleted record.
- **Admins and updates.** An admin may update (but not soft-delete or read by id) a record of any owner.
- **Account update and the password.** The account update never changes the stored password. `UpdateUser` builds the `Set(u => u.Password, …)` definition, but it does not assign the result back into `update`.
- **Read by id.** It does not consult `Deleted`.
- **Duplicate emails.** Registration refuses a taken email, but the account update does not check it, so two users can end up with one email. Login then checks only the first of them.

## Model

| member | source | states |
|---|---|---|
| Models.HashPassword | Services/AuthService.cs:33 | the hash records the salt it was made with |
| Models.VerifyPassword | Services/AuthService.cs:66 | a password verifies against a hash exactly when the hash is that password's hash under some salt |
| Models.VerifyPasswordIff | Services/AuthService.cs:66 | a password verifies against a stored hash exactly when it is the password the hash was made from |
| Models.ToResponse | Services/UserService.cs:33-43 | id, name and email are copied; the response's admin flag is set exactly when the operation shows it and the user is an admin; no password field exists |
| Queries.Filter | Services/ReportedUserService.cs:83 | a `Find(...).ToList()`: at most the input's length, and an element is in the result exactly when it is stored and matches |
| Queries.FilterAppend | Services/ReportedUserService.cs:149 | filtering after an insert is filtering before, plus the new document if it matches |
| Queries.FilterNarrows | Services/ReportedUserService.cs:263 | and-ing a further condition onto a filter is filtering the result of the first filter |
| Queries.FilterPointwise | Services/ReportedUserService.cs:258-264 | two filters that agree on every stored document give the same list |
| Queries.FirstIndex | Services/ReportedUserService.cs:203-205 | the position `UpdateOne` writes: an in-range match with no earlier match; none exactly when nothing matches |
| Queries.First | Services/ReportedUserService.cs:105-107 | `FirstOrDefault`: the document at a position that matches when no earlier one does; null exactly when nothing matches |
| Queries.FirstIndexAppend | Services/ReportedUserService.cs:149 | after an insert into a collection where nothing matched, the first match is the inserted document |
| Queries.FirstIndexPointwise | Services/ReportedUserService.cs:235 | a write that keeps every document's match status keeps the first match |
| UserContext.FirstClaimUnique | Services/UserContextAccessor.cs:19-20 | the first claim of a type carries one value only, so "the first claim's value" is well defined |
| UserContext.FindFirst | Services/UserContextAccessor.cs:19-20 | some value exactly when a claim of the type is present, claim types compared without letter case, and that value is the first such claim's |
| UserContext.UpperCaseSubjectResolves | Services/UserContextAccessor.cs:19-20 | a principal whose only claim is of type `SUB` resolves to that claim's value, because the type matches "sub" without case |
| UserContext.IsAuthenticated | Services/UserContextAccessor.cs:45-48 | authenticated exactly when there is a context, a user and an identity and the identity's flag is set |
| UserContext.AuthenticatedClaim | Services/UserContextAccessor.cs:25-33 | a value only for an authenticated principal, from the first claim of the type, and present whenever such a claim is |
| UserContext.GetCurrentUserId | Services/UserContextAccessor.cs:14-23 | null when not authenticated; the first NameIdentifier claim when there is one; otherwise the first "sub" claim, null exactly when there is none |
| UserContext.FirstIdClaimIsCurrentUserId | Services/UserContextAccessor.cs:14-23 | for an authenticated principal, the first NameIdentifier claim's value, or without one the first "sub" claim's, is the resolved id |
| UserContext.GetCurrentUserEmail | Services/UserContextAccessor.cs:25-33 | a value only for an authenticated principal, from its first email claim, and present whenever such a claim is |
| UserContext.GetCurrentUserName | Services/UserContextAccessor.cs:35-43 | a value only for an authenticated principal, from its first name claim, and present whenever such a claim is |
| UserContext.IsCurrentUser | Services/UserContextAccessor.cs:50-54 | holds only for an authenticated principal and a non-empty id; for those, exactly when the id is the first NameIdentifier claim's value, or without one the first "sub" claim's |
| Store.UserById | Services/ReportedUserService.cs:23 | the first stored user document with the caller's id; null exactly when no stored user has it |
| Store.CallerIsAdmin | Services/ReportedUserService.cs:23-24 | the admin check passes only if some stored user with the caller's id is an admin, and it passes whenever the first stored user with the caller's id is an admin |
| Store.CallerIsAdminIff | Services/ReportedUserService.cs:23-27 | with unique keys, the admin check passes exactly when some stored user with the caller's id is an admin |
| Store.Database.constructor | Data/MongoDbContext.cs:16-28 | the context holds the two given collections with unique keys |
| Text.Lower | Services/ReportedUserService.cs:260-261 | case folding for the "i" option: same length, each character folded |
| Text.EqualsIgnoringCaseIff | Services/UserContextAccessor.cs:19-20 | comparing claim types character by character without case is equality of the folded types |
| ReportedUsers.OccursIff | Services/ReportedUserService.cs:260-261 | the left-to-right scan finds the pattern exactly when the pattern occurs at some position |
| ReportedUsers.FieldMatches | Services/ReportedUserService.cs:260-261 | a field regex match: the field is non-null and contains the pattern, ignoring case |
| ReportedUsers.GetAllReportedUsers | Services/ReportedUserService.cs:69-95 | refused exactly when the caller is unauthenticated; every authenticated caller gets a list, and it holds exactly the caller's own non-deleted records |
| ReportedUsers.GetReportedUserById | Services/ReportedUserService.cs:97-125 | refused when unauthenticated; an authenticated caller gets the first stored record with the id that they created, deleted or not, whenever one exists; "not found or no permission" exactly when none does |
| ReportedUsers.GetDraftReportedUsersForAdmin | Services/ReportedUserService.cs:41-67 | refused exactly when the caller is not an admin; every admin gets a list, and it holds exactly the non-deleted Draft records of every owner |
| ReportedUsers.SearchReportedUsers | Services/ReportedUserService.cs:243-279 | refused exactly when unauthenticated; every authenticated caller gets a list, holding exactly the non-deleted Active records of any owner; with a non-empty text, only records whose name or id number contains it, ignoring case |
| ReportedUsers.AuthorizeStatusChange | Services/ReportedUserService.cs:20-39 | non-admins are refused; a missing id gives "not found"; success exactly for an admin and an existing id, at a position holding that id, whoever owns it |
| ReportedUsers.AuthorizeUpdate | Services/ReportedUserService.cs:164-201 | refused when unauthenticated; "not found or no permission" when no record with the id is one the caller may edit (their own, or any record for an admin); when one is, the admin-only refusal happens exactly when the request sets a status and the caller is not an admin; the position is one the caller may edit |
| ReportedUsers.AuthorizeDelete | Services/ReportedUserService.cs:221-241 | refused when unauthenticated; success exactly when a record with the id was created by the caller, admin or not, at that record's position |
| ReportedUsers.NewReportedUser | Services/ReportedUserService.cs:135-147 | a created record is Draft, not deleted, owned by the caller, has the request's text fields and fine 0, and is stamped with the current time |
| ReportedUsers.ApplyUpdate | Services/ReportedUserService.cs:186-201 | an update keeps id, owner, creation time, date and fine; writes the text fields, the deleted flag and the update time from the request; writes the status only when the request has one |
| ReportedUsers.ReportedUserService.constructor | Services/ReportedUserService.cs:14-18 | the service works on the given database |
| ReportedUsers.ReportedUserService.UpdateReportedUserStatusAsAdmin | Services/ReportedUserService.cs:20-39 | the refusals of `AuthorizeStatusChange`, with nothing written; on success only that record's status and update time change, and the result is true |
| ReportedUsers.ReportedUserService.CreateReportedUser | Services/ReportedUserService.cs:127-162 | unauthenticated: refused and nothing stored; otherwise the new record is appended and returned; users untouched |
| ReportedUsers.ReportedUserService.UpdateReportedUser | Services/ReportedUserService.cs:164-220 | the refusals of `AuthorizeUpdate`, with nothing written; on success the record at the decided position is replaced by `ApplyUpdate` of it, and that replacement is returned |
| ReportedUsers.ReportedUserService.DeleteReportedUser | Services/ReportedUserService.cs:221-241 | the refusals of `AuthorizeDelete`, with nothing written; on success only the deleted flag of that record changes, and not its update time |
| ReportedUserProperties.CreateThenGetById | Services/ReportedUserService.cs:97-162 | after a create, its creator reads back by id exactly the stored Draft record |
| ReportedUserProperties.CreateThenGetAll | Services/ReportedUserService.cs:69-162 | a create adds the record at the end of its creator's list and changes no one else's |
| ReportedUserProperties.OnlyOwnerReadsById | Services/ReportedUserService.cs:105-112 | a record is never read by id by anyone but its creator, admins included, and the refusal is the merged "not found or no permission" |
| ReportedUserProperties.SoftDeleteHidesFromList | Services/ReportedUserService.cs:69-125 | after a soft delete the record is still stored and still read by its owner by id, but is gone from the owner's list |
| ReportedUserProperties.SoftDeleteIdempotent | Services/ReportedUserService.cs:221-241 | deleting again succeeds on the same record and changes nothing |
| ReportedUserProperties.UpdateRestoresDeleted | Services/ReportedUserService.cs:191 | an update with `deleted` false brings the caller's record back into their list |
| ReportedUserProperties.SearchTextNarrows | Services/ReportedUserService.cs:257-264 | hits for a text are the hits without text, filtered by the text; the empty text is no text |
| ReportedUserProperties.DraftsAreNeverSearchHits | Services/ReportedUserService.cs:49-53 | no record is both in the admins' drafts list and in a search result |
| ReportedUserProperties.ActivationPublishes | Services/ReportedUserService.cs:28-32 | an activated live record is found by every authenticated search and leaves the drafts list |
| Users.GetCurrentUser | Services/UserService.cs:19-44 | refused when unauthenticated; "user not found" when no user has the caller's id; an authenticated caller with a stored document always gets the first one with their id, with its admin flag |
| Users.AuthorizeSelf | Services/UserService.cs:46-64 | refused when unauthenticated, then when the id is not the caller's, then "user not found"; success exactly when the caller asks for their own existing document, at its position |
| Users.GetUserById | Services/UserService.cs:46-76 | the refusals of `AuthorizeSelf`; otherwise the caller's own document, without the admin flag |
| Users.ApplyAccountUpdate | Services/UserService.cs:98-109 | an account update writes name, email, address, phone and update time, and keeps id, password hash, admin flag and creation time |
| Users.UserService.constructor | Services/UserService.cs:13-17 | the service works on the given database |
| Users.UserService.UpdateUser | Services/UserService.cs:78-124 | the refusals of `AuthorizeSelf`, nothing written; otherwise the caller's document is replaced by `ApplyAccountUpdate` of it and returned without the admin flag; records untouched |
| Users.UserService.DeleteUser | Services/UserService.cs:126-145 | the refusals of `AuthorizeSelf`, nothing written; otherwise exactly the caller's document is removed and their records stay |
| Users.DeletedAccountIsGone | Services/UserService.cs:126-145 | after deleting an account the collection is one shorter and the caller's id no longer resolves |
| Users.UpdateKeepsPassword | Services/UserService.cs:105-111 | after an account update a password verifies exactly when it did before, whatever the request's password |
| Auth.GrantsAdmin | Services/AuthService.cs:35-39 | registration grants admin exactly when the secret equals `AgonSecret` |
| Auth.EmailTaken | Services/AuthService.cs:26-30 | the duplicate check holds exactly when a stored user has the email |
| Auth.NewUser | Services/AuthService.cs:33-47 | the new user has the hash of the request's password, the request's name and email, admin exactly for the secret, and no phone or address |
| Auth.GenerateJwtToken | Services/AuthService.cs:74-96 | the token's four claims give sub = id, email, jti and name, with no NameIdentifier claim; it expires three hours after issue |
| Auth.Login | Services/AuthService.cs:63-72 | every refusal is "invalid email or password"; an unknown email is refused; a success is the token of a stored user with the email whose hash the password verifies |
| Auth.LoginSucceedsIffPasswordVerifies | Services/AuthService.cs:63-72 | for the first user with the email, duplicates allowed, login succeeds exactly when the password verifies against that user's hash, and then yields that user's token |
| Auth.AuthService.constructor | Services/AuthService.cs:17-21 | the service works on the given database |
| Auth.AuthService.Register | Services/AuthService.cs:23-61 | a taken email is refused, then a null password; otherwise `NewUser` is appended and returned without the admin flag; records untouched |
| Auth.RegisterThenLogin | Services/AuthService.cs:23-72 | after registering, logging in with the same email and password yields the new user's token |
| Auth.TokenIdentifiesUser | Services/AuthService.cs:79-85 | a request carrying the token's claims resolves to the user's id and name through the "sub" fallback, and the user is the current user |

## Left out

- HTTP routing, the controllers, dependency injection and the status codes: these are transport, not decisions. The model stops at the `Error` value.
- Asynchrony and concurrency. Each operation is one atomic step. The gap between Register's email check and its insert, which two concurrent registrations can both pass, is not modelled.
- The database driver and its I/O. A collection is a sequence in natural order. The `Ne(x => x.Id, null)` conditions are not modelled, because a stored record always has an id.
- BCrypt. It is the symbolic `PasswordHash` datatype, with the salt as a parameter. The real function's cost factor and bit strings are left out.
- Models.VerifyPasswordIff: the symbolic hash tells every two passwords apart. Real BCrypt reads only the first 72 bytes of a password, so two passwords that agree on those bytes verify against each other's hash.
- The JWT signing key, the HMAC signature, issuer, audience and the bearer middleware's validation. A token is its claims and its expiry only. The middleware's inbound renaming of `sub` to NameIdentifier is not modelled, so an id is resolved through the "sub" fallback.
- GetCurrentUserEmail: the same inbound renaming turns the token's `email` claim into the email claim type, which is not modelled either. In the model a request carrying a token's claims therefore has no email claim, although the deployed accessor would find one.
- The clock, `Guid.NewGuid()` and the database-assigned user id. All three are parameters. The fresh ids are stated by `FreshReportedId` and `FreshUserId`.
- The clock's two kinds, `DateTime.Now` (token expiry) and `DateTime.UtcNow` (documents). Both are one integer time.
- ReportedUsers.ReportedUserService.CreateReportedUser: the three separate `UtcNow` readings for `Date`, `CreatedAt` and `UpdatedAt` are one time value.
- Auth.NewUser: the model assumes that the `User` class sets both `CreatedAt` and `UpdatedAt` to the current time when a user is created, as `ReportedUser`'s initialisers do (Models/ReportedUser.cs:25-26). `Register` itself sets neither (Services/AuthService.cs:41-47).
- The definition of the user document's class (`User`) is not available. `Models.User` takes its fields, and their nullability, from their uses in the services.
- The response DTO projections for records, for example `Status` shown only by the update and drafts endpoints. The model returns whole records, and for account responses it models only the admin flag's projection.
- ReportedUsers.SearchReportedUsers: only texts free of regular-expression metacharacters are modelled. They are matched as literal substrings, and a text with metacharacters is excluded by its precondition rather than interpreted as a pattern.
- Text.Lower: case folding covers ASCII letters only. This applies to the regex "i" option of the search and to the case-insensitive claim-type comparison of `ClaimsIdentity.FindFirst`, both of which also fold letters outside ASCII.
- Auth.AuthService.Register: a null password is modelled as a `PasswordRequired` failure with nothing stored, standing for BCrypt's argument exception. An empty password is hashed like any other.
- Users.UserService.UpdateUser: the hashing of a non-blank password is not modelled, because its result is discarded and nothing observable depends on it.
- The read-back after a write, whose result is returned. Under the sequential model it is the document just written, so the methods return that document directly.
