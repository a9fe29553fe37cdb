# Labour-marketplace backend: sessions, users, gates and client job posts

This project is a Dafny model of the core of an Express/Mongoose backend where
clients post jobs and contractors offer workers. It covers:

- **Refresh-token sessions** (authController.js, refreshToken.js). The
  `RefreshToken` collection is a class `RefreshTokens.SessionStore` that holds a
  map from token id to record. `loginUser`, `refreshAccessToken` and `logout`
  are methods that change that map step by step.
  - A refresh checks, in order: cookie, signature, `jti`, record present and
    unrevoked, not expired (an expired record is revoked first), user exists.
  - Each refusal the model has is a 401 that leaves the store as it was,
    except the expired case. Database failures, which the handler answers
    with 500, are not modelled.
  - A successful refresh rotates the record: a fresh record is added, and the
    presented one is revoked and points at it. Presenting a rotated token again
    always fails.
- **Users** (userController.js, userSchema.js). `User` is a datatype with its
  enums and defaults. `UserModel.UserStore` is a class whose invariant is the
  unique phone index. The model covers:
  - the registration ladder;
  - the login ladder shared by both login handlers;
  - profile update, with phone normalisation to "+digits" and uniqueness;
  - PIN change;
  - the profile projection.
- **Request gates** (auth.js, authorizeClient.js, authorizeContractor.js).
  These are pure functions that either answer the request or pass on the
  claims exactly as decoded.
- **Date parsing** (dateParser.js). "DD/MM/YYYY" goes to the millisecond time
  value of midnight UTC, via the intermediate "YYYY-MM-DD" text. That text is
  read as V8 reads it: month 1..12 and day 1..31 are accepted, and days past
  the month's end roll over. The round trip from a date to its text and back
  is proved, and so is the fact that calendar order is time order.
- **Client job posts** (clientJobPostController.js and the two schemas it
  writes through). `ClientJobPosts.JobStore` is a class with the posts and the
  worker records. The four handlers are methods that call the store
  operations in the order the handlers call Mongoose. The model covers:
  - the `requiredWorkers` loop, proved against its specification function;
  - pagination as `parseInt` reads the query, exact up to
    `Number.MAX_SAFE_INTEGER`;
  - ownership checks and the partial update;
  - the cascade delete.

  Schema failures after a partial write are modelled as the code has them.
  - A fractional worker count below one passes the loop, is floored to 0 and
    then fails the worker schema. The post is left on file with no workers,
    and the reply is 500.
  - An update whose worker insert fails has already deleted the post's old
    workers.
- **The claim-key mismatch across files** (module `Routes`).
  userController.js signs access tokens `{ id, role }`; authController.js signs
  `{ sub, role }`. Every handler behind the gates reads `req.user.id`. A
  client's token from authController.js therefore passes both gates, after
  which:
  - creating a job post is answered 401 and stores nothing
    (`Routes.AuthLoginThenCreate`);
  - the profile is answered 404 (`Routes.AuthTokenProfileNotFound`).

Ids are natural numbers handed out by a per-collection counter. They stand in
for ObjectIds and uuids: fresh by construction and never reused. Times are
integer milliseconds, passed in as `now`. bcrypt and JSON Web Tokens are
abstract (`Crypto`):
- a hash accepts exactly the PIN it was made from;
- a signed token verifies with its own secret to its own claims, strictly
  before its expiry.

Some details of the code shape the model:
- The refresh record expires only when `expiresAt` is strictly before now.
- Mongoose drops `pinCode`, which is not a path of the post schema, so it is
  never stored.
- The listing's owner filter disappears when a search is given. Spreading the
  filters over the owner query lets the search's `$or` replace the owner's
  `$or`.

## Model

| member | source | states |
|---|---|---|
| Crypto.Hash | src/controllers/userController.js:25 | a hash made from a PIN accepts that PIN |
| Crypto.CompareHash | src/controllers/userController.js:65 | `compare` accepts exactly the PIN the hash was made from |
| Crypto.Verify | src/middleware/auth.js:13 | verification yields claims only for a signed token with the same secret before its expiry |
| Crypto.SignThenVerify | src/middleware/auth.js:12-19 | a token signed at `now` verifies to its claims exactly until `now + lifetime`, and never with the other secret |
| Common.TrimIdempotent | src/models/userSchema.js:8 | trimming a trimmed string changes nothing |
| Common.TrimStart | src/controllers/userController.js:130-136 | drops exactly the leading ECMAScript white space: the result is a suffix, what was dropped is white space, and the result does not start with white space |
| Common.TrimEnd | src/controllers/userController.js:130-136 | drops exactly the trailing white space: the result is a prefix, what was dropped is white space, and the result does not end with white space |
| Common.Trim | src/controllers/userController.js:130-136 | `trim()`: no white space at either end, and empty exactly when the string is all white space |
| Common.TrimIsSlice | src/controllers/userController.js:130-136 | `trim()` returns a slice of its input: its characters are the input's, in order, from where the leading white space ends |
| Common.TrimDropsOnlySpace | src/controllers/userController.js:130-136 | what `trim()` drops before and after that slice is white space |
| Common.DigitsOf | src/controllers/userController.js:137 | `replace(/\D/g, "")` yields only digits, no more than the input has, keeps a string of digits whole, and keeps a single character exactly when it is a digit |
| Common.DigitsOfConcat | src/controllers/userController.js:137 | the digits of a concatenation are the digits of each part in order; with the single-character case this pins the result to the input's digits, in order |
| Common.PadStart | src/utils/dateParser.js:15-18 | `padStart` result is as long as the wider of `width` and `s`, ends with `s`, and is filled with the pad character |
| Common.ZeroPadDigits | src/utils/dateParser.js:15-18 | zero-padding a numeral keeps it all digits and keeps its value |
| Common.Split | src/middleware/auth.js:9 | `split` yields at least one part, no part holds the separator, and the parts joined with it give the string back |
| Common.SplitJoin | src/utils/dateParser.js:4 | splitting separator-free parts joined with the separator gives those parts back |
| Common.DecimalString | src/controllers/clientJobPostController.js:46 | the decimal rendering of an index is all digits and denotes the index, in one digit below 10, two below 100 and four below 10000, with no leading zero (it starts with '0' only for 0) |
| RefreshTokens.NewRecord | src/models/refreshToken.js:4-11 | a new record carries its id, user and expiry, `createdAt` is now, `revoked` false and `replacedBy` null |
| RefreshTokens.Revoked | src/controllers/authController.js:66 | revoking marks exactly that record revoked, sets `replacedBy` only when a successor is given, leaves every other record and the key set alone |
| RefreshTokens.SessionStore.Valid | src/models/refreshToken.js:4-11 | the store's invariant keeps the next `tokenId` fresh (the unique index), and a record that is not revoked has no successor |
| RefreshTokens.RevokeIdempotent | src/controllers/authController.js:43 | revoking twice is revoking once |
| RefreshTokens.SessionStore.FindRefreshTokenRecord | src/controllers/authController.js:34 | the record filed under the id, or none exactly when there is none |
| RefreshTokens.SessionStore.GenerateRefreshToken | src/controllers/authController.js:59-63 | adds exactly one fresh unrevoked record for the user expiring 30 days on, and returns the refresh token carrying its id; the store stays unique-keyed and chain-closed |
| RefreshTokens.SessionStore.RevokeRefreshToken | src/controllers/authController.js:66 | the store becomes `Revoked(old, id, successor)` and stays valid |
| AuthController.SubClaims | src/controllers/authController.js:53-56 | the access claims of this controller carry `sub` and `role` and no `id` |
| AuthController.PresentedToken | src/controllers/authController.js:16-19 | a cookie counts as presented exactly when it is present and not empty |
| AuthController.PresentedJti | src/controllers/authController.js:21-31 | a `jti` is read only from a presented cookie that verifies with the refresh secret |
| AuthController.RefreshStageOf | src/controllers/authController.js:13-50 | the exit a refresh takes, checks in source order, each stage exactly when its check is the first to fail: no cookie, bad signature, no `jti`, revoked or missing, strictly expired, user gone; rotation exactly when the record is live and its user exists |
| AuthController.StageMessage | src/controllers/authController.js:17-50 | every refusal stage has a message and only a rotation has none |
| AuthController.Rotated | src/controllers/authController.js:59-66 | rotation adds one fresh unrevoked record for the user, marks the presented record revoked with `replacedBy` the new id, and changes no other record |
| AuthController.ReplayAfterRotationFails | src/controllers/authController.js:34-39 | presenting a rotated cookie again, at any later time and whatever the users, is refused |
| AuthController.RefreshAccessToken | src/controllers/authController.js:13-83 | every exit the model has is 200 or 401 (database failures are not modelled); rotation on success with a `{ sub, role }` access token and new cookie; an expired record is revoked; every other refusal leaves the store unchanged |
| AuthController.Logout | src/controllers/authController.js:86-110 | always 200 with the cookie cleared; only a verifying cookie's record is revoked |
| AuthController.LoginUser | src/controllers/authController.js:112-167 | the login ladder's refusals add nothing; success adds one record and returns a `{ sub, role }` token, the user without PIN hash and the refresh cookie |
| AuthController.LoginRefreshReplay | src/controllers/authController.js:13-83 | login, refresh with its cookie, then replay: both first steps succeed and the replay is 401 "revoked or missing" |
| Credentials.CheckCredentials | src/controllers/authController.js:115-125 | 400 missing phone or PIN, 404 unknown phone, 403 unapproved (before the PIN), 500 no stored PIN, 401 wrong PIN, acceptance exactly when the PIN matches an approved user's hash |
| Credentials.UnapprovedRefusedWhateverPin | src/controllers/authController.js:122-123 | an unapproved user is refused 403 whatever PIN is offered |
| Credentials.ApprovedLoginIffPinMatches | src/controllers/authController.js:124-125 | an approved user with a PIN is accepted with that PIN and refused 401 with any other |
| UserModel.RoleFromName | src/models/userSchema.js:29-33 | exactly "client" and "contractor" name a role |
| UserModel.RoleNameRoundTrip | src/models/userSchema.js:29-33 | a role's name reads back as that role |
| UserModel.NewUser | src/models/userSchema.js:3-56 | a new document has status pending, is not approved, has no PIN and a trimmed name |
| UserModel.NewUserSchemaValid | src/models/userSchema.js:5-23 | a new document passes the `required` validators (`SchemaValid`) exactly when its name is not all white space and its phone is not empty |
| UserModel.UserStore.Valid | src/models/userSchema.js:19-23 | the store's invariant (documents under their own ids, schema-valid, unique `phone`) keeps the next id fresh |
| UserModel.PhoneLookupFindsHolder | src/models/userSchema.js:19-23 | under the unique `phone` index, looking a stored user's phone up finds that user |
| UserModel.Sanitize | src/controllers/userController.js:34-43 | the reply projection keeps every field but the PIN hash |
| UserModel.FindByPhone | src/controllers/userController.js:21 | finds the unique user with that phone exactly when one exists |
| UserController.RegistrationError | src/controllers/userController.js:9-20 | the 400 ladder in source order, each rung's message under the earlier rungs passing ("Name and phone are required", "PIN is required", "Invalid role", "PIN must be exactly 6 digits"), and no error exactly when every check passes |
| UserController.RegisteredUser | src/controllers/userController.js:25-33 | the created user is active and approved and stores the hash of the PIN |
| UserController.CreateUser | src/controllers/userController.js:6-51 | 400s and 409 insert nothing; a blank-after-trim name is 500 with nothing inserted; otherwise exactly one new user and a 201 without PIN hash |
| UserController.IdClaims | src/controllers/userController.js:80 | the access claims of this controller carry `id` and `role` and no `sub` |
| UserController.LoginUser | src/controllers/userController.js:53-108 | the login ladder; success adds one refresh record and returns an `{ id, role }` token |
| UserController.NormalizePhone | src/controllers/userController.js:136-143 | "+" followed by exactly the input's digits, defined exactly when there are 10 to 15 of them |
| UserController.NormalizePhoneIdempotent | src/controllers/userController.js:136-143 | normalising a normalised phone returns it unchanged |
| UserController.NameChange | src/controllers/userController.js:130-133 | the name changes only to a non-empty trimmed value that differs from the stored one |
| UserController.EditProfile | src/controllers/userController.js:127-163 | 400 exactly for a bad phone, 409 exactly for a new phone held by another user; a change touches only name and phone and the new phone is held by nobody else |
| UserController.EditOutcome | src/controllers/userController.js:127-163 | the only refusals of an edit are that 400 and that 409; a change is the stored user with both requested edits applied, the trimmed name when it differs and the normalised phone when one is sent |
| UserController.UpdateUserProfile | src/controllers/userController.js:110-183 | 401, 400 and 404 change nothing; every refusal and "No changes detected" leave the store unchanged; a change saves exactly the edited user and keeps phones unique |
| UserController.ChangedKeepsStoreValid | src/controllers/userController.js:146-165 | a profile edit keeps ids, schema validity and phone uniqueness |
| UserController.ReplaceKeepsStoreValid | src/controllers/userController.js:146-165 | filing a valid user under its own id, with its old phone or one no other user holds, keeps the store's invariant |
| UserController.ChangeUserPin | src/controllers/userController.js:191-234 | 401, 400 six digits, 404, 400 current PIN required, 401 incorrect PIN; success stores only the new hash and approval; every refusal changes nothing |
| UserController.PinChangeEnablesLogin | src/controllers/userController.js:220-227 | after a PIN change the user logs in with the new PIN and with no other |
| UserController.GetProfileInfo | src/controllers/userController.js:236-257 | 200 with id, name, phone, role and status exactly when the `id` claim names a user, otherwise 404 |
| Middleware.BearerToken | src/middleware/auth.js:9 | the second space-separated field: the header is "Bearer " then the token, then a space or the end; the token holds no space |
| Middleware.BearerThenSpace | src/middleware/auth.js:9-10 | a second space right after "Bearer " leaves the token empty |
| Middleware.VerifyAccessToken | src/middleware/auth.js:2-20 | 401 exactly for a missing or malformed header or empty token; one 403 for any verification failure; otherwise the request proceeds with exactly the decoded claims |
| Middleware.BearerTokenOf | src/middleware/auth.js:9 | "Bearer t" carries token `t` when `t` has no space |
| Middleware.BearerWithoutToken | src/middleware/auth.js:10 | "Bearer " is 401 "No token provided" |
| Middleware.BearerDoubleSpace | src/middleware/auth.js:9-10 | "Bearer  x" is 401, not 403 |
| Middleware.AcceptsVerifiedBearer | src/middleware/auth.js:12-15 | a verifying bearer token passes with exactly its claims |
| Middleware.AuthorizeClient | src/middleware/authorizeClient.js:1-6 | proceeds exactly for role "client", passing the claims unchanged; otherwise 403, also with no user |
| Middleware.AuthorizeContractor | src/middleware/authorizeContractor.js:1-8 | proceeds exactly for role "contractor", passing the claims unchanged; otherwise 403 |
| Middleware.RoleGatesExclusive | src/middleware/authorizeContractor.js:2 | no identity passes both role gates |
| DateParser.DaysInMonth | src/utils/dateParser.js:19 | every month has 28 to 31 days |
| DateParser.DateFromIso | src/utils/dateParser.js:19-20 | a time value only for "YYYY-MM-DD" text with month 1..12 and day 1..31, and it is that day's midnight |
| DateParser.IsoStringFields | src/utils/dateParser.js:15-18 | the padded intermediate text has the ISO shape and the fields' values |
| DateParser.IsoString | src/utils/dateParser.js:15-18 | for fields of at most 4, 2 and 2 characters the intermediate text is 10 characters with dashes at positions 4 and 7 |
| DateParser.ParseDateFromDDMMYYYY | src/utils/dateParser.js:2-21 | null for empty input or not three parts; otherwise a value exactly when the trimmed fields are 1-2, 1-2 and 4 digits with month 1..12 and day 1..31, and the value is that day's time |
| DateParser.FormatThenParse | src/utils/dateParser.js:2-21 | writing any day of year 0..9999 as DD/MM/YYYY and parsing it gives that day's time value |
| DateParser.YearStep | src/utils/dateParser.js:19 | the year after starts a year's length later |
| DateParser.MonthsFillYear | src/utils/dateParser.js:19 | the twelve months add up to the year's length |
| DateParser.DayNumberInYear | src/utils/dateParser.js:19 | a calendar date's day lies within its year |
| DateParser.CalendarOrderIsTimeOrder | src/controllers/clientJobPostController.js:86 | of two calendar dates the earlier has the smaller time value, so the end-before-start check compares dates |
| DateParser.DayOverflowRollsOver | src/utils/dateParser.js:19-20 | a day past the month's end reads as the matching day of the next month |
| DateParser.FebruaryThirtiethIsMarchFirst | src/utils/dateParser.js:19-20 | in every leap year up to 9999, "30/02" parses to the same instant as "01/03" (so "30/02/2024" is 1 March 2024) |
| JobRequests.Accepted | src/controllers/clientJobPostController.js:57-63 | an accepted entry keeps its type and its count is the floor of the given number |
| JobRequests.CheckWorkers | src/controllers/clientJobPostController.js:42-64 | all entries accepted, elementwise and in order, exactly when none fails; otherwise the first failing index and why |
| JobRequests.ValidateWorkers | src/controllers/clientJobPostController.js:42-64 | the loop returns what `CheckWorkers` specifies |
| JobRequests.FirstFailure | src/controllers/clientJobPostController.js:42-62 | an entry failing after entries that all passed is the one reported |
| JobRequests.FractionalCountBecomesZero | src/controllers/clientJobPostController.js:63 | a count in (0,1) passes the loop and becomes 0 |
| JobRequests.CheckDates | src/controllers/clientJobPostController.js:66-91 | a given date must parse (start first, each with its message); both given and parsed with the end before the start is "End date must be the same or after start date"; passes exactly otherwise, with ordered dates |
| JobRequests.DigitPrefix | src/controllers/clientJobPostController.js:138 | the longest all-digit prefix |
| JobRequests.ParseInt | src/controllers/clientJobPostController.js:138-141 | NaN exactly when no digit follows the leading white space and an optional sign; otherwise the value of the longest digit run, negated after a '-' |
| JobRequests.ParseIntReadsNumeral | src/controllers/clientJobPostController.js:138 | `parseInt` reads a numeral and stops at the first non-digit |
| JobRequests.ParseIntReadsNegative | src/controllers/clientJobPostController.js:138 | with a minus sign in front the numeral reads negative |
| JobRequests.CeilDiv | src/controllers/clientJobPostController.js:188 | `ceil(total / limit)`: zero exactly for no items, and the bounds of a ceiling |
| JobRequests.Paginate | src/controllers/clientJobPostController.js:138-143 | page is `ClampPage` of `parseInt(page || "1")` and limit `ClampLimit` of `parseInt(limit || "20")` (NaN kept as NaN), skip is `(page - 1) * limit` and pages `ceil(total / limit) || 1` |
| JobRequests.ClampPage | src/controllers/clientJobPostController.js:138 | `max(1, n)`: a page of 1 or more kept, one below 1 becomes 1, NaN stays NaN |
| JobRequests.ClampLimit | src/controllers/clientJobPostController.js:139-142 | `max(1, min(100, n))`: within 1..100, an in-range limit kept, one below 1 becomes 1, one above 100 becomes 100, NaN stays NaN |
| JobRequests.Skip | src/controllers/clientJobPostController.js:143 | `(page - 1) * limit`, never negative |
| JobRequests.PageCount | src/controllers/clientJobPostController.js:188 | at least 1, 1 when nothing matches, otherwise the ceiling bounds |
| JobRequests.DefaultPagination | src/controllers/clientJobPostController.js:138-143 | without query parameters: page 1, limit 20, skip 0 |
| JobRequests.EveryItemOnSomePage | src/controllers/clientJobPostController.js:172-188 | every result item lies on a page between 1 and `pages` |
| JobRequests.PageQuery | src/controllers/clientJobPostController.js:138-143 | asking for page `k` by its numeral gets page `k`, skipping `(k - 1) * limit` |
| ClientJobPosts.IdRange | src/controllers/clientJobPostController.js:120 | the ids handed out, consecutive and in input order |
| ClientJobPosts.WorkerRecords | src/controllers/clientJobPostController.js:110-118 | one open record per entry, pointing at the post, with the entry's type and count |
| ClientJobPosts.WorkersOtherThan | src/controllers/clientJobPostController.js:406-407 | exactly the workers of other posts survive, unchanged |
| ClientJobPosts.JobStore.Valid | src/models/ClientJobPostSchema.js:3-44 | every post and worker record is filed under its own id and passed its schema, and the next post and worker ids are fresh |
| ClientJobPosts.StoredWorkersValid | src/models/clientRequiredWorkersSchema.js:12-39 | every worker record on file asks for at least one worker of a type the schema allows |
| ClientJobPosts.JobStore.CreatePost | src/controllers/clientJobPostController.js:94-107 | stores the post under a fresh id exactly when it passes the schema, otherwise nothing |
| ClientJobPosts.JobStore.InsertWorkers | src/controllers/clientJobPostController.js:110-118 | all records under fresh consecutive ids when every one passes the schema, otherwise none |
| ClientJobPosts.JobStore.DeleteWorkersOf | src/controllers/clientJobPostController.js:348 | removes exactly the post's workers |
| ClientJobPosts.JobStore.SavePost | src/controllers/clientJobPostController.js:367 | stores the post exactly when it passes the schema, otherwise keeps the stored one |
| ClientJobPosts.JobStore.DeletePost | src/controllers/clientJobPostController.js:410 | removes exactly that post |
| ClientJobPosts.CreateCheck | src/controllers/clientJobPostController.js:27-91 | the 400 ladder in source order: title, city, location, pin code, non-empty worker array, each entry, dates; passes exactly when all do |
| ClientJobPosts.ValidateCreateBody | src/controllers/clientJobPostController.js:27-91 | the handler's sequence of checks gives what `CreateCheck` specifies |
| ClientJobPosts.NewPost | src/controllers/clientJobPostController.js:94-107 | the new post belongs to the requester, is open, has its title trimmed and no workers |
| ClientJobPosts.StoreJobPost | src/controllers/clientJobPostController.js:94-123 | schema failure of the post stores nothing; of a worker leaves the post without workers; otherwise the post lists its workers' ids in input order |
| ClientJobPosts.CreateJobPost | src/controllers/clientJobPostController.js:6-131 | 401 before any field is looked at; 400s store nothing; then the storage outcomes of `StoreJobPost` |
| ClientJobPosts.FractionalCountFailsInsert | src/models/clientRequiredWorkersSchema.js:35-39 | an entry with a count in (0,1) passes the loop but its record fails `min: 1` |
| ClientJobPosts.WorkerRecordsSchemaValid | src/models/clientRequiredWorkersSchema.js:12-39 | the worker records built from the entries all pass the worker schema (`WorkerSchemaValid`: type from the enum, `count >= 1`, status from the enum) exactly when `insertMany` accepts them |
| ClientJobPosts.NewPostSchemaValid | src/models/ClientJobPostSchema.js:11-37 | the post schema (`PostSchemaValid`: trimmed title required, city from the enum, location required, status from the enum) accepts a validated create body's post exactly when its trimmed title is not blank and its city is one of the five |
| ClientJobPosts.UpdateCheck | src/controllers/clientJobPostController.js:252-314 | each rung in source order, given the earlier ones pass: a sent but empty title, city, location or pin code; a sent `requiredWorkers` that is not a non-empty array; the first failing entry; the dates error; passes exactly when all do, carrying the entries (none when not sent) and the dates |
| ClientJobPosts.ValidateUpdateBody | src/controllers/clientJobPostController.js:252-314 | the handler's sequence of checks gives what `UpdateCheck` specifies |
| ClientJobPosts.Edited | src/controllers/clientJobPostController.js:330-365 | every sent field replaces the stored one, every other field, the id, the owner and the worker list stay |
| ClientJobPosts.EditIdempotent | src/controllers/clientJobPostController.js:330-342 | applying the same update twice equals applying it once |
| ClientJobPosts.UpdateJobPostById | src/controllers/clientJobPostController.js:231-384 | 401, 400, malformed id 500, 404 and non-owner 403 change nothing; for the owner, the write outcomes of `SaveEditedPost` applied to the edited post |
| ClientJobPosts.SaveEditedPost | src/controllers/clientJobPostController.js:343-383 | without new entries only the edited post is saved; with them the post's old workers go, the new ones are inserted all or none, and the post is saved pointing at them; a schema failure answers 500 after the writes made so far |
| ClientJobPosts.DeleteClientJobPostById | src/controllers/clientJobPostController.js:387-418 | 401, 400, 404 and non-owner 403 change nothing; for the owner the post and exactly its workers are removed |
| ClientJobPosts.Listed | src/controllers/clientJobPostController.js:161-173 | exactly the selected posts, each as stored, newest first |
| ClientJobPosts.Selected | src/controllers/clientJobPostController.js:144-166 | without a search only the requester's posts are selected, and with no filters all of them are; a given status or city must match; a given search must match |
| ClientJobPosts.Window | src/controllers/clientJobPostController.js:174-175 | the items from position `skip` on, in order: `limit` of them when that many remain, all that remain otherwise, none past the end |
| ClientJobPosts.GetClientJobPosts | src/controllers/clientJobPostController.js:132-198 | 401 exactly without an `id` claim; otherwise the count of all selected posts, the pagination, and the page of them |
| ClientJobPosts.ListingOwnershipDependsOnSearch | src/controllers/clientJobPostController.js:150-166 | without a search only the requester's posts are listed; with one, any client's matching post is |
| Routes.ClientGate | src/routes/clientJobPostRoutes.js:17 | the header gate's refusal, else 403 unless the decoded role is "client", else the decoded claims |
| Routes.CreateJobPostRoute | src/routes/clientJobPostRoutes.js:17 | a gate refusal and a missing `id` claim store nothing; a body failing validation is 400 |
| Routes.UpdateJobPostRoute | src/routes/clientJobPostRoutes.js:31-36 | a gate refusal and a missing `id` claim change nothing |
| Routes.DeleteJobPostRoute | src/routes/clientJobPostRoutes.js:37-42 | a gate refusal and a missing `id` claim change nothing |
| Routes.ListJobPostsRoute | src/routes/clientJobPostRoutes.js:18-23 | a gate refusal is passed through; past the gates the listing succeeds exactly with an `id` claim |
| Routes.UpdateProfileRoute | src/routes/userRoutes.js:14 | a header refusal and a missing `id` claim change nothing |
| Routes.ChangePinRoute | src/routes/userRoutes.js:15 | a header refusal and a missing `id` claim change nothing |
| Routes.ProfileRoute | src/routes/userRoutes.js:16 | a header refusal is passed through; a missing `id` claim is 404; a 200 is about the claimed user |
| Routes.TokenReader | src/middleware/auth.js:13 | the bearer text reads as the token it stands for |
| Routes.GatesPassClaimsAsSigned | src/controllers/authController.js:139 | a fresh client token from authController.js passes both gates with no `id`; one from userController.js passes with its `id` |
| Routes.AuthLoginThenCreate | src/controllers/clientJobPostController.js:9-14 | after an authController login the returned token cannot create a job post: 401, nothing stored |
| Routes.AuthTokenProfileNotFound | src/controllers/userController.js:237-244 | the same kind of token gets 404 from the profile route |

## Left out

- One-time passwords and SMS (otpController.js, twilio.js, otpSchema.js) are calls to an external service and are not part of this model.
- Server start-up and database connection (server.js, db.js) are not modelled. server.js mounts only the OTP and user routers. The auth and job-post routers are modelled as they declare their chains, though nothing mounts them.
- clientJobPostRoutes.js imports `getClientMyJobPosts` and `getAllClientJobPostsForContractors`, which clientJobPostController.js does not export. `Routes.ListJobPostsRoute` binds GET /my-posts to `getClientJobPosts`, the listing handler the controller does define.
- The session-store helpers (`generateRefreshToken`, `findRefreshTokenRecord`, `revokeRefreshToken`, `generateAccessToken`) are imported from src/utils/token.js, which defines only `generateTokens`. They are specified from their call sites and the `RefreshToken` schema.
- bcrypt and jsonwebtoken are abstract. Salts, encodings, signatures and the "6m"/"30d" strings are not modelled; only the lifetimes in milliseconds are.
- Timestamps (`createdAt`/`updatedAt` of users, posts and workers) and their appearance in replies are left out. The listing's `createdAt` order is modelled as id order, since ids are handed out in creation order.
- Cookie attributes (httpOnly, secure, sameSite, path, expiry) are left out; only set, clear or keep is modelled.
- The refresh's separate insert and revoke awaits are modelled as one sequence; interleaving with other requests is not modelled.
- JavaScript coercions: body fields are optional strings, a worker count is absent, a finite real or not finite, and query values are optional strings. Non-string bodies (numbers, arrays as a title) are not modelled.
- `ObjectId.isValid` and cast errors are a two-way choice, well-formed or malformed. An id claim that is not an ObjectId, which would make the listing's query throw, is not modelled.
- The `new Date("YYYY-MM-DD")` reading follows V8 (Node's engine): month 1..12 and day 1..31 are accepted, with roll-over. Other engines refuse days past the month's end.
- The listing's search is an abstract predicate over a post, and an invalid regular expression (which makes `new RegExp` throw, giving 500) is not modelled. `populate` of the worker list is not modelled; posts are returned with worker ids.
- ClientJobPosts.GetClientJobPosts: where `page` or `limit` parses to NaN, the posts the database would return for `skip(NaN)`/`limit(NaN)` are not modelled (the data is `None`); the count and meta are.
- Error detail text (`error: err.message`) in 500 replies is left out; status and message are modelled.
- Database and driver failures are not modelled: store operations always succeed, and only a schema validation failure makes a write fail. So the catch → 500 exit each handler has for a rejected database call is missing. That covers "Failed to refresh token" in `refreshAccessToken`, the 500s of both `loginUser`s, `createUser`, `updateUserProfile`, `changeUserPin`, and the job-post handlers' database errors.
- AuthController.RefreshAccessToken: its `reply.status == 200 || reply.status == 401` holds of the model only; the source also answers 500 when a store call or `User.findById` rejects (authController.js:79-82).
- JobRequests.ParseInt: `parseInt` yields a double, which is exact only up to `Number.MAX_SAFE_INTEGER` (2^53 - 1). Above it the source rounds the page number and the `(page - 1) * limit` product, and a numeral of about 310 digits or more gives Infinity. The model's value is the exact integer. `ParseIntReadsNumeral`, `ParseIntReadsNegative` and `PageQuery` are stated only where the source's values are exact.
- UserController.GetProfileInfo: the `req.user._id` fallback is not modelled, since no token in this system carries `_id`; a missing `req.user` (a throw before the try block) cannot happen behind `verifyAccessToken`.
- The "Job id is required" 400 of `updateJobPostById` is unreachable behind a `/:id` route and is not modelled.
- `insertMany` is all-or-nothing when a record fails validation, as it is for ordered inserts that fail validation. Partial inserts after a database error are not modelled.
- The `w.count = Math.floor(cnt)` rewrite of the request body in place is modelled as the returned list of accepted entries.
- Routes.CreateJobPostRoute: states only the gate outcomes, the missing-`id` 401 and the 400s; what follows is `ClientJobPosts.CreateJobPost`'s own contract.
- Routes.UpdateJobPostRoute: states only the gate outcomes and the missing-`id` 401; what follows is `ClientJobPosts.UpdateJobPostById`'s own contract.
- Routes.DeleteJobPostRoute: states only the gate outcomes and the missing-`id` 401; what follows is `ClientJobPosts.DeleteClientJobPostById`'s own contract.
- Routes.UpdateProfileRoute: states only the header outcomes and the missing-`id` 401; what follows is `UserController.UpdateUserProfile`'s own contract.
- Routes.ChangePinRoute: states only the header outcomes and the missing-`id` 401; what follows is `UserController.ChangeUserPin`'s own contract.
- The listing controllers other than `getClientJobPosts`, `getJobPostById` and the contractor-side controllers are find or insert wrappers and are not modelled. The other schema files are not modelled beyond the constants used here.
