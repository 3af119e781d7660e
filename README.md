# Auth backend decision layer, in Dafny

This project models the authentication core of a user/group backend:
- registration, password login, login-status check and current-user lookup;
- creation of a group by an authenticated user;
- issuing and verifying access and refresh tokens;
- the bearer-token gate that resolves a token to a stored user;
- the user and group tables with their defaults and constraints;
- the uniform response envelope `{success, status_code, status, message, response}`.

Each operation is a short chain of ordered guards ending in at most one insertion.
The model proves:
- which error wins;
- what is stored and what is answered on success;
- that the tables are unchanged on the failure paths, except a failed projection of the public view, which raises after the insert.

## Layout

| file | module | models |
|---|---|---|
| wrappers.dfy | Wrappers | `Option` / `Result` |
| bcrypt.dfy | Bcrypt | the bcrypt password context, idealised |
| jwt.dfy | Jwt | the JWT codec (RFC 7519), signed with HMAC (section 3.2 of RFC 7518), idealised |
| http_status.dfy | HttpStatus | reason phrases of the registered status codes |
| api_response.dfy | ApiResponse | the envelope and its data items |
| models.dfy | Models | `auth_user` / `auth_groups` rows, defaults, widths, table invariants |
| schema.dfy | Schema | request bodies, their bounds and defaults; public projections without password |
| repository.dfy | Repository | `UserRepository` and `GroupsRepository` as classes over a row sequence and an id counter |
| security.dfy | Security | `AuthSecurity`: hashing, token issue and verification, the gate |
| service.dfy | Service | `UserService` and `GroupsService` |

## Modelling decisions

- **Libraries.** bcrypt and the JWT library are foreign code, so each is replaced by a concrete idealisation.
  - A bcrypt hash records its salt and the part of the password bcrypt consumes, so verifying is comparing that part.
  - A JWT is `Compact(alg, claims, Mac(key, alg, claims))` or `Garbage`.
  - The signature constructor makes forging or tampering impossible by construction.
- **Time and randomness.** The clock is the integer parameter `now`, in seconds. The bcrypt salt is the parameter `salt`.
- **Expiry.** `Jwt.Decode` follows section 4.1.4 of RFC 7519: an `exp` claim is accepted only while `now < exp`. It then checks that `sub`, if present, is a string.
- **Defaults.** The ORM leaves `None`-valued attributes out of the INSERT, so a `null` flag or audit field in the body gets the column default. This gives `is_active = True`, `is_superuser = False` and `created_by = last_modified_by = "system"`.
- **Database assumptions.** The model assumes a database that enforces `VARCHAR` lengths and compares strings case-sensitively (a binary collation).
  - `String(50)` widths are therefore modelled as enforced.
  - Lookups and the unique constraints match names exactly. Under a case-insensitive collation, such as MySQL's defaults, "Alice" and "alice" would clash; the model does not capture that.
- **Column widths.** The registration schema allows first and last names of up to 100 characters. A body with a 51–100 character first name therefore passes validation and is then refused by the store. `UserService.Create` raises a repository fault in that case and stores nothing.
- **Schema versus table.** The request schema bounds usernames to 30 characters; the table allows 50. `UserResponseSchema` re-checks 30 when a row is projected. The service methods therefore check the schema bound themselves rather than requiring it, and the model keeps the error path of the projection.
- **passlib's refusals.** Before bcrypt sees a secret, passlib raises `PasswordSizeError` for a secret over 4096 bytes, and then `NullPasswordError` for one that contains a NUL character. It does so both when hashing and when verifying. Registration then raises a service error and stores nothing. Login raises for a known user, and answers 404 for an unknown one without looking at the password.
- **bcrypt's 72-character limit.** bcrypt ignores everything past 72 characters. Two passwords that agree on their first 72 characters verify against each other's hash (`Bcrypt.LongPasswordTailIgnored`). The registration schema admits passwords of up to 300 characters. So "a hash of p2 refuses every p ≠ p2" holds only for passwords of at most 72 characters (`Bcrypt.DistinctShortPasswordsRejected`).
- **Properties one would expect that do not hold.** Two properties one would expect of this backend do not hold of the code.
  - One would expect a hash of one password to refuse every other password. bcrypt's truncation makes that false past 72 characters (see above). The model follows the code.
  - One would expect group creation to store the group and answer 201. As written it always raises (see "## Findings"). `Service.GroupsService.Create` models the code as written. `Service.GroupsService.CreateIntended` models the evident intent, and its properties are proved.
- **Status phrases.** They are those of Python's `http.HTTPStatus` in the versions that follow RFC 9110 ("Content Too Large", "Unprocessable Content", ...).

## Model

| member | source | states |
|---|---|---|
| Bcrypt.HashPassword | auth/security.py:30-31 | raises exactly for a secret over 4096 characters (checked first) or containing NUL; otherwise the hash keeps the given salt and verifies against the password it was made from |
| Bcrypt.Verify | auth/security.py:33-34 | raises exactly for a secret passlib refuses, whatever the hash; otherwise true iff the password agrees with the hashed one on the first 72 characters |
| Bcrypt.VerifyIffSameSecret | auth/security.py:33-34 | a hash accepts exactly the acceptable passwords that agree with the original on the part bcrypt consumes |
| Bcrypt.DistinctShortPasswordsRejected | auth/security.py:33-34 | two different passwords of at most 72 characters never verify against each other's hash |
| Bcrypt.LongPasswordTailIgnored | auth/security.py:19 | past 72 characters, any longer password with the same prefix verifies against the original hash |
| Bcrypt.SaltedHashesDiffer | auth/security.py:30-31 | hashing one password with two different salts gives two different hashes |
| Jwt.Encode | auth/security.py:41 | a compact token over exactly the given claims under the given algorithm, which decodes under the same key and algorithm exactly while the claims are well typed and unexpired; `Jwt.RoundTrip`, `Jwt.WrongKeyRejected` and `Jwt.TamperedClaimsRejected` state the rest |
| Jwt.Decode | auth/security.py:52 | success iff the header algorithm is allowed, the signature is the key's over these claims, `exp` is a number after `now` and `sub` is a string; returns exactly the signed claims; garbage is `Malformed` |
| Jwt.RoundTrip | auth/security.py:41-52 | decoding an encoded claim set with the same key and algorithm gives it back iff `now < exp`, and otherwise `Expired` |
| Jwt.WrongKeyRejected | auth/security.py:52 | a token signed under another key is rejected |
| Jwt.TamperedClaimsRejected | auth/security.py:52 | claims swapped under an existing signature are rejected |
| HttpStatus.Phrase | schema/ApiResponse.py:17 | a registered code lies in 100..599 and has a non-empty reason phrase; unregistered codes have none |
| HttpStatus.BackendPhrases | schema/ApiResponse.py:17 | 200, 201, 401, 404, 409, 422 and 500 have the RFC 9110 phrases |
| ApiResponse.Create | schema/ApiResponse.py:15-17 | succeeds iff the code is registered; copies success, code and message; `response` is the data; `status` is the code's phrase |
| ApiResponse.Envelope | schema/ApiResponse.py:15-17 | for a registered code the envelope copies success, code, message and data, and its status is the code's phrase |
| ApiResponse.CreateWithoutData | schema/ApiResponse.py:12-17 | without data the envelope's `response` is None |
| ApiResponse.CreatedExample | schema/ApiResponse.py:23-24 | code 201 is given the status "Created" |
| Models.UserColumnFault | models/AuthUserModels.py:10-18 | the store refuses a user row exactly when a `String(50)` column is too wide |
| Models.UserRow | models/AuthUserModels.py:9-19 | the stored row keeps every given column; unset flags default to active and not superuser, unset audit fields to "system" |
| Models.GroupColumnFault | models/AuthUserModels.py:29-33 | the store refuses a group row exactly when a column is too wide or an audit field is missing (NOT NULL, no default) |
| Models.GroupRow | models/AuthUserModels.py:28-33 | the stored group keeps name and audit fields; an unset active flag defaults to true |
| Models.ValidUserTable | models/AuthUserModels.py:9-19 | the table invariant it states implies that no two stored users share a username or an id |
| Models.ValidGroupTable | models/AuthUserModels.py:28-34 | the same for group names and group ids |
| Models.FirstMatch | repositories/AuthUserRepository.py:34 | the first position whose key equals the argument exactly (case-sensitive); no earlier row matches, and the table length means no row does |
| Models.AppendUserKeepsTable | models/AuthUserModels.py:9-10 | appending a fitting row with a fresh username and the next id keeps usernames unique and ids increasing |
| Models.AppendGroupKeepsTable | models/AuthUserModels.py:28-29 | the same for group names and group ids |
| Schema.NewCreateUser | schema/AuthUserSchema.py:8-16 | registration defaults: not superuser, active, no audit fields; valid iff username ≤ 30, names ≤ 100, 8 ≤ password ≤ 300 |
| Schema.ValidateUserResponse | schema/AuthUserSchema.py:20-28 | the public view copies id, names, flags and audit fields and has no password; it fails iff a string exceeds the schema bounds |
| Schema.NewCreateGroup | schema/AuthUserSchema.py:38-42 | group defaults: active, `created_by` the load-time clock, no last modifier; valid iff name ≤ 30 |
| Schema.ValidateGroupResponse | schema/AuthUserSchema.py:44-51 | with `from_attributes` off a stored row is always refused (`model_type`); with it on, the view copies the row and fails iff the name exceeds 30 characters |
| Schema.GroupRowsRefused | schema/AuthUserSchema.py:44-51 | as declared (no `model_config`), no stored group ever has a public view |
| Repository.UserRepository.Create | repositories/AuthUserRepository.py:16-29 | stores exactly one row built from all given columns under the next id, iff it fits and the username is new; otherwise the table is unchanged; the table invariant is kept |
| Repository.UserRepository.GetByUsername | repositories/AuthUserRepository.py:31-41 | the unique user whose username equals the argument exactly (case-sensitive), or None when there is none |
| Repository.UserRepository.IsDetailsOccured | repositories/AuthUserRepository.py:43-55 | None iff no user has that name; otherwise the public view of the first user of that name, or a repository error when that first user's view fails validation |
| Repository.GroupsRepository.Create | repositories/AuthUserRepository.py:65-82 | as written, always the repository error of `Groups(**data)` spread over a schema object; nothing is stored |
| Repository.GroupsRepository.Insert | repositories/AuthUserRepository.py:65-82 | the insert evidently intended: one group row under the next id iff the columns are accepted and the name is new; otherwise the table is unchanged |
| Security.AuthSecurity.GetHashedPassword | auth/security.py:30-31 | raises exactly for a secret passlib refuses; otherwise the hash verifies against the password and carries the given salt |
| Security.AuthSecurity.VerifyHashedPassword | auth/security.py:33-34 | raises exactly for a secret passlib refuses; otherwise true iff the password agrees with the hashed one on what bcrypt consumes |
| Security.AuthSecurity.CreateAccessToken | auth/security.py:36-42 | signed with the configured key and algorithm; claims are the input's keys plus `exp`, the input's claims are kept, `exp = now + 60 * minutes` overwriting any caller `exp` |
| Security.AuthSecurity.CreateRefreshToken | auth/security.py:44-48 | the same, with `exp = now + 7 days` |
| Security.AuthSecurity.VerifyToken | auth/security.py:50-58 | `{valid: true, username: sub}` iff the token is signed under this key and algorithm, unexpired at `now`, well typed and carries `sub`; otherwise `{valid: false, username: None}` |
| Security.AuthSecurity.GetUserLoginIn | auth/security.py:60-76 | invalid token: 401 with `isLogin: false`; valid token whose subject is not stored: a 404 envelope returned, not raised; otherwise the stored user named by the subject |
| Security.SubjectClaims | service/AuthUserService.py:63-64 | the token claims `{"sub": username}`: exactly one claim, the username as a string, so well typed |
| Security.AccessTokenVerifies | auth/security.py:36-58 | an access token for u verifies as u exactly while `at < now + lifetime`, and is invalid afterwards |
| Security.RefreshTokenVerifies | auth/security.py:44-58 | a refresh token for u verifies as u for seven days, so the verifier accepts both kinds |
| Security.RefreshIgnoresAccessSetting | auth/security.py:44-48 | the refresh token does not depend on the access-token lifetime setting |
| Security.ForeignTokensRejected | auth/security.py:50-58 | tokens under another key, and non-tokens, never verify |
| Security.GateRejectsBeforeLookup | auth/security.py:62-64 | for an invalid token the gate's outcome is the same whatever the store holds |
| Service.RegistrationColumns | service/AuthUserService.py:35-37 | the stored columns are the body's with the password replaced by the hash; the store accepts them iff the body's strings fit 50 characters |
| Service.ConflictFields | service/AuthUserService.py:26-30 | lists `username` exactly when the existing record has the body's username, and nothing otherwise |
| Service.LoginTokens | service/AuthUserService.py:63-70 | type "bearer"; the access token verifies as the user exactly during its lifetime, the refresh token exactly for seven days |
| Service.ProfileShowsExactlyFiveFields | service/AuthUserService.py:110-116 | two users have the same profile iff they agree on username, names and the two flags; id, hash and audit fields do not show |
| Service.GroupColumnsOf | repositories/AuthUserRepository.py:68 | the columns the intended `Groups(**data)` receives are the body's fields; the store accepts them iff the name fits and both audit fields are given and fit |
| Service.UserService.Create | service/AuthUserService.py:21-45 | taken username: 409 with data `["username"]` (a repository error when the username exceeds 30), nothing stored; a password passlib refuses raises, nothing stored; otherwise exactly one row appended with `hash(password)` and the body's other fields, and 201 with its public view; a refused row raises and stores nothing; a stored username over 30 raises after the insert |
| Service.UserService.Login | service/AuthUserService.py:47-78 | unknown user: 404 `[]` whatever the password; known user: raises iff passlib refuses the password, else 401 `[]` for a wrong one; success iff a stored user of that name verifies the password, then 200 with access and refresh tokens for that name and type "bearer" |
| Service.UserService.CheckLoginStatus | service/AuthUserService.py:80-120 | invalid token: 401; valid token whose user is gone: 404; otherwise 200 with exactly username, first name, last name, active and superuser flags of the stored user |
| Service.UserService.GetCurrentUser | service/AuthUserService.py:122-130 | the stored user of exactly that name, or None |
| Service.Stamp | service/AuthUserService.py:146-147 | both audit fields become the acting user's name; name and active flag are kept |
| Service.GroupsService.Create | service/AuthUserService.py:142-157 | as written, every call raises the repository error and stores nothing |
| Service.GroupsService.CreateIntended | service/AuthUserService.py:142-157 | as intended: the stored group has the body's name and active flag and the acting user as creator and last modifier, and the answer is 201; a taken name or too wide column raises and stores nothing; a name of 31 to 50 characters is stored and then raises |
| Service.LoginUnknownUserIgnoresPassword | service/AuthUserService.py:50-55 | for an unknown username the login answer does not depend on the password given |
| Service.LoginTokensIdentifyUser | service/AuthUserService.py:63-73 | the tokens of a successful login verify as the logged-in user: the access token for its lifetime, the refresh token for seven days |
| Service.LoginThenStatus | service/AuthUserService.py:63-117 | over an unchanged store, the access token of a successful login passes the status check until it expires, with that user's profile |
| Service.LoginThenGate | auth/security.py:60-76 | the gate authenticates the access token of a successful login as the user who logged in |
| Service.CheckStatusIgnoresStoreOnBadToken | service/AuthUserService.py:83-92 | for a token that does not verify the status answer is the same whatever the store holds |
| Service.StampOverridesCaller | service/AuthUserService.py:146-147 | caller-supplied audit fields make no difference to the stamped body |
| Service.RegisterTwiceScenario | service/AuthUserService.py:21-41 | "alice" registered twice: 201 with her public view, then 409 `["username"]`, one stored row with the defaults and a hash of her password |
| Service.GroupCreateScenario | service/AuthUserService.py:142-157 | creating "admins": the code as written raises, the intended creation answers 201 with the stamped group under id 1 |
| Service.LoginScenario | service/AuthUserService.py:47-117 | "alice" then logs in with 200 and her access token yields 200 with her profile |

## Findings

| source | as written | input that shows it | evidently intended | confidence | as-written member | corrected member |
|---|---|---|---|---|---|---|
| repositories/AuthUserRepository.py:68 | `Groups(**data)` spreads the `CreateGroupsSchema` object the service passes; a pydantic model is not a mapping, so it raises `TypeError` and the repository raises its error | any group body from an authenticated user | insert the body's columns as a row; even with the spread fixed, line 75 selects `Groups.id == stmt.id` while the pending row has no id yet, so `scalar_one()` at line 76 raises `NoResultFound` and the rollback at line 80 undoes the add; `Insert` models the intended insert, not a one-line fix | not executed; high | Repository.GroupsRepository.Create | Repository.GroupsRepository.Insert |
| schema/AuthUserSchema.py:44-51 | `GroupsResponseSchema` sets no `from_attributes`, so `model_validate` of the stored ORM row at service/AuthUserService.py:151 refuses it | any stored group | the public view of the stored group, and a 201 answer | not executed; high | Schema.GroupRowsRefused | Service.GroupsService.CreateIntended |

## Left out

- The HTTP layer (routing, the catch-all turning a raised service error into a 500 envelope, CORS, lifespan, the 422 and `HTTPException` handlers) is framework glue. It is not part of this model. So is the `/me` route, which passes the raw token as a username.
- The composition of the gate with group creation is controller code. When the gate returns its 404 envelope, the route's log line reads `user.username` off it (controller/AuthUserController.py:131) and raises. The request then answers 500 (:136-141), and the group service is never called. The model's `GroupsService` always holds a user record.
- Parsing the `Authorization: Bearer` header (section 2.1 of RFC 6750) is the framework's job. The model's token is already a `Jwt.Token` value.
- Environment loading, logging setup and the engine/session factory are configuration I/O. The settings appear only as the constants `Security.DefaultAlgorithm` and `Security.DefaultAccessTokenExpireMinutes`.
- async/await, sessions, commit/refresh/rollback are persistence plumbing; each table is a sequence of rows.
  - Requests are modelled one at a time. Concurrent registrations of one name could both pass the existence check of `UserService.create` (service/AuthUserService.py:24) before either inserts (:38). The second insert would then be refused by the unique constraint and raise a service error rather than answer 409. The `UniqueViolation` branch of `Repository.UserRepository.Create` stands for that refusal. Within one call it is never reached from the service.
  - A database connection failure on a lookup is not modelled. Only the store's refusal of a row (width, NOT NULL, uniqueness) and a failed projection are modelled.
  - The id gaps a database sequence leaves after a failed insert are not modelled. Ids are only required to be fresh and increasing.
- Repository.GroupsRepository.Insert: models the insert the source evidently intends, not the source with the `**` spread fixed. With the spread fixed, the source would still store nothing. Commit and refresh are commented out, so the pending row has no id when line 75 selects by `stmt.id`. `scalar_one()` then raises, and the rollback undoes the add. This intended insert also ignores the missing commit: the model has no sessions, so the row stays in the table.
- `created_date` and `last_modified_date` (clock defaults) are left out, along with the clock itself. Time is the parameter `now`.
- Log lines and prints are left out.
- The membership and permission tables have no logic and are left out.
- The text of the exception messages is left out. A raised error is modelled by its cause (`Service.Fault`, `Repository.RepoError`).
- The `except JWTError` branch of `get_user_login_in` is unreachable, because `verify_token` never raises. It is not modelled.
- bcrypt internals and the HMAC-SHA256 computation are foreign cryptography. They are idealised as constructors, which makes hashing injective and forgery impossible.
- Bcrypt.HashPassword: counts characters rather than UTF-8 bytes, both for bcrypt's 72-byte limit and for passlib's 4096-byte limit. Verifying against a malformed stored hash is not modelled, because every stored hash comes from hashing. It follows the classic silently truncating behaviour, not bcrypt releases that reject longer passwords.
- Jwt.Decode: checks only the `exp` and `sub` claims, the only ones the backend issues. It accepts `exp` strictly before expiry, per RFC 7519. The decoding library itself also accepts a token at the very second `now == exp`; that boundary is not modelled.
