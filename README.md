# social-network-api, modelled in Dafny

A model of the core of a small Go REST backend for a social network. Users
register, log in with a bearer token (a JWT signed with HS256), follow each
other and write publications that others like. The model has four layers.

- **Entity preparation** (`GoStrings`, `Models`) covers `User.Prepare` and
  `Publication.Preparar`. Each runs fixed-order presence checks, then
  trimming with `strings.TrimSpace`. At the `"cadastro"` (registration) stage
  the user's password is also replaced by its bcrypt digest. The two classes
  are the Go variables that the pointer-receiver methods change in place.
  The datatypes are the struct values.
- **Bearer tokens** (`Strconv`, `Auth`) cover `extractToken`, `CreateToken`,
  the key callback, `TokenValidation` and `ExtractUserID`. The JWT library is
  a record of three functions: sign, decode and signature check. `Sound()`
  states the only properties assumed of it. `strconv.ParseUint` is
  modelled exactly.
- **Repositories** (`Tables`, `SqlLike`, `RepositoryUser`,
  `RepositoryPublication`) hold the MySQL tables in one `Database` object:
  - a `users` map;
  - a `followers` set of `(user_id, follower_id)` pairs;
  - a `publications` map;
  - auto-increment counters.

  Each repository method is the one SQL statement it runs, with `LIKE`
  pattern matching written out.
- **Handlers** (`Http`, `UsersController`, `PublicationsController`,
  `LoginController`) are methods over the store. Each takes the request's
  path variable, decoded body and, where the handler calls
  `auth.ExtractUserID`, that call's outcome on the request's
  `Authorization` header (`Http.Request.caller`: the caller's id or the
  error). The `Auth` lemmas state what that outcome is for a given header.
  The handlers run their checks in the source's order and return the status
  and error text that `responses.Erro` / `responses.JSON` write.

bcrypt, `checkmail.ValidateFormat`, the JWT library, the clock and
`database.Connect` are not modelled; they are passed in as parameters.
These are the `Env` record, `Security.Bcrypt` and `Auth.Jwt`. The properties
proved about them assume only `Bcrypt.RoundTrip()`,
`Bcrypt.RejectsEmptyDigest()` and `Jwt.Sound()`, each named in a `requires`.

Where the code and the documentation of the system disagree, the model
follows the code.
- `CreateUser` answers 201 with the user it stored. That user's password
  field holds the bcrypt digest, not an absent value.
  `UsersController.CreateUser` states this.
- The feed (`SearchPost`) reads a single row, so it returns at most one
  publication.
- The 403 messages in the controllers are kept as the source file spells
  them. Each non-ASCII letter appears there as `??`.
- `DeletePost` reuses the "atualizar" wording of `UpdatePost`'s message.

## Model

| member | source | states |
|---|---|---|
| GoStrings.TrimSpaceCuts | src/models/User.go:60-62 | the result is the input with its leading and trailing Unicode white space removed (only white space is removed), and it has none left at either end |
| GoStrings.TrimSpaceIdempotent | src/models/Publication.go:42-45 | trimming a trimmed string changes nothing |
| GoStrings.TrimSpaceOfBlank | src/models/User.go:60 | a string of white space only trims to the empty string |
| GoStrings.Split | src/auth/token.go:67 | `strings.Split` on one character: one piece more than there are separators, no piece holds the separator, and joining the pieces with it gives back the input |
| GoStrings.ToLower | src/controllers/usersController.go:68 | same length, each character lowered (ASCII letters) |
| Strconv.ParseUintSpec | src/controllers/usersController.go:94 | `ParseUint(s, 10, bits)` succeeds iff `s` is a non-empty string of decimal digits whose value is at most 2^bits - 1, and then returns that value |
| Strconv.DecimalValueOfFormat | src/auth/token.go:53 | the decimal text of `n` reads back as `n` |
| Strconv.FormatParseRoundTrip | src/auth/token.go:52-54 | parsing the decimal text of `n` gives `n` when it fits in the bit size and a range error otherwise |
| Strconv.WideIdentifier | src/controllers/usersController.go:94 | an id between 2^32 and 2^64 - 1 is a range error for a 32-bit parse and parses at 64 bits |
| SqlLike.LikeAnything | src/repository/user.go:48-51 | a lone `%` matches every string |
| SqlLike.EmptyQueryMatchesAll | src/repository/user.go:48-51 | the pattern `%%` built from an empty query matches every string, so an empty search returns every user |
| SqlLike.LikeContains | src/repository/user.go:48-51 | for a query without `%`, `_` or `\`, `s LIKE '%q%'` holds iff `q` occurs in `s` |
| Models.FirstBroken | src/models/User.go:35-57 | no message iff every rule holds; otherwise the message of a failing rule all of whose predecessors hold |
| Models.UserValidation | src/models/User.go:35-57 | no error iff name, nick and e-mail are non-empty, the e-mail is well-formed, and at registration the password is non-empty |
| Models.ValidationReportsFirstFailure | src/models/User.go:35-57 | the error is the message of the first failing check, in the order name, nick, e-mail presence, e-mail format, password |
| Models.EditionIgnoresPassword | src/models/User.go:52-54 | outside registration the password does not affect validation, so an empty one passes |
| Models.UserFormatted | src/models/User.go:59-74 | name, nick and e-mail are trimmed; id and creation time are kept. At registration a successful hash replaces the password, and a failed one is the error with the password kept. At any other stage the password is unchanged and there is no error |
| Models.UserPrepared | src/models/User.go:22-33 | a validation error leaves every field as it came in and is the result; otherwise the result is the formatting |
| Models.BlankNamePasses | src/models/User.go:36-62 | a white-space-only name passes validation and is empty once prepared |
| Models.RegisteredPasswordVerifies | src/models/User.go:64-71 | given the hash/verify round trip, the digest stored at registration verifies against the submitted password |
| Models.PublicationValidation | src/models/Publication.go:30-40 | no error iff title and content are non-empty; the title error wins when both are empty |
| Models.PublicationFormatted | src/models/Publication.go:42-45 | title and content are trimmed, and id, author, author nick, likes and creation time are kept |
| Models.PublicationPrepared | src/models/Publication.go:21-28 | succeeds iff title and content are non-empty; on failure nothing changes, on success the result is the formatting |
| Models.PublicationFormattedIdempotent | src/models/Publication.go:42-45 | formatting twice equals formatting once |
| Models.BlankTitlePasses | src/models/Publication.go:31-44 | a white-space-only title passes validation and is empty after formatting |
| Models.User.Prepare | src/models/User.go:22-33 | the variable's new value and the returned error are those of `UserPrepared` on its old value |
| Models.User.Format | src/models/User.go:59-74 | the variable's new value and the returned error are those of `UserFormatted` on its old value |
| Models.Publication.Preparar | src/models/Publication.go:21-28 | the variable's new value and the returned error are those of `PublicationPrepared` on its old value |
| Models.Publication.Formatar | src/models/Publication.go:42-45 | the variable's new value is `PublicationFormatted` of its old value |
| Auth.ExtractToken | src/auth/token.go:64-72 | a header containing other than exactly one space gives `""`; otherwise the result is the space-free text after the single space |
| Auth.ExtractFromTwoWords | src/auth/token.go:64-72 | any header `scheme + " " + token` made of two space-free words yields `token` |
| Auth.ExtractTokenRejects | src/auth/token.go:64-72 | the absent header, a scheme word alone, and a scheme followed by a token with a space in it all yield `""` |
| Auth.ExtractTokenAnyScheme | src/auth/token.go:67-68 | the scheme word is not inspected: `"Token abc"` yields `"abc"` |
| Auth.IssuedClaims | src/auth/token.go:17-20 | the claims are exactly `authorized = true`, `exp` = issue time + 6 h and `usuarioId` = the argument |
| Auth.CreateToken | src/auth/token.go:16-25 | the token is the HS256 signature, under the secret key, of exactly those claims |
| Auth.VerificationKey | src/auth/token.go:74-80 | the key is the secret key iff the header's method is HMAC; any other method is an error |
| Auth.TimeError | src/auth/token.go:30 | no error iff `exp`, `iat` and `nbf` each pass (absent, non-numeric or 0 passes); a failing `nbf` is the message reported, being checked last |
| Auth.Parse | src/auth/token.go:30 | parsing succeeds iff the token decodes, its method is HMAC, its time claims hold at `now` and its signature checks under the key; a success is marked valid; a bad signature on an HMAC token is reported as such even when a time claim also fails |
| Auth.TokenValidation | src/auth/token.go:28-41 | no error iff the header's token parses and is valid |
| Auth.UserIdTextParses | src/auth/token.go:51-54 | the decimal text of the `usuarioId` claim parses at 64 bits iff the claim is a number in 0..2^64 - 1, and then to that number |
| Auth.UserIdClaim | src/auth/token.go:51-60 | the id is the `usuarioId` claim when it is a number that fits in 64 bits; otherwise the error is `ParseUint`'s on the `%.0f` text of the claim (for a boolean, a string or no claim, `fmt`'s bad-verb text) |
| Auth.TextIdClaimRefused | src/auth/token.go:51-57 | a string `usuarioId` claim `t` is refused with the syntax error on the text `%!f(string=t)` |
| Auth.ExtractUserID | src/auth/token.go:43-62 | an id is returned iff the token parses and has a readable id claim; it is that claim, and the token also passes `TokenValidation`. A parse error is passed on as it is; otherwise the error is the claim's |
| Auth.IssueExtractRoundTrip | src/auth/token.go:16-62 | a token issued for `id` and presented in a two-word header within its six hours passes validation and yields `id` |
| Auth.ExpiredTokenRefused | src/auth/token.go:19 | once its six hours are over, an issued token fails validation and id extraction |
| Auth.NonHmacRefused | src/auth/token.go:74-77 | a token whose header names a non-HMAC method fails validation and id extraction |
| Auth.MalformedHeaderRefused | src/auth/token.go:64-72 | a header without exactly one space is refused by both checks |
| Tables.PublicUser | src/repository/user.go:81-107 | the user a read query returns carries the row's id and no password |
| Tables.PublicationView | src/repository/publication.go:43-71 | the publication a read returns carries its id, the row's author and likes, and the joined author nick |
| RepositoryUser.MatchesAsSubstring | src/repository/user.go:47-51 | for a query without wildcards, the name-or-nick search is substring search on name or nick |
| RepositoryUser.User.CreateUser | src/repository/user.go:20-44 | one row with the given name, nick, e-mail and password is added under a fresh id, which is returned; nothing else changes |
| RepositoryUser.User.SearchUsers | src/repository/user.go:47-78 | returns exactly the users whose name or nick matches `%q%`, once each, without password |
| RepositoryUser.User.SearchUserByID | src/repository/user.go:81-107 | the user without password, or the zero user when the id is absent |
| RepositoryUser.User.UpdateUser | src/repository/user.go:110-125 | only name, nick and e-mail of that row change; password, creation time and the other rows and tables are kept |
| RepositoryUser.User.DeleteUser | src/repository/user.go:128-141 | the row is removed; followers and publications are untouched |
| RepositoryUser.User.SearchEmail | src/repository/user.go:144-164 | the id and digest of a user with that e-mail and nothing else, or the zero user when none has it |
| RepositoryUser.User.Follow | src/repository/user.go:167-183 | the pair is added with set semantics (an existing pair is ignored) |
| RepositoryUser.User.StopFollowing | src/repository/user.go:186-199 | exactly that pair is removed, a no-op if absent |
| RepositoryUser.User.SearchFollowers | src/repository/user.go:202-230 | returns exactly the users `v` with `(u, v.id)` in followers, once each, without password |
| RepositoryUser.User.SearchPassword | src/repository/user.go:233-251 | the stored digest, or `""` for a missing id |
| RepositoryUser.User.UpdatePassword | src/repository/user.go:254-269 | only the password column of that row changes |
| RepositoryUser.FollowTwice | src/repository/user.go:167-183 | following twice is following once |
| RepositoryUser.UpdateThenSearchPassword | src/repository/user.go:233-269 | after a password update the lookup returns the new digest |
| RepositoryPublication.UnlikeSaturates | src/repository/publication.go:197-212 | `n` unlikes from `k` likes leave `max(k - n, 0)` |
| RepositoryPublication.UnlikeAfterLike | src/repository/publication.go:181-212 | an unlike undoes a like, and an unlike at 0 stays at 0 |
| RepositoryPublication.InFeedMeaning | src/repository/publication.go:74-80 | a post is a feed candidate iff its author exists and either the author is the caller and has a follower, or the caller follows the author |
| RepositoryPublication.Publication.CreatePost | src/repository/publication.go:16-41 | title, content and author are stored with 0 likes under a fresh id, which is returned |
| RepositoryPublication.Publication.SearchPostByID | src/repository/publication.go:43-71 | the joined publication, or the zero publication (author 0) when the post or its author is absent |
| RepositoryPublication.Publication.SearchPost | src/repository/publication.go:73-110 | at most one publication. It is empty iff no post is a feed candidate; otherwise it is the candidate with the highest id |
| RepositoryPublication.Publication.UpdatePost | src/repository/publication.go:112-128 | only title and content of that row change; likes and author are kept |
| RepositoryPublication.Publication.DeletePost | src/repository/publication.go:130-144 | the row is removed and nothing else changes |
| RepositoryPublication.Publication.SearchUserPublications | src/repository/publication.go:146-179 | returns exactly the publications whose author is `a` (while `a` exists), once each |
| RepositoryPublication.Publication.LikePost | src/repository/publication.go:181-195 | the likes of that row grow by exactly 1; other rows are kept |
| RepositoryPublication.Publication.UnlikePost | src/repository/publication.go:197-212 | the likes of that row become `max(likes - 1, 0)`; other rows are kept |
| RepositoryPublication.LikeTwiceUnlikeThrice | src/repository/publication.go:181-212 | two likes and then three unlikes from 0 likes end at 0, not below |
| Http.PathId | src/controllers/usersController.go:123 | the path id is the decimal value of the parameter when it is all digits and fits; otherwise it is the `ParseUint` error text |
| Http.PathIdOfFormatted | src/controllers/usersController.go:123 | an id written in decimal is read back as itself |
| UsersController.CreateUser | src/controllers/usersController.go:22-64 | the checks run in order: read error 422, bad JSON 400, failed registration preparation 400, no connection 500. Only then is the prepared user inserted, and the reply is 201 with it (digest included). Every failure leaves the store unchanged. The stored digest verifies the submitted password |
| UsersController.SearchUsers | src/controllers/usersController.go:67-88 | 200 with exactly the users whose name or nick matches the lower-cased query, without passwords; 500 without a connection |
| UsersController.SearchUser | src/controllers/usersController.go:91-118 | 400 unless the id parses at 32 bits; then 200 with the user, or the zero user |
| UsersController.SearchUserWideId | src/controllers/usersController.go:94 | an id over 2^32 - 1 gets 400 with a range error |
| UsersController.UpdateUser | src/controllers/usersController.go:121-179 | path id 400, then token 401, then 403 when the token id differs, all before the body is read; then read error 422, bad JSON 400, failed edition preparation 400 and no connection 500, in that order. Otherwise 204, writing the name, nick and e-mail prepared for editing. Every failure leaves the store unchanged |
| UsersController.DeleteUser | src/controllers/usersController.go:182-223 | path id 400, token 401, a mismatch 403 with nothing deleted; otherwise the row is removed |
| UsersController.FollowUser | src/controllers/usersController.go:226-264 | token 401, then path id 400, then self-follow 403 with no change; otherwise `(target, caller)` is added and 201 |
| UsersController.StopFollowingUser | src/controllers/usersController.go:267-305 | token 401, path id 400, self 403 with no change; otherwise `(target, caller)` is removed and 204 |
| UsersController.SearchFollowers | src/controllers/usersController.go:308-336 | 400 on a bad id; otherwise 200 with exactly the followers of the path user |
| UsersController.UpdatePassword | src/controllers/usersController.go:339-406 | token 401, path id 400, another user's id 403, bad JSON 400, a stored digest that does not verify the current password 401, a failed hash 400. Each of these leaves the store unchanged. Otherwise the new digest is stored; a success implies the old password was verified |
| PublicationsController.StoredAuthor | src/controllers/publicationsController.go:159-166 | the author the owner check sees is the stored author when the post and its author exist, else 0 |
| PublicationsController.AbsentPublicationHasNoOwner | src/controllers/publicationsController.go:159-166 | for an absent publication every caller with a non-zero id fails the owner check |
| PublicationsController.CreatePost | src/controllers/publicationsController.go:19-67 | token 401, read error 422, bad JSON 400, failed preparation 400, no connection 500, each with no change. Otherwise the post is stored with the caller as author, whatever the body said |
| PublicationsController.SearchPosts | src/controllers/publicationsController.go:70-97 | 401 without a valid token; otherwise 200 with the caller's feed: at most one post, empty iff there is no candidate, else the joined view of the highest-id candidate |
| PublicationsController.SearchPost | src/controllers/publicationsController.go:100-128 | 400 on a bad id; otherwise 200 with the publication or the zero publication |
| PublicationsController.UpdatePost | src/controllers/publicationsController.go:131-197 | token 401, id 400, connection 500, then 403 when the stored author is not the caller, before the body is read. Then 422/400 for the body and 400 for preparation. Only then are title and content written; every failure leaves the store unchanged |
| PublicationsController.DeletePost | src/controllers/publicationsController.go:200-248 | the same checks; 403 with no deletion when the stored author is not the caller, otherwise the row is removed |
| PublicationsController.SearchUserPublications | src/controllers/publicationsController.go:251-278 | 400 on a bad id; otherwise 200 with exactly the publications of that author |
| PublicationsController.LikePost | src/controllers/publicationsController.go:281-308 | no token or owner check: any parseable id reaches the store and its likes grow by 1 |
| PublicationsController.UnlikePost | src/controllers/publicationsController.go:311-338 | no token or owner check: the likes of any parseable id become `max(likes - 1, 0)` |
| LoginController.Login | src/controllers/loginController.go:16-62 | read error 422, bad JSON 400, no connection 500. A token is written only when the digest of the user found by e-mail verifies the submitted password, and it is the token issued for that user's id. When no candidate verifies the reply is 401 |
| LoginController.LoginTokenNamesUser | src/controllers/loginController.go:54 | the token issued at login, sent back as `Bearer <token>` within six hours, yields the logged-in user's id |
| LoginController.LoginUnknownEmail | src/controllers/loginController.go:42-52 | an e-mail no user has is answered 401 whenever bcrypt rejects the empty digest |

## Left out

- I/O, concurrency and resource handling are not modelled: `ioutil.ReadAll`, `json.Unmarshal`, `mux.Vars`, connection and statement opening and closing, and logging. Their outcomes are inputs: a body read error, a decoding result and the path string.
- Errors from SQL statements and `LastInsertId` are not modelled: every statement succeeds once connected. A failing `database.Connect` is modelled, as `Env.connectError`.
- The schema's unique and foreign-key constraints are not part of this model. The schema is not part of this model either, so the `likes` column default, which the insert leaves to the database, is taken to be 0. The store assumes only that ids are positive and below the counters, so two users may share an e-mail, and `Login` is stated for whichever of them `SearchEmail` returns.
- The column collation is not modelled, for `LIKE` in `SearchUsers` and for `WHERE email = ?` in `SearchEmail` (and so in `Login`) alike. Matching and comparison are character-exact.
- GoStrings.ToLower: lowers ASCII letters only, where Go's `strings.ToLower` lowers every Unicode letter (`"É"` stays `"É"` here), because the Unicode case tables are not modelled; with the collation left out, the query's case plays no further part in matching.
- bcrypt, `checkmail.ValidateFormat`, HS256 signing and JWT decoding are parameters. Only the round-trip properties named above are assumed of them.
- Security.Bcrypt: `hash` is a plain function, so bcrypt's random salt is abstracted away: hashing the same password twice gives the same digest here. Only exact digest equalities, such as the digest `UsersController.UpdatePassword` stores being `hash(new)`, rely on this; the password checks go through `verify`.
- Time is the `now` parameter (Unix seconds). `created_at` is set to it on insert in place of the database clock. `time.Time` values are plain integers.
- Auth.UserIdClaim: the claim goes through `fmt.Sprintf("%.0f", …)` on a float64. Here a numeric claim is an exact integer, so the rounding of fractional claims and of ids above 2^53 is not modelled. Claims that are JSON objects, arrays or `null` are not modelled either.
- Auth.Parse: any token the library cannot decode gets the one error text for a wrong number of segments, where jwt-go also reports base64 and JSON errors; a signature segment that is not valid base64 is reported as an invalid signature, where jwt-go reports the base64 decoding error. The time checks, their messages and the signature check follow dgrijalva/jwt-go v3.2.0 (the module version is not part of this model). Its handling of `aud` and `iss` claims and of non-map claims is not modelled, since no caller uses them.
- Auth.CreateToken: signing cannot fail, because the key is a byte string, so the error result is not modelled.
- Strconv.ErrorText: the number is quoted without Go's `strconv.Quote` escaping.
- Empty list results are `[]`, where Go encodes a nil slice as JSON `null`.
- UsersController.UpdatePassword: the source ignores the body read error, and so does the model. A failed hash answers 400, as the source does.
- The routing tables and the authentication middleware are not modelled. Whether a route requires a token before its handler runs is left to them, and the handlers are modelled alone.
