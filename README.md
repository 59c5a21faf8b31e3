# Authentication and sessions of go-basic-server, modelled in Dafny

This project models the authentication and session core of a small Go HTTP server.

- **Access tokens.** HS256 JWTs carry a user id and an expiry. Access tokens live 7 days and refresh windows 14 days.
- **Session ledger.** A table of (user id, access token, access expiry, refresh token, refresh expiry) rows. Logging in adds a row. A token authenticates only while exactly one row matches it.
- **User directory and user service.** Keyed lookups, and projections that copy only some fields.
- **Auth service.** Role checks and login.
- **Request gates.** `Auth` extracts and verifies the bearer token, checks the ledger and attaches the user id to the request context. `AdminOnly` checks that the user's role is "admin".
- **Utilities.** Bearer-token extraction, validation-error responses, and right-to-left middleware composition.

One Dafny module per Go package:

- `SessionStore` is a class whose `rows` field the methods reassign.
- The user directory is a value.
- The gates are functions that return an `Outcome`: `Reject(status, message)` or `Next(ctx)`.
- Composed handlers are data (`Utils.Chain`), and `Pipeline.Run` interprets them.

Time is an integer count of nanoseconds, the unit of Go's `time.Duration`. Each operation takes the clock reading as a parameter.

The following are inputs:

- a failure of the database (`fault`: the error the query returns);
- the HS256 library (`Jwt.Signer`: a `sign` and a `parse` function);
- bcrypt password checking (a function parameter);
- the random refresh token and its error.

`Jwt.Sound` states what one shared HS256 secret guarantees (RFC 7518 section 3.2, with the `exp` rule of RFC 7519 section 4.1.4). The round-trip lemmas assume it.

In several places the code does something other than what one might expect. The model follows the code:

- One might expect a refresh token expiring exactly at `now` to be expired. The code tests `Before(now)`, so that row is still returned.
- One might expect any matching session to validate a token. `IsValid` asks for a count of exactly one, so two identical rows make a token invalid.
- One might expect a uniform "unauthorized" from a failed login. `Login` answers "user not found" or "invalid password", and returns a session-store error as it is.
- One might expect a failed role lookup to be a server error (500). `AdminOnly` answers 403 for it, as for a wrong role.
- One might expect session `Create` to report a conflict of its own. It returns whatever error the store raises.
- One might expect refresh and logout logic in the auth service. The service defines neither.
- One might expect `Auth` to reject a header without the "Bearer " scheme. It strips the prefix with `TrimPrefix`, so such a header is verified whole.

## Model

| member | source | states |
|---|---|---|
| `Strings.TrimPrefix` | internal/middleware/auth.go:15 | with the prefix, prefix + result is the input; without it, the input comes back unchanged |
| `Strings.TrimSpace` | internal/utils/http.go:66 | the result neither begins nor ends with white space |
| `Strings.TrimSpaceIsSlice` | internal/utils/http.go:66 | the result is a contiguous slice of the input with only white space before and after it |
| `Strings.TrimSpaceOfPadded` | internal/utils/http.go:66 | a trimmed string padded with any white space trims back to itself |
| `Strings.TrimSpaceOfBlank` | internal/utils/http.go:66 | a string of white space trims to "" |
| `Jwt.NewJwtManager` | internal/auth/jwt.go:10-28 | keeps the secret; access lifetime is 7 days; refresh lifetime is twice that |
| `Jwt.NumericDate` | internal/auth/jwt.go:34 | the `exp` a token carries is the instant truncated to a whole second: at most the instant and less than a second before it |
| `Jwt.Generate` | internal/auth/jwt.go:30-40 | signs exactly the user id with `exp` = now + access lifetime truncated to the second, and no token id; the signer's error comes back unchanged (partner: `Jwt.GenerateVerifyRoundTrip`) |
| `Jwt.GenerateWithID` | internal/auth/jwt.go:30-40 | the corrected Generate: the same claims plus a per-login token id `jti` |
| `Jwt.Verify` | internal/auth/jwt.go:42-54 | succeeds exactly when the parse is valid and yields UserClaims, returning those claims; "invalid claims" exactly for a valid parse of other claims; "invalid token" otherwise |
| `Jwt.CreateExpiry` | internal/auth/jwt.go:56-60 | access expiry is now + access lifetime; refresh expiry is now + refresh lifetime |
| `Jwt.DefaultRefreshOutlivesAccess` | internal/auth/jwt.go:56-60 | with the default manager, refresh expiry is exactly 7 days after access expiry |
| `Jwt.ClaimExpiryMatchesSessionExpiry` | internal/auth/jwt.go:30-60 | a generated token's `exp` is within the second before the access expiry stored with the session |
| `Jwt.GenerateVerifyRoundTrip` | internal/auth/jwt.go:30-54 | under a sound signer, a generated token verifies with the same manager to the same user id and `exp` while now < exp, and fails once exp <= now |
| `Jwt.VerifiedIsUnexpired` | internal/auth/jwt.go:42-54 | under a sound signer, Verify never accepts claims whose `exp` is not after now |
| `Jwt.InvalidClaimsUnreachable` | internal/auth/jwt.go:43-52 | when the parser decodes into UserClaims, as ParseWithClaims does, "invalid claims" never occurs |
| `Jwt.GenerateSameSecond` | internal/auth/jwt.go:30-40 | two tokens for one user issued in the same second are identical |
| `Jwt.DistinctIDsDistinctTokens` | internal/auth/jwt.go:30-40 | under a sound signer and a lifetime of at least a second, tokens generated for one user at one instant with different token ids differ |
| `SessionStore.RemoveMultiset` | internal/stores/session/store.go:49-76 | a delete by key keeps each row not holding the key with its multiplicity and keeps no row holding it |
| `SessionStore.RemoveAppend` | internal/stores/session/store.go:49-76 | a delete works row by row, so the order of the remaining rows is kept |
| `SessionStore.RemoveIdempotent` | internal/stores/session/store.go:49-55 | deleting twice by the same key equals deleting once |
| `SessionStore.RemoveAbsent` | internal/stores/session/store.go:49-76 | deleting a key no row holds leaves the table unchanged |
| `SessionStore.CountIsOne` | internal/stores/session/store.go:38-47 | the count is 1 exactly when one row, and only one, matches the user and token |
| `SessionStore.CountAfterRemove` | internal/stores/session/store.go:49-55 | after deleting access token t, no row matches t; counts for every other token are unchanged |
| `SessionStore.Store.Create` | internal/stores/session/store.go:24-36 | returns the store error unchanged; on error the table is unchanged, otherwise exactly one row with the given values is appended |
| `SessionStore.Store.IsValid` | internal/stores/session/store.go:38-47 | true exactly when the store answers and exactly one row matches the user and token; any error, none or two matches give false |
| `SessionStore.Store.DeleteByToken` | internal/stores/session/store.go:49-55 | returns the store error; otherwise removes just the rows with that access token |
| `SessionStore.Store.GetByRefreshToken` | internal/stores/session/store.go:57-68 | store error passed through; ErrNoRows exactly when no row has the refresh token; when a row has the token, the first such row decides: ErrSessionExpired exactly when it expired strictly before now, otherwise that row |
| `SessionStore.Store.DeleteByRefreshToken` | internal/stores/session/store.go:70-76 | returns the store error; otherwise removes just the rows with that refresh token |
| `SessionStore.LogoutRevokes` | internal/stores/session/store.go:38-55 | after a delete by access token, IsValid is false for that token, for every user |
| `SessionStore.CreateValidates` | internal/stores/session/store.go:24-47 | a new row makes a fresh (user, token) pair count once; a second identical row makes it count twice |
| `UserStore.FindUnique` | internal/stores/user/store.go:33-47 | in a directory with unique ids and emails, a lookup returns the one row holding the key |
| `UserStore.Query` | internal/stores/user/store.go:34-37 | the lookup behind each getter: the database fault, ErrNoRows exactly when no row matches, otherwise a matching row |
| `UserStore.GetAll` | internal/stores/user/store.go:18-31 | query error passed through; otherwise as many records as rows, in order, each with only ID and Email, Role and PasswordHash empty |
| `UserStore.GetByID` | internal/stores/user/store.go:33-39 | error passed through; succeeds exactly when a row has the id, carrying its ID, Email and Role and an empty PasswordHash |
| `UserStore.GetByEmail` | internal/stores/user/store.go:41-47 | error passed through; succeeds exactly when a row has the email, carrying its ID, Email and PasswordHash and an empty Role |
| `UserStore.Create` | internal/stores/user/store.go:49-58 | the fault, or ErrEmailTaken exactly when the email is taken, with the directory unchanged; with no fault and a free email it succeeds, appends the row and returns only ID and Email |
| `UserStore.GetRole` | internal/stores/user/store.go:60-66 | error passed through; succeeds exactly when a row has the id, with that row's role |
| `UserStore.CreatePreservesValid` | internal/stores/user/store.go:49-58 | Create keeps ids and emails unique |
| `UserStore.CreateThenGet` | internal/stores/user/store.go:41-58 | a created user is then found by email with its id and hash, and by id with its email and role |
| `UserService.CreateUser` | internal/services/user/service.go:32-46 | "password hashing failed" on a hash error; "user already exists or database error" on any store error; success exactly when hashing succeeds, the store answers and the email is new, adding the user |
| `UserService.GetUserByID` | internal/services/user/service.go:48-59 | any store error becomes "user not found"; otherwise ID, Email and Role of the user with that id |
| `UserService.ListUsers` | internal/services/user/service.go:66-82 | any store error becomes "failed to fetch users"; otherwise one response per row, in order, with ID and Email and an empty Role |
| `UserService.CreateUserThenGet` | internal/services/user/service.go:32-59 | after a successful signup the user is found by id with its email and the default role |
| `AuthService.CheckRole` | internal/services/auth/service.go:28-37 | no error exactly when the stored role equals the expected one; the lookup error unchanged; "forbidden" for a different role |
| `AuthService.CheckRoleAgainstDirectory` | internal/services/auth/service.go:28-37 | in a valid directory, CheckRole passes for a user exactly when its stored role is the expected one, else "forbidden" |
| `AuthService.GetRole` | internal/services/auth/service.go:39-41 | exactly the store's GetRole |
| `AuthService.TokenOrEmpty` | internal/services/auth/service.go:57-58 | the signed token when signing succeeded, and "" (what SignedString returns with its error) when it failed |
| `AuthService.Authenticate` | internal/services/auth/service.go:48-55 | "user not found" exactly on a lookup error; "invalid password" when the hash does not match; otherwise the user with that email |
| `AuthService.Login` | internal/services/auth/service.go:48-70 | a credential error leaves the ledger unchanged; a Create error returns an empty pair and leaves the ledger unchanged; otherwise exactly one row is appended with the user's id, the returned tokens and both CreateExpiry values, and the access token is "" when signing failed |
| `AuthService.LoginChecked` | internal/services/auth/service.go:48-70 | corrected Login: the credential error unchanged, then the signing error, then the refresh-token error, then the Create error, each with an empty pair and the ledger unchanged; when all succeed, no error, and exactly one row is appended with the user's id, a token the signer produced for a token id `jti`, the refresh token and both expiries |
| `AuthService.FailedSigningStillLogsIn` | internal/services/auth/service.go:57-69 | with a failing signer, Login reports success with an empty access token and stores one row whose token is "" |
| `AuthService.FailedSigningRejectedWhenChecked` | internal/services/auth/service.go:57-69 | with the same failing signer, LoginChecked returns the signing error and stores nothing |
| `Middleware.GetUserIdFromContext` | internal/middleware/context_keys.go:12-16 | (v, true) exactly when the user-id key holds an int64 v; (0, false) when absent or of another type |
| `Middleware.GetUserRoleFromContext` | internal/middleware/context_keys.go:18-22 | (r, true) exactly when the role key holds a string r; ("", false) otherwise |
| `Middleware.KeysIndependent` | internal/middleware/context_keys.go:7-10 | setting one key never changes what the other getter reads |
| `Middleware.AuthToken` | internal/middleware/auth.go:14-15 | the header with one leading "Bearer " removed, or the whole header when it lacks that prefix |
| `Middleware.Auth` | internal/middleware/auth.go:12-32 | empty token gives 401 "unauthorized"; passes exactly when Verify succeeds and IsValid holds for the claims' user and token; any other rejection is 401 "invalid or expired session"; passes with the context extended by the user id |
| `Middleware.AuthVerifyFailureIgnoresLedger` | internal/middleware/auth.go:21-25 | when Verify fails, the outcome does not depend on the ledger or its fault |
| `Middleware.AuthContext` | internal/middleware/auth.go:27-30 | the context Auth passes on yields the verified user id, and the same role lookup as before |
| `Middleware.AdminOnly` | internal/middleware/auth.go:34-50 | no user id gives 401 "unauthorized"; passes exactly when the stored role is "admin", with the context unchanged; every other case is 403 "forbidden" |
| `Middleware.AuthAcceptsFreshLogin` | internal/middleware/auth.go:12-32 | a generated token with exactly one ledger row, presented before its exp, passes Auth with its user id |
| `Middleware.AuthRejectsAfterLogout` | internal/middleware/auth.go:12-32 | after the token's rows are deleted, Auth rejects it with 401 |
| `Middleware.AuthRejectsDuplicatedSession` | internal/middleware/auth.go:21-25 | a verified token whose pair is in the ledger twice is rejected with 401 "invalid or expired session" |
| `Utils.ExtractBearerToken` | internal/utils/http.go:61-67 | "" unless the header starts with exactly "Bearer "; otherwise the trimmed remainder after one prefix; the result never begins or ends with white space |
| `Utils.ExtractBearerRoundTrip` | internal/utils/http.go:61-67 | "Bearer " + white space + a trimmed token + white space extracts to that token |
| `Utils.ExtractBearerBlank` | internal/utils/http.go:66 | "Bearer " followed only by white space yields "" |
| `Utils.ExtractBearerStripsOnce` | internal/utils/http.go:66 | "Bearer " + "Bearer x" yields "Bearer x": only one prefix is stripped |
| `Utils.ExtractBearerCaseSensitive` | internal/utils/http.go:63-65 | "bearer x" yields "" |
| `Utils.RespondWithValidationErrors` | internal/utils/http.go:37-58 | status 400; one entry per field error, in order, reading "failed on <tag>"; other errors give their message |
| `Utils.ComposeMiddleware` | internal/utils/middleware.go:5-12 | the loop from the last index down builds m1(m2(…mn(next))): the chain's layers are the list, outermost first, each once, around next |
| `Utils.NestLayers` | internal/utils/middleware.go:7-9 | each middleware is applied exactly once, in list order |
| `Utils.NestEmpty` | internal/utils/middleware.go:6-11 | composing no middleware is the identity |
| `Utils.NestAppend` | internal/utils/middleware.go:7-9 | Compose(a + b)(h) = Compose(a)(Compose(b)(h)) |
| `Pipeline.AdminRouteOrder` | internal/handlers/user/handler.go:24-30 | with [Auth, AdminOnly], Auth's rejection is final; past Auth the handler runs exactly when the role is "admin", else 403; AdminOnly's 401 never appears |
| `Pipeline.AdminRouteRoles` | internal/handlers/user/handler.go:24-30 | a user with role "user" gets 403 on the admin route; one with role "admin" reaches the handler |
| `Pipeline.ReversedOrderRejects` | internal/utils/middleware.go:7-9 | listed as [AdminOnly, Auth], a request with no user id is rejected 401 before Auth runs |
| `Pipeline.AuthRoute` | internal/handlers/user/handler.go:23-29 | the authenticated route runs its handler exactly when Auth passes, with Auth's context |

## Findings

| source | as written | input that shows it | evidently intended | confidence | as-written member | corrected member |
|---|---|---|---|---|---|---|
| internal/services/auth/service.go:57-61 | the errors of `Generate` and `GenerateRefreshToken` are overwritten before anything reads them, and Login goes on to create the session | a signer whose `SignedString` fails: Login returns a nil error and an empty access token, and stores a session row with token "" | return the generation error and create no session | high; not executed | `AuthService.Login` (shown by `AuthService.FailedSigningStillLogsIn`) | `AuthService.LoginChecked` (shown by `AuthService.FailedSigningRejectedWhenChecked`) |
| internal/auth/jwt.go:30-40 | the access token signs only the user id and an `exp` truncated to the second, so two logins of one user within one second get the same token, and Login stores the same (user, token) pair twice | two logins of one user at instants `t1`, `t2` with `t1 / 1s == t2 / 1s`: the tokens are equal, the ledger then counts the pair twice, and `IsValid` (count == 1) rejects the token for both sessions. If the sessions table has a UNIQUE constraint on the token, which is not part of this model, the second login fails instead | each login gets its own token, for example through a per-login `jti` claim | medium; not executed; depends on the unseen schema | `Jwt.GenerateSameSecond` (with `Middleware.AuthRejectsDuplicatedSession`) | `Jwt.GenerateWithID` (shown by `Jwt.DistinctIDsDistinctTokens`), used by `AuthService.LoginChecked` |

## Left out

- Refresh rotation and logout: `AuthService.RefreshToken` and `AuthService.Logout` are called by the auth handler but defined nowhere in the service, so they have no model. The ledger operations they would use are modelled.
- The handlers compose their gates with `router.ComposeMiddleware` (internal/handlers/user/handler.go:23-27), which internal/router/router.go does not define. `Pipeline` assumes it behaves as `utils.ComposeMiddleware` (internal/utils/middleware.go:5-12).
- HTTP handlers, JSON encoding and decoding, routing, logging, configuration, database drivers and application wiring: plumbing with no logic of their own.
- HS256 signing and parsing (golang-jwt): the abstract `Jwt.Signer`, constrained only by `Jwt.Sound` and `Jwt.TypedClaims`.
- bcrypt hashing, `utils.CheckPasswordHash` and `utils.GenerateRefreshToken`: not part of this model. Their outcomes are parameters.
- sqlc query text: not part of this model.
  - `IsValidSession` counts rows matching the user and the token. A further filter in its WHERE clause, such as an expiry test, is not modelled.
  - A `:one` query returns the first matching row in table order.
  - `GetAll` receives the `ListUsers` query result as given, so LIMIT and OFFSET are not modelled.
  - The users table is assumed to have a unique email, ids assigned in increasing order, and the default role "user".
- Store failures: a failing statement changes nothing and returns its error. The model does not decide which failures the database raises.
- The clock: Go reads `time.Now()` separately in `Generate` and in each half of `CreateExpiry`. The model uses one reading per call.
- Integer widths: user ids and instants are unbounded integers. The int64 range of ids and the range of `time.Time` are not modelled.
- Strings: Go strings are bytes, while here they are sequences of Unicode scalar values. Invalid UTF-8 is not modelled.
- Request contexts: only the two keys of this package are modelled. Deadlines, cancellation and keys of other types are not.
- RespondWithValidationErrors: an empty list of field errors leaves `errs` nil, which encodes as JSON null. The model gives an empty sequence.
- Concurrency: requests are modelled one at a time.
- Jwt.GenerateVerifyRoundTrip: after expiry it states only that Verify fails, not which message. `Jwt.InvalidClaimsUnreachable` gives "invalid token" when the parser decodes into UserClaims.
