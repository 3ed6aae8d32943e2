# Token lifecycle of go-authen-system, in Dafny

This project models the authentication core of a small Go service built on gin, GORM and golang-jwt. A user registers and logs in, and gets two signed JWTs:

- an access token, signed with the secret key, valid for 24 hours;
- a refresh token, signed with the refresh key, valid for 7 days.

Login saves the refresh token in a table of refresh-token rows. RefreshToken accepts a refresh token only if its signature checks out and a live row holds it. It then mints a new pair from the token's own claims and writes the new refresh token into every row of that user. Logout deletes all of a user's rows, which revokes tokens whose signatures are still valid.

Modules, one per part of the system:

| module | models |
|---|---|
| `Errors` | the error values and the `Result` / `Outcome` wrappers |
| `Jwt` | the token codec: claims, HS256 signing, verification |
| `Credentials` | the bcrypt wrapper |
| `Users` | the user table and its repository (a class) |
| `UserDto` | the registration request's validation rules and the partial update request |
| `UserService` | the two user-use-case operations that authentication calls |
| `AuthStore` | the refresh-token table and its repository (a class) |
| `Auth` | the authentication use case (a class) and the properties of the workflow |
| `Scenarios` | client sessions that drive the classes end to end |

Modelling choices:

- **Clock.** Every request reads one clock value `now`, in Unix seconds. This stands for `time.Now()` in Go and for the database's `NOW()`.
- **Signing.** Signing is symbolic. `Sign(claims, key)` builds the term `Tag(HS256, claims, key)`. The term is deterministic: it is equal for equal inputs and different otherwise. This stands for HMAC-SHA256 (section 3.2 of RFC 7518), with one difference: the term tells every two distinct key strings apart, while HMAC does not (see `Jwt.KeySeparation` under "## Left out"). A minted `Token` value stands for the one compact string (RFC 7519) that the library produces; a presented token stands for its parse.
- **Passwords.** A bcrypt digest is `Bcrypt(salt, secret)`. The random salt is a parameter.
- **Database failures.** Each repository has a flag `available`. When it is false, every statement fails with `StorageFailure`, and `IsRefreshToken` answers false.
- **Classes and specifications.** Both repositories and the use case are classes whose methods change `seq` fields. Each method's `ensures` ties its result and new state to a pure function of the old state: `CreateResult`, `UpdateOutcome`, `LoginResult`, `RefreshResult`, `RowsAfterRefresh` and others. The workflow properties are lemmas about those functions.
- **The binding invariant.** The use case keeps `TokensBoundToRows`: every stored row holds a parsed token whose claims name the row's owner. Login and RefreshToken preserve it. Given it, the "save refresh token failed" branch of RefreshToken is unreachable while the database is up (`Auth.RefreshFindsRow`).

Pieces the code calls but does not define, filled in by their evident intent:

- `VerifyAccessToken` and `VerifyRefreshToken` are `VerifyToken` with the secret key and with the refresh key.
- `RefreshTokenDuration` is 7 days, the duration `GenerateRefreshToken` uses.
- `UserUsecase.CreateUser` panics in the code. It is modelled as: hash the password, then insert a user with id 0, so that the database assigns the id.
- `GetUserByEmail` is missing from the `UserUsecase` interface. It is modelled as the repository's `FindByEmail`.

Behaviours of the code worth knowing:

- **Unknown email at login.** Login passes on the repository's "record not found" error. It does not replace it with the error for a wrong password, so the two cases can be told apart (`Auth.LoginOutcomes`).
- **Rows per user.** Login appends a row every time, and nothing makes `user_id` unique. One user can therefore own several rows, and all of them stay live (`Scenarios.TwoDeviceSession`).
- **Refresh in the same second.** The claims hold no issued-at time and no unique id, and signing is deterministic. A refresh in the same second the presented token was minted therefore produces the identical token, which stays live. The old token is revoked only by a refresh in a later second (`Auth.SameSecondRefreshKeepsToken`, `Auth.LaterRefreshRevokes`).
- **Register and the store.** Register mints tokens but saves no refresh-token row.
- **Expiry boundary.** The code's own check rejects a token when `now > exp`. Before that, golang-jwt v5 already rejects it unless the current instant is before `exp`. With a whole-second clock that means `now < exp`, so a token is accepted exactly when `now < exp`. The code's own check is kept as a branch, but with one clock it never fires.

## Model

| member | source | states |
|---|---|---|
| Jwt.TokenKindsDiffer | internal/utils/security/jwt.go:38-60 | the access and refresh tokens minted for one identity in one second are never the same token, whatever the keys: the refresh token expires six days after the access token |
| Jwt.GenerateToken | internal/utils/security/jwt.go:62-76 | the minted token is HS256, verifies against the key it was signed with, and its claims carry exactly the given identity with exp = now + duration |
| Jwt.GenerateAccessToken | internal/utils/security/jwt.go:38-48 | an access token verifies against the secret key, carries the given identity, and expires 86400 s after now |
| Jwt.GenerateRefreshToken | internal/utils/security/jwt.go:50-60 | a refresh token verifies against the refresh key, carries the given identity, and expires 604800 s after now |
| Jwt.VerifyToken | internal/utils/security/jwt.go:78-107 | accepts exactly the tokens that parse, name an HMAC method, carry that method's signature over their claims with this key, and have now < exp; on acceptance it returns the identity in the claims; it gives one error per failing check (malformed, unknown signing method, bad signature, expired) |
| Jwt.VerifyAccessToken | internal/utils/security/jwt.go:78-107 | the access-token check the middleware calls: accepts exactly the authentic tokens under the secret key with now < exp, and returns the identity in their claims |
| Jwt.VerifyRefreshToken | internal/utils/security/jwt.go:78-107 | the refresh-token check RefreshToken calls: accepts exactly the authentic tokens under the refresh key with now < exp, and returns the identity in their claims |
| Jwt.NonHmacRejected | internal/utils/security/jwt.go:79-82 | a token naming any signing method other than HMAC is rejected, whatever its signature |
| Jwt.GeneratedTokenExpires | internal/utils/security/jwt.go:79-87 | from exp on, a generated token is rejected as expired |
| Jwt.GenerateThenVerify | internal/utils/security/jwt.go:62-107 | round trip: a token generated at issuedAt verifies with the same key at any now with issuedAt <= now < exp, and returns the same id, email and role |
| Jwt.KeySeparation | internal/utils/security/jwt.go:78-90 | a token signed with one key is rejected, with a bad signature, by any key that is a different string (see "## Left out" for keys HMAC treats as equal) |
| Jwt.AccessAndRefreshSeparated | internal/utils/security/jwt.go:45-57 | when the two keys are different strings, an access token fails refresh verification and a refresh token fails access verification (see "## Left out" for keys HMAC treats as equal) |
| Jwt.DefaultKeysDiffer | config/config.go:31-32 | the default secret key and the default refresh key differ |
| Jwt.SameSecondSameToken | internal/utils/security/jwt.go:62-68 | two tokens minted for the same identity, key and duration are equal if and only if they are minted in the same second |
| Credentials.VerifyHashed | internal/utils/security/password.go:5-16 | a digest accepts the password it was made from, and no other |
| Users.UserRepository.Create | internal/modules/user/user_repository.go:27-33 | succeeds if and only if the database is up and the new row clashes with no row on id, username or email; on success returns the input with an id drawn from the sequence and appends exactly that row; otherwise a duplicate key or a storage failure with the table unchanged; advances the id sequence even when the insert then fails; keeps the unique-key invariant (with Users.AppendKeepsUnique) |
| Users.FirstWithEmail | internal/modules/user/user_repository.go:49-55 | finds a row if and only if some row has that email, and the row found has that email |
| Users.FindByEmailResult | internal/modules/user/user_repository.go:49-55 | Ok if and only if the database is up and some row has that email; the value is such a row; otherwise "record not found" or a storage failure |
| Users.UserRepository.FindByEmail | internal/modules/user/user_repository.go:49-55 | Ok if and only if the database is up and some row of the table has that email; the value is such a row; otherwise "record not found" or a storage failure |
| Users.FindByEmailUnique | internal/modules/user/user_repository.go:49-55 | with unique emails, the row found for an email is the one row that has it |
| Users.FirstWithId | internal/modules/user/user_repository.go:64-70 | finds a row if and only if some row has that id, and the row found has that id |
| Users.FindByIdResult | internal/modules/user/user_repository.go:64-70 | Ok if and only if the database is up and some row has that id; the value is such a row; otherwise "record not found" or a storage failure |
| Users.UserRepository.FindByID | internal/modules/user/user_repository.go:64-70 | Ok if and only if the database is up and some row of the table has that id; the value is such a row; otherwise "record not found" or a storage failure |
| Users.UserRepository.ListUsers | internal/modules/user/user_repository.go:57-62 | when the database is up, returns exactly the rows of the table, each as often as it occurs, in no promised order; otherwise an error |
| Users.CountWithId | internal/modules/user/user_repository.go:35-47 | the number of rows with an id is zero if and only if no row has it |
| Users.RemoveWithId | internal/modules/user/user_repository.go:35-47 | deleting by id keeps exactly the rows with other ids, and removes as many rows as had that id |
| Users.RemoveKeepsUnique | internal/modules/user/user_repository.go:35-47 | deleting rows keeps the unique constraints |
| Users.UserRepository.Delete | internal/modules/user/user_repository.go:35-47 | with zero rows affected, fails with "user not found" and changes nothing; otherwise removes exactly the rows with that id |
| Users.ReplaceThenFind | internal/modules/user/user_repository.go:64-84 | after an update by id, FindByID of that id returns the written row when a row had the id, and every other id finds what it found before |
| Users.ReplaceKeepsUnique | internal/modules/user/user_repository.go:72-84 | an update that clashes with no other row keeps the unique constraints |
| Users.UserRepository.Update | internal/modules/user/user_repository.go:72-84 | with zero rows affected, fails with "user not found"; a clash on username or email fails with a duplicate key; otherwise it overwrites the row and keeps the unique constraints |
| Users.AppendKeepsUnique | internal/modules/user/user_entity.go:5-12 | inserting a row that clashes with none keeps the primary key and the unique username and email columns |
| UserDto.ValidateCreateUserRequest | internal/modules/user/user_dto.go:3-8 | no errors if and only if username and email are non-empty, the password has at least 4 characters, and the confirmation equals the password; each field reports the first of its rules that fails: Required exactly when the field is empty, min=4 exactly when the password is non-empty but shorter than 4, eqfield exactly when the confirmation is non-empty and differs from the password |
| UserDto.ShortPasswordRejected | internal/modules/user/user_dto.go:6 | a two-character password fails only its min=4 rule |
| UserDto.ApplyUpdateLaws | internal/modules/user/user_dto.go:10-13 | an empty update is the identity, and applying an update twice equals applying it once |
| UserService.UserUsecase.CreateUser | internal/modules/user/user_usecase.go:5-11 | inserts the request's username and email with a bcrypt digest of its password, and returns what the table's Create returns |
| UserService.UserUsecase.GetUserByEmail | internal/modules/auth/auth_usecase.go:58-61 | the lookup Login calls: Ok if and only if the user table is up and holds a row with that email, which it returns; otherwise "record not found" or a storage failure |
| UserService.CreatedUserAcceptsPassword | internal/modules/user/user_usecase.go:5-11 | a created user holds the requested names, the next id, and a digest that accepts exactly the requested password |
| AuthStore.CountAfterSave | internal/modules/auth/auth_repository.go:25-30 | saving a row adds one to its owner's row count and nothing to anyone else's, so repeated saves for one user coexist |
| AuthStore.AuthRepository.SaveRefreshToken | internal/modules/auth/auth_repository.go:25-30 | when the database is up, appends exactly one row with a fresh id, the given user, token and expiry, and now as the creation time; otherwise fails and changes nothing |
| AuthStore.RotateForUser | internal/modules/auth/auth_repository.go:32-36 | every row of the user gets the new token and expiry; the number of rows and every other row stay the same |
| AuthStore.RotateKeepsCounts | internal/modules/auth/auth_repository.go:32-36 | rotating one user's rows leaves every user's row count unchanged |
| AuthStore.RotateUniform | internal/modules/auth/auth_repository.go:33 | after rotating a user who owns rows, all of that user's rows hold the one new token, and it is live until its expiry |
| AuthStore.AuthRepository.UpdateRefreshToken | internal/modules/auth/auth_repository.go:32-44 | with zero matching rows, fails with "refresh token not found" and changes nothing; otherwise rotates the user's rows |
| AuthStore.TokenLive | internal/modules/auth/auth_repository.go:46-53 | true if and only if some row holds exactly this token and expires strictly after now |
| AuthStore.AuthRepository.IsRefreshToken | internal/modules/auth/auth_repository.go:46-53 | true if and only if the database is up and some row holds exactly this token with expiry after now; false on any error; it has no side effects |
| AuthStore.CountForUser | internal/modules/auth/auth_repository.go:55-67 | the user's row count is zero if and only if the user owns no row |
| AuthStore.RemoveForUser | internal/modules/auth/auth_repository.go:55-67 | deleting by user id keeps exactly the other users' rows, and removes as many rows as the user owned |
| AuthStore.RemoveKeepsDistinctIds | internal/modules/auth/auth_repository.go:55-67 | deleting rows keeps the row ids distinct |
| AuthStore.AuthRepository.DeleteRefreshToken | internal/modules/auth/auth_repository.go:55-67 | with zero matching rows, fails with "user id not found" and changes nothing; otherwise removes exactly the user's rows |
| AuthStore.RotateRevokesOthers | internal/modules/auth/auth_repository.go:32-53 | a token that no other user's row holds, and that differs from the new token, is dead after the rotation |
| Auth.GenerateTokens | internal/modules/auth/auth_usecase.go:147-161 | the access token verifies against the secret key and the refresh token against the refresh key; both carry the given identity; they expire one access lifetime and one refresh lifetime after now |
| Auth.IssuedTokensIdentify | internal/modules/auth/auth_usecase.go:139-161 | both minted tokens verify, each with its own key and during its own lifetime, to the user's id and email with the role "user" |
| Auth.RegisterOutcomes | internal/modules/auth/auth_usecase.go:35-54 | Register succeeds if and only if creating the user succeeds; a creation error is returned unchanged; on success it returns the created user and tokens that verify to that user's identity |
| Auth.AuthUsecase.Register | internal/modules/auth/auth_usecase.go:35-54 | returns RegisterResult of what user creation returned; appends the created user and nothing else; advances the user id sequence whenever the user table is up; leaves the refresh-token table unchanged |
| Auth.LoginOutcomes | internal/modules/auth/auth_usecase.go:56-90 | Login succeeds if and only if both tables answer and the row with that email accepts the password; it then returns that row with tokens minted for it; an unknown email gives "record not found" |
| Auth.AuthUsecase.Login | internal/modules/auth/auth_usecase.go:56-90 | returns LoginResult; on success appends exactly the row for the returned user and refresh token, expiring one refresh lifetime after now; on any error the refresh-token table is unchanged; the binding invariant is kept |
| Auth.RefreshOutcomes | internal/modules/auth/auth_usecase.go:92-128 | a refresh succeeds only for a token that verifies with the refresh key, is unexpired and is live in the store; the new pair is minted from the presented token's claims; a verification error is returned as is, a dead token gives "invalid refresh token", and every failure leaves the table unchanged |
| Auth.RefreshFindsRow | internal/modules/auth/auth_usecase.go:117-125 | under the binding invariant, a token that passes both checks always finds its owner's rows, so the update cannot fail |
| Auth.RefreshSucceeds | internal/modules/auth/auth_usecase.go:92-128 | a token that verifies and is live in a bound table yields the pair minted from its own claims, and the table becomes the rotation of its owner's rows to the new refresh token |
| Auth.RotationRevokes | internal/modules/auth/auth_usecase.go:117-125 | rotating the owner's rows to a new token for the same user keeps the binding, makes the new token live, and kills the presented token unless the two are equal |
| Auth.RefreshRevokesPresented | internal/modules/auth/auth_usecase.go:92-128 | after a successful refresh, the new refresh token is live, and the presented token is dead at every later time unless it equals the new one |
| Auth.SameSecondRefreshKeepsToken | internal/modules/auth/auth_usecase.go:112-121 | a refresh in the same second the presented token was minted returns that very token, and it stays live |
| Auth.LaterRefreshRevokes | internal/modules/auth/auth_usecase.go:112-121 | a refresh in a later second than the presented token's minting leaves the presented token dead at every time |
| Auth.AuthUsecase.RefreshToken | internal/modules/auth/auth_usecase.go:92-128 | returns RefreshResult of the old table and leaves the table as RowsAfterRefresh; the binding invariant is kept |
| Auth.LogoutRevokes | internal/modules/auth/auth_usecase.go:130-136 | after a successful logout, no token that was stored for that user is live, and refreshing with any of them fails at any later time |
| Auth.AuthUsecase.Logout | internal/modules/auth/auth_usecase.go:130-136 | with no stored row for the user, fails with "delete refresh token failed: user id not found" and changes nothing; otherwise removes exactly that user's rows |
| Scenarios.RotationSession | internal/modules/auth/auth_usecase.go:35-136 | register alice, log in, refresh a minute later (the new token differs), replay the old token (rejected), log out, refresh with the newest token (rejected) |
| Scenarios.RejectionSession | internal/modules/auth/auth_usecase.go:63-66 | a wrong password is refused and saves no row; registering the same email again fails with a duplicate key |
| Scenarios.TwoDeviceSession | internal/modules/auth/auth_usecase.go:76-81 | two logins of one user leave two rows for that user, and both refresh tokens are live |

## Left out

- HTTP plumbing is not modelled. This covers the gin handlers, the routes, the response helpers and the Bearer-header middleware. Because the middleware is left out, so is the fact that the refresh route sits behind access-token authentication. The one handler step that is modelled is the request validation that gates Register: `Auth.AuthUsecase.Register` requires `IsValidCreateUserRequest`.
- Configuration loading, the logger, and the GORM connection and migration are not modelled. Only the two default JWT secrets are kept.
- The JWT wire format is not modelled: no base64url, no JSON segments, and no HMAC-SHA256 bits. Signing is the symbolic `Sign`.
- AuthStore.AuthRepository.IsRefreshToken: the store matches the presented string exactly, while the model compares parsed tokens. golang-jwt decodes the signature segment leniently, so a few strings that differ only in the spare bits of the last base64url character parse to the same token. Replaying such a variant of a stored refresh token is refused with "invalid refresh token" by the code, but accepted by the model.
- Sign errors are not modelled, because HMAC signing with a byte-slice key does not fail. The "sign token failed" and "generate ... token failed" branches therefore never fire.
- Claims are modelled as a typed record whose fields are always present. So the failed `jwt.MapClaims` assertion in `VerifyToken` ("verification failed") cannot occur in the model. Neither can the unchecked assertions `claims["exp"].(float64)`, `claims["user_id"].(float64)`, `claims["email"].(string)` and `claims["role"].(string)`, which panic on a correctly signed token that lacks one of those claims.
- Jwt.KeySeparation: the symbolic tag treats every two distinct key strings as distinct keys. HMAC (section 2 of RFC 2104) zero-pads a key to the 64-byte block and replaces a key longer than 64 bytes by its SHA-256 digest. So keys that differ only in trailing zero bytes, such as "k" and "k\0", or a long key and its digest, verify each other's tokens in the code, where the lemma says they are rejected.
- Jwt.AccessAndRefreshSeparated: it rests on Jwt.KeySeparation, so it holds only for keys that HMAC also tells apart. The two default keys, "secret_key" and "refresh_key", differ in their first byte and are such keys.
- Jwt.VerifyToken: a header naming a signing method that golang-jwt has not registered is refused while parsing with "token is unverifiable: signing method (alg) is unavailable", before the key function runs. The model's signing methods are only the registered ones, so such a token can only be `Malformed` and is refused with the malformed-token error instead.
- Jwt.VerifyToken: the `float64` conversions of `exp` and `user_id` are not modelled. Ids and times are unbounded integers, and the id round trip is exact only for |id| <= 2^53.
- Jwt.VerifyToken: the `now == exp` boundary is decided by golang-jwt v5's own expiry check, which lives inside the golang-jwt library. The model takes that check as `now < exp`, so the code's own `now > exp` check never decides anything.
- Credentials.VerifyHashed: bcrypt internals are not modelled, including its cost and its 72-byte input limit. Hashing errors are left out too.
- Users.UserRepository.Update: GORM `Save` falls back to an insert when no row matches. The model covers only the by-primary-key update, and reports "user not found" where `Save` would insert.
- `UpdatedAt` and `CreatedAt` on users are not modelled. On refresh-token rows, only `CreatedAt` is kept.
- Concurrent requests are not modelled, so neither are races between refresh and logout. Each operation is one atomic step on the tables.
- Database failures are one flag per repository, fixed for the repository's lifetime. A fault that hits one statement but not the next is not modelled.
- The user use case methods GetProfile, GetUsers, UpdateUser and DeleteUser panic ("unimplemented") and are not modelled. `UpdateUserRequest` appears only through `UserDto.ApplyUpdate`.
- The sentinel errors of the errs package are never used by the code and are not modelled.
- The unique index on `users.email` makes the user found by email unique. The refresh-token table has no such index, so the model claims no "one row per user" invariant.
