# gin_auth_service: token revocation and access control, in Dafny

This project models the core of an authentication service written in Go on gin. It covers:

- the in-memory TTL cache that stores revoked tokens;
- the blacklist service built on that cache;
- token creation, verification, refresh and logout over an abstract JWT codec;
- the role table and the five role gates;
- the token source of the authentication middleware, the per-IP rate limiter and the audit classification;
- the header-only blacklist gate;
- the user entity's create/update hooks and the DTO conversions and patch rules;
- the user service's guards over a soft-deleting repository;
- configuration validation over an environment map.

Time is whole Unix seconds (`Clock.Time`). `time.Now()`, `uuid.New()`, token ids (jti), uploaded photos and repository or store failures are all method parameters. The signer and decoder of the JWT library are the opaque `Jwt.Codec`. bcrypt is the opaque `Users.Hasher`. The database is `Repository.UserRepository`, a class over a sequence of rows whose first live match plays gorm's `First`.

Imperative parts of the source are classes:

- `Cache.MemoryCache` over a `map<string, Item>`;
- `RateLimit.RateLimiter` over a map of timestamp lists;
- `Users.User`, whose hooks overwrite its fields;
- `Repository.UserRepository`.

Every method's contract ties its result and its new state to a pure function. The properties are proved about those functions.

The blacklist TTL follows the code rather than a reading of it as a one-hour floor. It is the token's remaining life and becomes one hour only when nothing remains. A positive remaining life shorter than an hour is kept as it is; it is not raised to an hour.

## Model

| member | source | states |
|---|---|---|
| Roles.IsValid | internal/domain/entities/role.go:12-18 | valid exactly for superuser, admin, manager and user |
| Roles.Level | internal/domain/entities/role.go:24-36 | the level lies in 0..4 and is at least 1 exactly for the four valid roles |
| Roles.LevelTable | internal/domain/entities/role.go:24-36 | superuser 4, admin 3, manager 2, user 1, the empty role 0 |
| Roles.LevelsStrictlyOrdered | internal/domain/entities/role.go:24-36 | superuser > admin > manager > user > any invalid role, which has 0 |
| Roles.LevelIdentifiesRole | internal/domain/entities/role.go:12-36 | two roles with the same level, one of them valid, are the same role |
| Roles.HasLevel | internal/domain/entities/role.go:38-40 | every role meets a level of 0 or less; a level of 1 or more only a valid role meets; none meets a level above 4 |
| Roles.HasLevelDownwardClosed | internal/domain/entities/role.go:38-40 | a role that has a level also has every lower one |
| Cache.LiveValue | internal/infrastructure/cache/redis.go:61-76 | a key has a live value iff it is stored and now is not after its expiration |
| Cache.DropIfExpired | internal/infrastructure/cache/redis.go:69-73 | removing a key met expired keeps the other entries and changes no live value |
| Cache.Swept | internal/infrastructure/cache/redis.go:160-174 | the sweep keeps exactly the entries not expired at now, unchanged |
| Cache.CounterValue | internal/infrastructure/cache/redis.go:119-128 | the counter read is a 64-bit integer, 0 for an absent key |
| Cache.SweepKeepsLiveView | internal/infrastructure/cache/redis.go:160-174 | sweeping changes no key's live value |
| Cache.SweepIdempotent | internal/infrastructure/cache/redis.go:160-174 | sweeping twice at the same instant is sweeping once |
| Cache.IncrReadsBack | internal/infrastructure/cache/redis.go:126-133 | a counter stored by Incr reads back as the same number |
| Cache.MemoryCache.constructor | internal/infrastructure/cache/redis.go:34-47 | a new cache is empty |
| Cache.MemoryCache.Set | internal/infrastructure/cache/redis.go:49-59 | the key now holds (value, now+ttl), every other entry unchanged, no error |
| Cache.MemoryCache.Get | internal/infrastructure/cache/redis.go:61-76 | "key not found" for an absent key; "key expired" and removal for an expired one; otherwise the stored value |
| Cache.MemoryCache.Delete | internal/infrastructure/cache/redis.go:78-84 | the key is removed, nothing else changes, no error |
| Cache.MemoryCache.Exists | internal/infrastructure/cache/redis.go:86-101 | true iff the key has a live value (expiration equal to now still counts); an expired entry is removed |
| Cache.MemoryCache.SetNX | internal/infrastructure/cache/redis.go:103-117 | stores and answers true iff the key is absent, even expired entries block it; otherwise nothing changes |
| Cache.MemoryCache.Incr | internal/infrastructure/cache/redis.go:119-136 | stores and returns the 64-bit successor of the current number with a 24-hour expiration |
| Cache.MemoryCache.Expire | internal/infrastructure/cache/redis.go:138-150 | "key not found" without change for an absent key; otherwise only that entry's expiration changes |
| Cache.MemoryCache.Close | internal/infrastructure/cache/redis.go:152-158 | the store is left empty, no error |
| Cache.MemoryCache.CleanupExpired | internal/infrastructure/cache/redis.go:160-174 | the loop leaves exactly the swept store |
| Jwt.StrClaim | internal/domain/services/token_service.go:124-161 | a claim reads as a string iff present with a string value |
| Jwt.NumClaim | internal/pkg/jwt/token.go:81-86 | a claim reads as a number iff present with a numeric value |
| Jwt.LibraryParse | internal/pkg/jwt/token.go:58-72 | parsing at an instant succeeds iff the codec decodes, the declared algorithm is HMAC, the signature checks and the library accepts the time claims at that instant; the result is a valid token |
| Jwt.CreateToken | internal/pkg/jwt/token.go:46-55 | signs with HS256; a signing error comes back wrapped as "failed to sign token" |
| Jwt.ParseToken | internal/pkg/jwt/token.go:58-72 | a parsed token is valid and HMAC-signed |
| Jwt.ValidateToken | internal/pkg/jwt/token.go:75-90 | no error iff the token is valid and a numeric exp is not before now; an invalid token gives "invalid token"; "token expired" iff the token is valid, exp is numeric and now is after it |
| Jwt.CreateThenParse | internal/pkg/jwt/token.go:46-72 | with a sound codec, a created token parses back to its claims under HS256 |
| Jwt.ParseRefusesForeignAlgorithm | internal/pkg/jwt/token.go:60-63 | a token declaring a non-HMAC algorithm is refused |
| Jwt.ValidateTokenExpiryBoundary | internal/pkg/jwt/token.go:81-86 | accepted at exactly exp, "token expired" one second later |
| Jwt.ParseRefusesExpired | internal/pkg/jwt/token.go:58-72 | with a library that enforces exp, a token whose non-zero numeric exp has passed does not parse |
| Jwt.ParsedTokenValidates | internal/pkg/jwt/token.go:58-90 | with a library that enforces exp, a token ParseToken accepts passes ValidateToken at the same instant, except one with exp 0 after the epoch, which ValidateToken calls expired |
| TokenService.BlacklistKey | internal/domain/services/token_service.go:48 | the key is "blacklist:" followed by the token |
| TokenService.BlacklistKeyInjective | internal/domain/services/token_service.go:48 | distinct tokens have distinct keys |
| TokenService.BlacklistTtl | internal/domain/services/token_service.go:52-55 | the remaining life when positive, exactly one hour otherwise; the entry never ends before the token |
| TokenService.StoreFailure | internal/domain/services/token_service.go:59-61 | a cache error is wrapped with the sentinel still recognisable; no error stays no error |
| TokenService.LookupReply | internal/domain/services/token_service.go:73-78 | a cache error reports "not blacklisted" together with the wrapped error |
| TokenService.BlacklistToken | internal/domain/services/token_service.go:42-64 | an empty token is refused without touching the cache; otherwise the key holds the marker until now+TTL |
| TokenService.IsTokenBlacklisted | internal/domain/services/token_service.go:66-79 | an empty token is refused; otherwise true iff the entry is live |
| TokenService.RemoveFromBlacklist | internal/domain/services/token_service.go:81-94 | an empty token is refused; otherwise exactly that key is removed |
| TokenService.RevokedUntilTtlElapses | internal/domain/services/token_service.go:52-58 | after blacklisting, the token is revoked at every instant until the TTL elapses |
| TokenService.RevokedThroughExpiry | internal/domain/services/token_service.go:52-58 | revoked up to the token's own expiry, or for the hour after when already expired |
| TokenService.BlacklistIsolated | internal/domain/services/token_service.go:48-58 | blacklisting one token changes no other token's status |
| TokenService.NotRevokedAfterRemove | internal/domain/services/token_service.go:81-94 | after removal the token is not revoked |
| TokenService.BlacklistTwiceIsOnce | internal/domain/services/token_service.go:58 | blacklisting twice at one instant leaves the single entry of the first time |
| TokenService.ExtractInfo | internal/domain/services/token_service.go:124-161 | the first of user_id, role, type, exp, iat, jti that is missing or mistyped is reported; otherwise all six are copied |
| TokenService.GetTokenInfo | internal/domain/services/token_service.go:96-164 | empty token, then parse error, then blacklisted, then the claim checks |
| AuthService.PairClaims | internal/domain/services/auth_service.go:59-77 | both claim sets carry the user's id and role, their type, exp, iat = now and their jti |
| AuthService.GenerateJwt | internal/domain/services/auth_service.go:57-93 | both tokens or neither; access and refresh signing errors wrapped separately; the access expiry is returned |
| AuthService.VerifyToken | internal/domain/services/auth_service.go:95-122 | accepted iff non-empty, parsed HMAC-valid and of type "access"; the blacklist is not consulted |
| AuthService.RefreshOnlyClaims | internal/domain/services/auth_service.go:129-134 | the refresh claims carry user_id, type "refresh" and exp, and neither role nor iat |
| AuthService.GenerateRefreshToken | internal/domain/services/auth_service.go:124-144 | ErrTokenConfig on an empty secret; otherwise the signed refresh-only claims with their expiry |
| AuthService.UserFromToken | internal/domain/services/auth_service.go:146-174 | a missing or invalid token is ErrInvalidToken; a user_id that is not a string is ErrJTI; one that is not a uuid is the wrapped parse error; otherwise the answer is ById's: found iff ById finds the row, with that row's response, and a failed lookup wrapped as "failed to find user" |
| AuthService.GetUserFromToken | internal/domain/services/auth_service.go:146-174 | the method answers as UserFromToken over the repository's rows, so each of its five outcomes holds of the method |
| AuthService.Login | internal/domain/services/auth_service.go:234-259 | lookup failure, then blocked account, then password mismatch, then the token pair |
| AuthService.LogoutExpiry | internal/domain/services/auth_service.go:261-296 | refuses empty, unparsable and invalid tokens and a missing numeric exp; the type is not checked; yields exp |
| AuthService.Logout | internal/domain/services/auth_service.go:261-302 | on LogoutExpiry's refusal nothing changes; otherwise the token is blacklisted with expiry exp |
| AuthService.RefreshSubject | internal/domain/services/auth_service.go:315-341 | ErrInvalidToken unless the token parses, has type "refresh" and a string user_id, which is returned |
| AuthService.RefreshToken | internal/domain/services/auth_service.go:315-368 | the subject, uuid, lookup and token steps in order; only the new access token is returned |
| AuthService.Prepared | internal/domain/services/auth_service.go:186-196 | a registered row gets a fresh id, both timestamps now and the uploaded photo if any |
| AuthService.UserRegister | internal/domain/services/auth_service.go:176-203 | a found phone is ErrUserPhoneExists with no change; a failed upload stops before any write; otherwise the repository insert of the prepared row |
| AuthService.Register | internal/domain/services/auth_service.go:205-232 | as UserRegister, for the dashboard request with its own role |
| AuthService.SignedParses | internal/domain/services/auth_service.go:79-105 | a value the sound codec signs is non-empty and parses back to its claims |
| AuthService.IssuedAccessVerifies | internal/domain/services/auth_service.go:57-122 | an issued access token verifies and its claims give the user's TokenInfo |
| AuthService.IssuedRefreshFailsVerify | internal/domain/services/auth_service.go:57-122 | an issued refresh token is refused by VerifyToken |
| AuthService.IssuedPairForRefresh | internal/domain/services/auth_service.go:57-93 | the refresh token of a pair names its user to RefreshToken; the access token is refused there |
| AuthService.IssuedPairLogoutExpiry | internal/domain/services/auth_service.go:261-296 | either token of a pair can be logged out, each with its own expiry |
| AuthService.LogoutRevokesUntilExpiry | internal/domain/services/auth_service.go:261-302 | after Logout the token is revoked from now until its exp |
| AuthService.ExpiredTokenRefused | internal/domain/services/auth_service.go:95-122 | once its non-zero exp has passed a token is refused by VerifyToken, by RefreshToken's checks and by Logout's (lines 261-296 and 315-341) |
| AuthService.ZeroExpiryPassesVerify | internal/domain/services/auth_service.go:95-122 | an access token with exp 0 that the library lets through passes VerifyToken, while ValidateToken (internal/pkg/jwt/token.go:81-86) calls it expired |
| AuthService.RefreshOnlyTokenHasNoInfo | internal/domain/services/auth_service.go:129-134 | the refresh-only claims fail GetTokenInfo's checks at the role |
| AuthService.PhoneGuardExact | internal/domain/services/auth_service.go:177-180 | registration is blocked iff a live row has that phone |
| AuthService.PhoneGuardOpenOnFault | internal/domain/services/auth_service.go:206-209 | a failing lookup does not block registration |
| Middleware.TokenSource | internal/api/middleware/middleware.go:26-43 | a non-empty cookie wins, else the token after "Bearer ", else none; a token is never empty |
| Middleware.BearerRoundTrip | internal/api/middleware/middleware.go:26-43 | without a cookie, "Bearer " + t yields t |
| Middleware.CookieHidesHeader | internal/api/middleware/middleware.go:26-28 | with a cookie token the header is never read |
| Middleware.Authenticate | internal/api/middleware/middleware.go:21-76 | no token iff TokenSource finds none; invalid iff VerifyToken refuses it, with its error text; past verification, an unknown user with the lookup's error text when UserFromToken fails, and that user when it succeeds |
| Middleware.ContextRole | internal/api/middleware/middleware.go:62-74 | a role is in the context iff authentication succeeded |
| Middleware.ContextRoleIsStored | internal/api/middleware/middleware.go:62-74 | the context role is the stored role of a live user row |
| Middleware.AdminGate | internal/api/middleware/middleware.go:152-178 | missing role first; passes iff the role is exactly "admin" |
| Middleware.SuperUserGate | internal/api/middleware/middleware.go:180-206 | missing role first; passes iff the role is exactly "superuser" |
| Middleware.ManagerGate | internal/api/middleware/middleware.go:209-236 | missing role first; passes iff the role is manager, admin or superuser |
| Middleware.RequireRoleGate | internal/api/middleware/middleware.go:239-268 | missing role first; passes iff the role equals a listed one |
| Middleware.LevelOf | internal/api/middleware/middleware.go:286-297 | the middleware's level table equals Role.Level |
| Middleware.LevelGate | internal/api/middleware/middleware.go:271-313 | missing role first; passes iff the role has at least the level |
| Middleware.ManagerGateIsLevelTwo | internal/api/middleware/middleware.go:223 | the manager gate and the level-2 gate decide alike |
| Middleware.AdminGatesDisagree | internal/api/route/routes.go:79 | the exact admin gate refuses the superuser while the routes' level-2 gate admits a manager |
| Middleware.LevelGateNonPositiveAdmitsAll | internal/api/middleware/middleware.go:299 | a level of 0 or less admits every role, unknown ones too |
| Middleware.LevelGateMonotone | internal/api/middleware/middleware.go:299 | raising the level never admits more |
| RateLimit.Recent | internal/api/middleware/middleware.go:326-334 | pruning never lengthens the list |
| RateLimit.RecentMembers | internal/api/middleware/middleware.go:326-334 | a time survives iff it is younger than a minute |
| RateLimit.RecentIdempotent | internal/api/middleware/middleware.go:326-334 | pruning twice is pruning once |
| RateLimit.RecentAppend | internal/api/middleware/middleware.go:326-348 | pruning distributes over an appended time |
| RateLimit.Step | internal/api/middleware/middleware.go:336-348 | a request is accepted iff fewer than the limit of its client's times are younger than a minute; a refused first request leaves no entry |
| RateLimit.StepKeepsBound | internal/api/middleware/middleware.go:336-348 | no client ever holds more times than the limit |
| RateLimit.StepAppendsOnlyOnAccept | internal/api/middleware/middleware.go:336-348 | an accepted request appends exactly now to its own list; a refused one appends nothing and had at least limit times; other clients unchanged |
| RateLimit.NonPositiveLimitRefusesAll | internal/api/middleware/middleware.go:336 | a limit of 0 or less refuses every request |
| RateLimit.FirstRequestAccepted | internal/api/middleware/middleware.go:336-348 | a new client under a positive limit is accepted with one time |
| RateLimit.RateLimiter.constructor | internal/api/middleware/middleware.go:316-320 | a limiter starts with no clients |
| RateLimit.RateLimiter.Prune | internal/api/middleware/middleware.go:326-334 | the pruning loop yields exactly Recent |
| RateLimit.RateLimiter.Handle | internal/api/middleware/middleware.go:321-350 | the decision and new map are Step's and the bound is kept |
| Audit.ShiftOccurs | internal/api/middleware/middleware.go:116-126 | an occurrence past the first character is an occurrence in the tail |
| Audit.Contains | internal/api/middleware/middleware.go:116-126 | true iff the fragment occurs somewhere in the path |
| Audit.EntityType | internal/api/middleware/middleware.go:116-126 | the first rule in the order products, users/dashboard, orders, auth, audit that matches; "Unknown" iff none |
| Audit.ActionDescription | internal/api/middleware/middleware.go:130-141 | GET is viewing, POST creation, PUT and PATCH an update, DELETE deletion; a method outside the table names itself |
| Audit.Actor | internal/api/middleware/middleware.go:94-102 | the context id with "authorised user", or the nil id with "guest" |
| Audit.LogData | internal/api/middleware/middleware.go:143-144 | the entry begins with the action and the entity type |
| Audit.LogDataTellsGuest | internal/api/middleware/middleware.go:92-102 | the entry of a guest differs from that of a signed-in user for the same request |
| Audit.DashboardIsUser | internal/api/middleware/middleware.go:116-126 | a dashboard path is a User action unless it mentions products |
| Audit.AuthRouteEntity | internal/api/middleware/middleware.go:116-126 | an auth path mentioning no earlier fragment is an Auth action |
| BlacklistGate.Split | internal/api/middleware/token_blacklist.go:22 | at least one piece, none holding the separator |
| BlacklistGate.JoinSplit | internal/api/middleware/token_blacklist.go:22 | joining the pieces restores the header |
| BlacklistGate.SplitWhole | internal/api/middleware/token_blacklist.go:22 | a string without the separator is one piece |
| BlacklistGate.SplitFirst | internal/api/middleware/token_blacklist.go:22 | a first piece then the separator splits off exactly that piece |
| BlacklistGate.HeaderToken | internal/api/middleware/token_blacklist.go:15-28 | a token only from a non-empty header, and never containing a space |
| BlacklistGate.HeaderTokenExact | internal/api/middleware/token_blacklist.go:15-28 | the header yields t iff it is "Bearer " + t with no space in t |
| BlacklistGate.BearerShape | internal/api/middleware/token_blacklist.go:22-28 | a header yielding a token starts with "Bearer " and has no space after it |
| BlacklistGate.GateVerdict | internal/api/middleware/token_blacklist.go:12-50 | malformed headers continue; refused iff the header token is revoked; the empty token fails |
| BlacklistGate.TokenBlacklistMiddleware | internal/api/middleware/token_blacklist.go:12-50 | the verdict is GateVerdict's; only the looked-up key may be dropped |
| BlacklistGate.MalformedHeadersPass | internal/api/middleware/token_blacklist.go:22-26 | "bearer t", "Bearer a b" and "Bearer  t" pass unchecked |
| BlacklistGate.RevokedCookieAdmitted | internal/api/middleware/token_blacklist.go:15-28 | a revoked token sent as the cookie, with no header, is admitted |
| BlacklistGate.LoggedOutCookieAdmitted | internal/api/handlers/auth_handler.go:161-176 | a token Logout just blacklisted is admitted as a cookie until its expiry |
| BlacklistGate.CheckedVerdict | internal/api/middleware/token_blacklist.go:12-50 | corrected: refused iff the token AuthMiddleware uses is revoked; never a failure |
| BlacklistGate.CheckedBlacklistMiddleware | internal/api/middleware/token_blacklist.go:12-50 | corrected gate answers CheckedVerdict |
| BlacklistGate.CheckedRefusesRevoked | internal/api/middleware/middleware.go:26-43 | corrected: no revoked token is admitted, wherever it was carried |
| BlacklistGate.LoggedOutRefusedChecked | internal/api/handlers/auth_handler.go:161-176 | corrected: a logged-out token is refused as cookie or header until its expiry |
| BlacklistGate.CheckedAgreesOnHeader | internal/api/middleware/token_blacklist.go:22-28 | corrected and original agree on a well-formed bearer header with no cookie |
| Users.HashPassword | internal/pkg/crypto/hash.go:9-20 | fails iff the password is shorter than 8; otherwise the digest |
| Users.CreateHook | internal/domain/entities/user.go:30-56 | fails with the short-password error iff a non-empty password is under 8 characters; otherwise with ErrInvalidUserRole iff a non-empty role is invalid; otherwise succeeds |
| Users.UpdateHook | internal/domain/entities/user.go:59-75 | fails with the short-password error iff a changed non-empty password is under 8 characters; otherwise with ErrInvalidUserRole iff a changed role is invalid; otherwise succeeds |
| Users.CreateHookTouches | internal/domain/entities/user.go:30-56 | only id, password and role change; the id only when nil |
| Users.CreateHookRole | internal/domain/entities/user.go:46-53 | an empty role becomes "user"; success implies a valid role |
| Users.CreateHookShortPassword | internal/domain/entities/user.go:37-43 | a short password aborts after the id is set and before the role is looked at |
| Users.CreateHookPasswordVerifies | internal/domain/entities/user.go:37-43 | the stored hash verifies against the original password |
| Users.UpdateHookUntouched | internal/domain/entities/user.go:59-75 | without changed password or role the update hook does nothing |
| Users.UpdateHookTouches | internal/domain/entities/user.go:59-75 | only the password can change: to its digest when changed and at least 8 characters long, kept otherwise; an unchanged role is never refused |
| Users.User.constructor | internal/domain/entities/user.go:11-27 | the object holds the given row |
| Users.User.BeforeCreate | internal/domain/entities/user.go:30-56 | the fields and result are CreateHook's |
| Users.User.BeforeUpdate | internal/domain/entities/user.go:59-75 | the fields and result are UpdateHook's |
| Users.User.CheckPassword | internal/domain/entities/user.go:78-80 | no error iff the hasher accepts the candidate for the stored hash |
| UserDto.FromModel | internal/domain/dto/user.go:99-116 | every field of the response, the role included, is the model's; the old response leaves no trace |
| UserDto.FromModelUser | internal/domain/dto/user.go:118-134 | the dto's role is kept; every other field is the model's |
| UserDto.FromModelForgetsOnlyPassword | internal/domain/dto/user.go:99-116 | two models give the same response iff they differ at most in the password |
| UserDto.FromModelUserKeepsRole | internal/domain/dto/user.go:118-134 | FromModelUser is FromModel with the old role kept; a fresh response gets an empty role |
| UserDto.ToModel | internal/domain/dto/user.go:136-152 | plain password, role defaulted to "user" but not validated, active, nil id, fields copied |
| UserDto.ToModelUser | internal/domain/dto/user.go:154-169 | role always "user", plain password, active, nil id |
| UserDto.ToModelUserIsToModelWithoutRole | internal/domain/dto/user.go:136-169 | ToModelUser is ToModel of the same fields with no role |
| UserDto.ToModelIgnoresHash | internal/domain/dto/user.go:141 | the hashed-password argument never matters |
| UserDto.ToModelThenCreate | internal/domain/dto/user.go:136-152 | a ToModel row is created with the digest of the form's password, and fails exactly when a non-empty invalid role was given |
| UserDto.ApplyToModel | internal/domain/dto/user.go:171-193 | the object afterwards holds its old row under the patch: every carried field takes the patch's value, every other field (id, password and timestamps included) keeps its own |
| UserDto.Patched | internal/domain/dto/user.go:171-193 | id, password and the three timestamps are out of a patch's reach |
| UserDto.PatchOverwritesCarried | internal/domain/dto/user.go:171-193 | each of the seven fields carried by the patch is overwritten, each absent one kept |
| UserDto.PatchIdentity | internal/domain/dto/user.go:171-193 | the empty patch is the identity |
| UserDto.PatchIdempotent | internal/domain/dto/user.go:171-193 | applying a patch twice is applying it once |
| UserDto.Merged | internal/domain/dto/user.go:171-193 | a merged patch is empty iff both patches are; its field-wise meaning is PatchesComposeLaterWins |
| UserDto.PatchesComposeLaterWins | internal/domain/dto/user.go:171-193 | two patches in a row are one merged patch, the later one winning on every field it carries |
| Repository.First | internal/domain/repositories/user_repository.go:40-50 | the least index of a live row meeting the condition (id here, phone in FindByPhone at lines 60-70), or no such row exists |
| Repository.ById | internal/domain/repositories/user_repository.go:40-50 | a fault is passed on; otherwise found iff some live row has the id, and then it is such a row; not found is ErrUserNotFound |
| Repository.ByPhone | internal/domain/repositories/user_repository.go:60-70 | a fault is passed on; otherwise found iff some live row has the phone, and then it is such a row; not found is ErrUserNotFound |
| Repository.LiveRows | internal/domain/repositories/user_repository.go:34-38 | exactly the rows not soft-deleted |
| Repository.Overwrite | internal/domain/repositories/user_repository.go:52-54 | live rows with the id are replaced, all others kept |
| Repository.SoftDelete | internal/domain/repositories/user_repository.go:56-58 | live rows with the id get deletedAt = now, all others kept |
| Repository.FirstIsLeast | internal/domain/repositories/user_repository.go:40-50 | a selected row preceded by none is the one the lookup finds |
| Repository.UniqueSelectsOne | internal/domain/repositories/user_repository.go:40-70 | with unique columns the lookup finds the one row selected, so row order never matters |
| Repository.SoftDeleteKeepsUnique | internal/domain/repositories/user_repository.go:56-58 | a soft delete keeps ids and phones unique |
| Repository.DeletedNotFound | internal/domain/repositories/user_repository.go:40-58 | a deleted id is not found |
| Repository.OverwriteKeepsUnique | internal/domain/repositories/user_repository.go:52-54 | overwriting keeps ids and phones unique when the new phone is free |
| Repository.Insert | internal/domain/repositories/user_repository.go:31-33 | the hook runs first; succeeds iff the hook does, the database does and neither id nor phone is taken; a failure leaves the table, a success appends the hooked row |
| Repository.Update | internal/domain/repositories/user_repository.go:52-54 | the hook runs first; succeeds iff the hook does, the database does and no other row has the phone; a failure leaves the table, a success overwrites the live row with the id |
| Repository.InsertKeepsUnique | internal/domain/repositories/user_repository.go:31-33 | a create keeps ids and phones unique |
| Repository.UpdateKeepsUnique | internal/domain/repositories/user_repository.go:52-54 | an update keeps ids and phones unique |
| Repository.InsertedIsFound | internal/domain/repositories/user_repository.go:31-50 | a created row is found by its id and its phone |
| Repository.UserRepository.constructor | internal/domain/repositories/user_repository.go:27-29 | a new repository has no rows and unique columns |
| Repository.UserRepository.Create | internal/domain/repositories/user_repository.go:31-33 | the hooked user, error and rows are Insert's; the columns stay unique |
| Repository.UserRepository.Get | internal/domain/repositories/user_repository.go:34-38 | the fault, or the live rows |
| Repository.UserRepository.GetId | internal/domain/repositories/user_repository.go:40-50 | a fresh object holding ById's row, or ById's error |
| Repository.UserRepository.FindByPhone | internal/domain/repositories/user_repository.go:60-70 | a fresh object holding ByPhone's row, or ByPhone's error |
| Repository.UserRepository.Patch | internal/domain/repositories/user_repository.go:52-54 | the hooked user, error and rows are Update's; the columns stay unique |
| Repository.UserRepository.Delete | internal/domain/repositories/user_repository.go:56-58 | the fault unchanged, or the soft delete; the columns stay unique |
| UserService.SaveUserPhoto | internal/domain/services/user_service.go:107-118 | an upload error is wrapped with "ошибка при сохранении фото"; a stored name is returned |
| UserService.Edited | internal/domain/services/user_service.go:79-90 | the row is the patched row, with the new photo if any and updatedAt = now; id, password, createdAt and deletedAt are kept |
| UserService.GetAll | internal/domain/services/user_service.go:36-48 | any fault is ErrUserNotFound; otherwise one response per live row, in order |
| UserService.UserId | internal/domain/services/user_service.go:50-59 | the found row's response, any failure ErrUserNotFound |
| UserService.GetByPhone | internal/domain/services/user_service.go:61-69 | the found row's response, any failure ErrUserNotFound |
| UserService.Patch | internal/domain/services/user_service.go:71-97 | nil id, missing user, failed upload, then the update; a write failure is ErrUpdateConflict |
| UserService.Delete | internal/domain/services/user_service.go:99-104 | ErrInvalidUUID for the nil id without change; otherwise the repository's result |
| UserService.PatchedRowIsFound | internal/domain/services/user_service.go:71-97 | after a successful patch the id finds the hooked row |
| Config.GetEnv | config/config.go:137-142 | the value whenever the key is present, even empty; the fallback otherwise |
| Config.GetEnvAsInt | config/config.go:144-151 | the parsed value, or the fallback when absent or unparsable |
| Config.ParseBool | config/config.go:153-160 | the twelve spellings strconv.ParseBool accepts, and only those |
| Config.GetEnvAsBool | config/config.go:153-160 | the parsed value, or the fallback when absent or unparsable |
| Config.Build | config/config.go:64-101 | an empty environment gives every default: port 8080, 10 s timeouts, database port 5432, sslmode disable, 25 connections, 1 h lifetime, JWT 24 h and 168 h, Redis port 6379 and db 0, MinIO port 9000 without SSL |
| Config.RequiredValues | config/config.go:112-135 | one value per required setting |
| Config.Validate | config/config.go:112-135 | no error iff all seven are non-empty; otherwise the first empty one, in order |
| Config.LoadConfig | config/config.go:61-109 | fails iff validation fails, with its error; a loaded config has a secret |
| Config.RequiredReadFromEnv | config/config.go:61-109 | each required value is read from its variable with an empty fallback |
| Config.LoadConfigNeedsRequired | config/config.go:104-108 | loading succeeds iff all seven variables are set and non-empty |
| Config.JwtDefaults | config/config.go:83-84 | expiries default to 24h and 168h |
| Config.JwtExpiryScaled | config/config.go:83 | a parsed hour count scales the access expiry |
| Config.UnparsableIsFallback | config/config.go:144-151 | an unparsable value behaves as an absent one |
| Config.ValidateReportsFirst | config/config.go:112-135 | the first empty required setting is the one reported, whatever follows it |
| Decimal.Succ64 | internal/infrastructure/cache/redis.go:129 | the 64-bit successor, wrapping at the maximum |
| Decimal.Digits | internal/infrastructure/cache/redis.go:132 | a non-empty string of digits, "0" for zero and without a leading zero otherwise |
| Decimal.DigitsRoundTrip | internal/infrastructure/cache/redis.go:126-132 | the digits of n read back as n |
| Decimal.Format | internal/infrastructure/cache/redis.go:132 | a non-empty decimal text |
| Decimal.ParseInt | config/config.go:146 | parsed iff the text is an optional sign and at least one digit whose signed value fits 64 bits, and then that value |
| Decimal.ParseFormat | internal/infrastructure/cache/redis.go:126-132 | formatting then parsing is the identity on 64-bit integers |
| Errors.Describe | internal/domain/services/auth_service.go:108 | a wrapped error's text begins with its context and ": " |
| Errors.SentinelEndsText | internal/errors/errors.go:5-29 | a sentinel errors.Is finds in the chain ends the error's text |
| Uuid.ToLower | internal/domain/services/auth_service.go:161 | hex digits lower-cased, lower-case ones unchanged |
| Uuid.Parse | internal/domain/services/auth_service.go:161 | parses iff the text has dashes at 8, 13, 18, 23 and hex digits of either case elsewhere; the id is that text lower-cased; a canonical id parses to itself |

## Left out

- Concurrency: the cache's read-write mutex, the background sweep ticker and the unsynchronised limiter map. The sweep is a plain method and every operation is atomic.
- The cache's deletes under a read lock in Get and Exists are modelled as ordinary deletes.
- Fractional seconds and the monotonic clock: times and durations are whole seconds. A Duration overflowing 64 bits is not modelled.
- Cache values are strings. `fmt.Sprintf("%v", value)` of other Go values is not modelled.
- Cache.CounterValue: reads the counter with a strict integer parse. `fmt.Sscanf("%d")` would also accept a numeric prefix such as "12abc" or leading blanks, which the model reads as 0. Incr itself only ever stores plain decimal numbers.
- The cache store errors are unreachable in the source. They are modelled as always absent, and the services' wrapping of them is modelled through StoreFailure and LookupReply.
- Jwt.EnforcesExpiry: the library's verdict on the time claims is the codec's `claimsOk` at the parse instant. Only the refusal of a non-zero numeric exp already in the past is assumed of it; golang-jwt v4 reads an exp of 0 as no exp, so such a token is not assumed refused (AuthService.ZeroExpiryPassesVerify). The exact second of exp, and the iat and nbf checks, differ between versions of the JWT library and stay opaque.
- The HMAC signature, the JWT text format and claim-map decoding are the opaque codec. Non-integer numeric claims (JSON floats truncated by `int64`) are not modelled.
- The `jwt.MapClaims` type assertion, which always succeeds after a successful parse. Its "invalid token claims" branch is left out.
- Uuid.Parse: only the 36-character forms are modelled. The 32-character, braced and urn forms, and the exact error text of the uuid library, which is the constant UuidRejected, are not.
- bcrypt internals, its 72-byte limit and its cost. The password length counts characters, not bytes.
- gorm: zero-valued fields skipped by `Updates` (an `isActive` set to false is written here), and the unique-index treatment of soft-deleted rows. `First` orders by primary key; the model takes the first row in table order instead. Under the repository's unique-column invariant at most one row is selected, so the two agree (Repository.UniqueSelectsOne). The `Changed()` flags are parameters of the update hook. SQL errors are a fault parameter.
- UserDto.FromModel and UserDto.FromModelUser are functions from the old response and the user to the new response, not in-place updates of a response object.
- MinIO and file_service.go: an upload is a parameter that is either a stored name or an error.
- The audit log write, the entity id of an audit entry, and audit_service.go.
- UserMe, GetAccessTokenExpiry and GetRefreshTokenExpiry: thin accessors with no decision of their own.
- Role.String (internal/domain/entities/role.go:20-22): a role is its own text here, so the conversion is the identity and has no member.
- NewRedisCache's host check and connection setup.
- Reading the `.env` file and the process environment: the environment is a map.
- HTTP status codes, JSON bodies, handlers and route wiring, except the level-2 admin gate and the order of AuthMiddleware before the blacklist gate.

## Findings

| source | as written | input that shows it | evidently intended | confidence | as-written member | corrected member |
|---|---|---|---|---|---|---|
| internal/api/middleware/token_blacklist.go:15-28 | the blacklist gate looks only at the Authorization header. AuthMiddleware (internal/api/middleware/middleware.go:26-28) authenticates with the access_token cookie first, and Logout (internal/api/handlers/auth_handler.go:163-169) blacklists that cookie token | a request with cookie access_token=t and no Authorization header, after a Logout of t and before t expires | the gate checks the token AuthMiddleware authenticated with, so a logged-out token is refused wherever it is carried | not executed | BlacklistGate.LoggedOutCookieAdmitted | BlacklistGate.CheckedBlacklistMiddleware |
