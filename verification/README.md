# Verified model of the authentication backend

A Dafny model of the session, rate-limit, permission and password logic of the Go backend, and of the two
TypeScript functions that repeat part of it. `dafny verify dfyconfig.toml` checks all of it.

## What is modelled

**Sessions.** `SessionProtocol` splits every request into its database queries and lets the queries of all
requests interleave in any order. A query that stores a time stores a clock reading up to `lag` ticks old,
so the delay between reading the clock and writing the row is part of the model. `Requests` gives each
service operation as a function on the whole shared state (tables, Redis keys, audit log), run one at a time
with one clock reading, and composed of the same atomic events. `Serialisation` proves that runs of requests
are runs of the interleaved protocol, so its theorems carry over.

**Rate limiter.** `RateLimiter` has the Redis commands on one flat keyspace, in which the block marker of a key
is stored under the key followed by `:block`, the tier arithmetic, the class that issues the commands, and when
one key's traffic shows on another. `Escalation` replays Checks and Resets of any keys in sequence.
`RateProtocol` interleaves the commands of any number of `Login` calls on IP and email keys, any of which may
fail; a call counts at the instant of its INCR. `ExactBounds` builds the runs that show the conditions of the
bounds to be exact, and `LimiterRuns` says which logins a run of requests refuses, and on whose account.

**Permissions.** `Matching` is the coverage relation in its Go and TypeScript forms and the code pattern.
`PermissionTable` is the two tables, `Authority` the interleaving of grant checks and grant inserts,
`PermissionCache` and `Staleness` the cache with lost invalidations and fills in flight, and `PermissionRuns`
and `UserRuns` what holds over whole runs of requests.

**Outcomes.** `LoginOutcomes`, `PermissionOutcomes` and `UserRuns` say of each operation exactly when it succeeds,
what every refusal is, and what it leaves in the tables, the log and the cache.

**The imperative form.** `Store`, `AuthService`, `PermissionService` (with `UserService`) and `App` are classes
whose methods update tables, keys and log in place in the order of the source. Each is proved to produce
exactly the state and the answer of its specification in `Requests`; the theorems are about those.

**Passwords.** `Scanners` proves the nested scanning loops equal to declarative statements. `PasswordGate` has
both password gates and their agreement. `Base64` and `PasswordHash` are the printer and parser of the
Argon2id strings and their round trip.

## Where documentation and code differ

The model follows the code.

- `docs/backend.md:85` and `docs/database.md:105` say a refresh replaces the hash in the same session. The code
  (`backend/internal/service/auth.go:245-253`) revokes the row and inserts a new one.
- `docs/redis.md:95` and `docs/redis.md:101` say a successful login clears the email counter only. The code
  (`backend/internal/service/auth.go:143-148`) resets both keys.
- `docs/redis.md:92` and `docs/backend.md:68` say blocking starts above five attempts. The code
  (`backend/cache/tiered_ratelimit.go:74`) blocks from the threshold on, so the fifth attempt is refused.

## What the proofs brought out

- The counter of an email that ends in `:block` is the block marker of the email without that ending, and so
  for IP addresses. The limiter keeps two keys apart exactly when neither is the marker of the other
  (`KeysAreSeparate`). One login for such an email locks out the shorter one (`MarkerLoginLocksOut`), and each
  block of the shorter one writes the longer one's counter back to 1, and each of its Resets deletes it, so that
  with the shipped tiers no bound at all holds for the longer one (`MarkersAreUnbounded`, `WindowsAreUnbounded`):
  the bounds hold for an email if and only if it does not end in `:block` (`BoundsAreExact`).
- If the EXPIRE of a counter is lost, the bounds still hold, but once the count is one short of the first
  block no login for that email can ever reach the password check again (`LostExpireLocks`).
- A login that found its user active may insert its session after a deactivation has swept the user's
  sessions; that session works once the user is active again (`LateInsertSurvives`). Nothing older does
  (`SweepLeavesOnlyLateInserts`).
- Accepting requests is sound although neither the session's expiry nor its owner is looked at, provided the
  access lifetime, plus the delay between the two clock readings of a login, is at most the refresh lifetime.
  With one reading per request (`lag` 0) that is accessTTL <= refreshTTL. The bound is exact (`LifetimesMustNest`).
- A refresh token that merely expired, or was revoked by logout, is answered as reuse and closes all of its
  user's sessions, just like a consumed one; a token presented at the very instant of its expiry is not
  (`RefreshOutcome`).
- Only deactivation guards the last administrator; revoking `*` does not (`LastAdminCanLoseStar`), and
  `RevokingStarLeavesOthers` says exactly when an administrator remains.
- The list of common passwords is unreachable: its longest entry has eleven characters and the minimum is twelve.

## Assumptions

- Hashing of refresh tokens is injective and generated tokens are new; access tokens cannot be forged, so
  accepting a signature means that the token is among those issued.
- Ids are never reused and stay below 2^53, since `sub` and `sid` pass through floating point in the JWT.
- All times are integers of one non-decreasing clock shared by the server and Redis; a Redis key is live
  strictly before its deadline, without rounding to seconds. `exp` is whole seconds, rounded down.
- No key outside the limiter begins with `login:`; the permission sets and last logins have other prefixes.
- Each SQL statement is atomic and succeeds, and so does each audit entry. In `Requests`, Redis answers
  throughout a request or not at all, and for a login up to a given one of its five uses; in `Staleness` and
  `RateProtocol` single commands may fail.
- Password comparison, email validation and validation of a new password are parameters of `Requests`.
- A list delivered by the database has no promised order, except that the cleanup lists rows by ascending id.

## Model

| member | source | states |
|---|---|---|
| `SessionProtocol.RevocationIsFinal` | backend/internal/repository/session.go:68-91 | In any interleaving of session queries, a session revoked or deleted in one state is revoked or deleted in every later one, its revocation time is never rewritten, and neither the touch of an access token nor the refresh lookup accepts it at any clock reading |
| `SessionProtocol.AcceptanceIsSound` | backend/middleware/auth.go:21-34 | A request that passes signature, expiry, active-user and touch checks, each in its own state of an interleaved run, has a session that exists, is unrevoked, belongs to the subject and had not expired when the token was checked, though the touch ignores `expires_at` and nobody compares owner with `sub` |
| `SessionProtocol.LifetimesMustNest` | backend/internal/service/auth.go:354-402 | The lifetime bound of AcceptanceIsSound is exact: if access lifetime plus clock delay exceeds the refresh lifetime, there is a run that accepts a token of an expired session |
| `SessionProtocol.DoomIsStable` | backend/internal/repository/session.go:113-136 | For a fixed cutoff, the set of rows the cleanup predicate selects, and their owners, are unchanged by every other session query |
| `SessionProtocol.CleanupIsExact` | backend/internal/repository/session.go:113-136 | SELECT then DELETE without a transaction: the rows deleted are exactly the rows listed, with the same owners, all other rows stay as they are, and no listed row is active at either instant |
| `SessionProtocol.StepKeepsInv` | backend/internal/repository/session.go:22-25 | Every session query keeps the invariant: rows still say what was inserted, token hashes are unique, issued tokens name the owner of their session and outlive its creation by at most the access lifetime plus the clock delay |
| `SessionProtocol.RunKeepsSession` | backend/internal/repository/session.go:68-91 | Across any stretch of a run: no id is reused, no deleted row returns, no revocation is undone or re-dated |
| `SessionTable.FindByHash` | backend/internal/repository/session.go:29-54 | The row found carries the hash and, where asked, is active; when none is found no row does |
| `SessionRuns.TraceKeepsInv` | backend/internal/service/auth.go:95-288 | Over every run of requests: each session descends from a login of its own user, only the newest of a chain is open, consumed tokens are remembered, inactive users own no open session |
| `SessionRuns.ExecKeepsInv` | backend/internal/service/auth.go:95-450 | Every single request keeps that invariant |
| `SessionRuns.ExecKeepsAccounts` | backend/internal/repository/user.go:71-86 | No request but user creation and user update changes anything of an account except its password hash |
| `SessionTheorems.OneLiveSessionPerLogin` | backend/internal/service/auth.go:138-141 | In every state of every run a chain of refreshes has at most one open session, its newest, and the open sessions of a user never outnumber the successful logins of that user |
| `SessionTheorems.ReuseIsDetected` | backend/internal/service/auth.go:229-288 | For every refresh ever recorded: the consumed row stays at least for the retention time, and while it is there presenting its token gives ErrTokenReuse and leaves the user with no open session |
| `SessionTheorems.RefreshOutcome` | backend/internal/service/auth.go:263-288 | The answer to a refresh is decided by the row of the token: active rotates it, revoked for any reason or past expiry is reuse and sweeps its owner and nobody else, the exact instant of expiry is invalid and changes nothing |
| `SessionTheorems.RefreshRotates` | backend/internal/service/auth.go:245-258 | After a refresh the old token is caught as reuse and the new one can be refreshed |
| `SessionTheorems.AuthenticateIsSound` | backend/middleware/auth.go:14-40 | The middleware accepts exactly signed, unexpired tokens of active users with an open session, and in every reachable state that session is unexpired and owned by the subject |
| `SessionTheorems.LoginIsUsable` | backend/internal/service/auth.go:138-157 | The tokens a successful login returns work at once: the access token for that user and session, the refresh token for a refresh |
| `SessionTheorems.AdmitOpens` | backend/internal/service/auth.go:348-402 | A successful login leaves an open session of the user with that email, expiring after the refresh lifetime, and a token naming both |
| `SessionTheorems.InactiveUsersAreOut` | backend/internal/service/user.go:195-201 | In every state of every run of requests an inactive user has no open session |
| `SessionProtocol.SweepLeavesOnlyLateInserts` | backend/internal/service/user.go:195-201 | Interleaved, every session a user has open after a sweep was inserted after it; with no insert since, there is none |
| `SessionProtocol.LateInsertSurvives` | backend/internal/service/auth.go:116-138 | A run in which a login inserts its session after the deactivation of its user: the inactive user owns an open session, which is accepted once the user is active again |
| `SessionTheorems.CleanupAuditsWhatItDeletes` | backend/internal/app/app.go:231-245 | A cleanup writes one audit entry for each row it deletes, no more, and deletes no active session |
| `SessionTheorems.EntriesNameDoomedRows` | backend/internal/app/app.go:237-241 | Each of those entries names a row the cutoff condemns and its owner |
| `SessionTheorems.RevocationsAreTargeted` | backend/internal/service/auth.go:426-450 | Manual revocation, revocation of the other sessions and logout close exactly the sessions meant and none of any other user |
| `Serialisation.RequestsAreInterleavings` | backend/internal/service/auth.go:95-450 | Any two states of a run of requests are states, in that order, of one run of the interleaved protocol |
| `Serialisation.RevocationIsFinalForRequests` | backend/internal/service/auth.go:229-243 | After a session has ended, the middleware and Refresh reject its tokens in every later state of the run |
| `AuthService.AuthService.CheckLoginRateLimit` | backend/internal/service/auth.go:200-225 | Limiter check with its audit entry, and a security alert from the top threshold on |
| `AuthService.AuthService.CreateSession` | backend/internal/service/auth.go:348-390 | Inserts the session, signs the token and logs it, as the specification |
| `AuthService.AuthService.Refresh` | backend/internal/service/auth.go:229-261 | Revokes the presented session and opens its successor, as the specification |
| `AuthService.AuthService.HandleRefreshMiss` | backend/internal/service/auth.go:263-288 | Sweeps the sessions of the user when the known token is revoked or expired, as the specification |
| `AuthService.AuthService.Logout` | backend/internal/service/auth.go:291-309 | Revokes the session of the token if it is active, with two audit entries |
| `AuthService.AuthService.Authenticate` | backend/middleware/auth.go:14-40 | Guards in the order of the middleware, touching the session last |
| `AuthService.AuthService.RevokeSession` | backend/internal/service/auth.go:426-440 | Refuses unknown and foreign sessions, else revokes and logs |
| `AuthService.AuthService.RevokeOtherSessions` | backend/internal/service/auth.go:442-450 | Revokes all sessions of the user but the current one |
| `AuthService.AuthService.Login` | backend/internal/service/auth.go:95-157 | Changes the state and answers as the specification Login: both limiter checks, either of which may find Redis gone, then the credentials |
| `AuthService.AuthService.LoginPastLimits` | backend/internal/service/auth.go:106-157 | User lookup, password check, rehash, session, reset of both keys as far as Redis answers, audit and cache invalidation, as the specification Admit |
| `Store.Store.DeleteExpired` | backend/internal/repository/session.go:113-136 | Lists the condemned rows, deletes the same rows, counts them |
| `App.App.CleanupSessions` | backend/internal/app/app.go:231-245 | The cleanup and its loop of audit entries, as the specification |
| `App.App.SeedAdmin` | backend/internal/app/app.go:247-287 | Seeds the first user with every permission only when there is no user and a password is given |
| `RateLimiter.TieredRateLimiter.Check` | backend/cache/tiered_ratelimit.go:40-69 | Command by command on the flat keyspace, the update and verdict CheckKey describes |
| `RateLimiter.CheckBlocksExactly` | backend/cache/tiered_ratelimit.go:40-69 | A check is refused exactly while the marker of its key is live with a deadline or from the m-th count on; a refused one has a positive wait, which the marker then has; a blocked one changes nothing; no key but its own two is written |
| `RateLimiter.KeysAreSeparate` | backend/cache/tiered_ratelimit.go:41-42 | A Check, or a Reset, of one key leaves what a Check of another key answers alone in every state if and only if neither key is the other followed by ":block" |
| `RateLimiter.EmailsAreSeparate` | backend/cache/tiered_ratelimit.go:92-94 | The same equivalence for the keys of two emails, stated of the emails |
| `RateLimiter.MarkerCheckBlocks` | backend/cache/tiered_ratelimit.go:41-51 | One Check of a key followed by ":block" gets the first Check of the key refused for a whole counter lifetime |
| `Escalation.OthersDoNotMatter` | backend/cache/tiered_ratelimit.go:40-86 | After any sequence of Checks and Resets without a clashing key, a key is as if only its own had happened |
| `Escalation.EscalationBound` | backend/cache/tiered_ratelimit.go:40-79 | From any state on, the k-th increment of a counter lifetime comes at least the sum of the first k - 1 blocks after the first, whatever other keys, even the marker of the key itself, are checked meanwhile; the key may be reset before and after; only a Reset of its marker, and a key whose marker it is, are excluded |
| `Escalation.CountStopsAtTop` | backend/cache/tiered_ratelimit.go:40-79 | Under the same conditions, if the block at `top` is at least the counter lifetime, no lifetime counts past `top` |
| `Escalation.DefaultTiersTake155Minutes` | backend/internal/app/app.go:67-73 | With the shipped limits the twentieth attempt of a counter lifetime comes at least 155 minutes after its first |
| `Escalation.DefaultTiersStopAt20` | backend/cmd/api/main.go:31-32 | With the shipped tiers and counter lifetime no lifetime has a twenty-first attempt |
| `RateProtocol.UndisturbedIsCheckKey` | backend/cache/tiered_ratelimit.go:40-69 | The separate commands of a check, uninterrupted, have the effect of CheckKey on the whole keyspace, and its verdict |
| `RateProtocol.RunKeepsInv` | backend/cache/tiered_ratelimit.go:40-69 | In every interleaving no two calls hold the same count of the same lifetime of a key that is no marker, and every count lies within its lifetime; on any key a lifetime counts to 1 once |
| `RateProtocol.AdmittedPerLifetime` | backend/cache/tiered_ratelimit.go:40-69 | With the commands of any number of callers interleaved, and any of them failing, at most m - 1 calls are let through in one counter lifetime of a key that is the marker of no login key |
| `RateProtocol.AdmittedPerWindow` | backend/cache/tiered_ratelimit.go:53-59 | At most 2(m - 1) calls are let through on such a key in any window of one counter TTL in which the key is not reset, even if EXPIRE commands are lost; before and after the window it may be reset |
| `RateProtocol.UnmarkedEmails` | backend/cache/tiered_ratelimit.go:92-94 | The key of an email is the marker of no login key if and only if the email does not end in ":block" |
| `RateProtocol.VerificationsAreBounded` | backend/internal/service/auth.go:99-104 | The same two bounds hold of logins for one email not ending in ":block" that reach the password check, whatever IP addresses they use, and each passed the check of its own IP key |
| `ExactBounds.BoundsAreExact` | backend/internal/service/auth.go:99-104 | The bound per lifetime holds in all runs if and only if the email does not end in ":block" or m <= 2, the bound per window if and only if it does not or m = 1 |
| `ExactBounds.MarkersAreUnbounded` | backend/cache/tiered_ratelimit.go:61-66 | For m >= 3 and every n some run, at one instant, in one counter lifetime and without a Reset of the key, lets n logins for an email ending in ":block" reach the password check |
| `ExactBounds.WindowsAreUnbounded` | backend/cache/tiered_ratelimit.go:82-86 | For m >= 2 the Resets of successful logins for the shorter email do the same within one instant, one login after another |
| `RateProtocol.LostExpireLocks` | backend/cache/tiered_ratelimit.go:57-59 | Once the counter of an email has no deadline and is one short of the threshold, with no call left that could arm or reset it, no login for that email reaches the password check in any later state |
| `ExactBounds.EmailsGetStuck` | backend/cache/tiered_ratelimit.go:57-59 | A lost EXPIRE and m - 1 wrong passwords lead there, for every email and every m >= 2 |
| `LimiterRuns.LoginHonoursLimits` | backend/internal/service/auth.go:99-104 | A login is refused for its rate exactly when one of its two keys is limited in the keyspace it finds, which changes no session; a failed one has counted once on both keys, a successful one whose Resets are answered leaves nothing of either |
| `LimiterRuns.LimitsAreOwn` | backend/internal/service/auth.go:95-104 | In every run in which no email and no IP address clashed with those of a login, it is refused for its rate exactly when the Checks and Resets of its own IP address or its own email alone would have it refused |
| `LimiterRuns.FirstLoginIsHeard` | backend/internal/service/auth.go:95-104 | In such a run the first login for an email from a new IP address is not refused for its rate |
| `LimiterRuns.MarkerLoginLocksOut` | backend/internal/service/auth.go:95-104 | Without that condition it can be: a failed login for an email followed by ":block" gets the first login for the email refused |
| `LimiterRuns.TraceReplays` | backend/internal/service/auth.go:95-157 | The limiter keys of every state of every run are the replay of the Checks and Resets its logins made |
| `RateLimiter.BlockDuration` | backend/cache/tiered_ratelimit.go:71-79 | The longest block among the tiers whose threshold the count has reached, 0 if none |
| `RateLimiter.MaxTierThreshold` | backend/cache/tiered_ratelimit.go:28-36 | The largest positive threshold, 0 if none |
| `RateLimiter.BlocksExactlyFrom` | backend/cache/tiered_ratelimit.go:71-79 | An attempt is blocked if and only if the count is at least m, the least threshold with a positive block |
| `RateLimiter.BlockIsMonotone` | backend/cache/tiered_ratelimit.go:71-79 | A higher count never gives a shorter block, whatever the order of the tiers |
| `Matching.CoversIsTransitive` | backend/internal/service/permission_match.go:8-21 | Coverage of one code by another is transitive on all strings |
| `Matching.CoversIsReflexive` | backend/internal/service/permission_match.go:9-12 | Every code covers itself |
| `Matching.MatchIsAuthorised` | backend/internal/service/permission_match.go:8-21 | The matcher says yes exactly when some granted code covers the required one, so order and repetition do not matter |
| `Matching.MatchIsMonotone` | backend/internal/service/permission_match.go:8-21 | More granted codes never authorise less |
| `Matching.ClientAgrees` | frontend/src/utils/permission.ts:3-16 | The TypeScript matcher, which cuts the wildcard differently, agrees with the Go one on all inputs |
| `Matching.PatternIsScanned` | backend/internal/service/permission_validation.go:18 | One left-to-right scan decides the language of the code pattern, stated as two or more words joined by dots |
| `Matching.CatalogueCodesCoverThemselves` | backend/internal/service/permission_validation.go:20-31 | A code the catalogue accepts has that shape and covers nothing but itself |
| `PermissionTable.TablesStayWellFormed` | backend/internal/repository/permission.go:65-124 | Grants, revocations and catalogue changes keep ids unused before, codes unique and assignments referring to existing permissions |
| `PermissionTable.DeleteUnassigned` | backend/internal/service/permission_catalog.go:69-77 | Deleting a permission nobody holds cascades to no assignment and changes nobody's codes |
| `PermissionTable.ChangesAreUndone` | backend/internal/repository/permission.go:65-124 | Revoking undoes a grant; deleting undoes a creation but for the id, which stays used |
| `Authority.NoAmplification` | backend/internal/service/permission.go:64-90 | With the check and the insert of every grant interleaved with all other steps, whatever a user is authorised for was authorised at the start for that user or for some user who acted as grantor |
| `Authority.StepKeepsInv` | backend/internal/service/permission_catalog.go:60-92 | Every step, including the insert of a grant checked long before, keeps each held code sourced in the starting tables |
| `PermissionRuns.RequestsDoNotAmplify` | backend/internal/service/permission.go:64-109 | The same conservation over runs of whole requests |
| `PermissionRuns.NewCodesAreGranted` | backend/internal/service/permission.go:64-109 | A code a user newly holds after a request comes from a grant to that user by an actor authorised for it |
| `PermissionRuns.JoinIsStable` | backend/internal/service/permission_catalog.go:60-84 | Only Grant and Revoke change what the join returns; catalogue, session and user requests never do |
| `PermissionRuns.CacheIsTransparent` | backend/internal/service/permission.go:32-54 | If Redis answered during the assignments so far, HasPermission equals the matcher on the live join, in every state of every run |
| `PermissionCache.FlushAll` | backend/cache/permissions.go:56-75 | Whatever other requests store between the batches, a set is left only if no later batch had its key; when the scan returns every key that was there at the start, all that is left was stored since |
| `PermissionRuns.AnswersAreRecent` | backend/internal/service/permission.go:121-125 | Whichever invalidations were lost, all answers are those of the join at one instant less than one TTL ago |
| `Staleness.BoundedStaleness` | backend/cache/permissions.go:26-53 | With cache fills in flight at most `delay` ticks and invalidations that may fail, the codes answered from are those of the database at one instant less than TTL + delay ago |
| `PermissionService.PermissionService.HasPermission` | backend/internal/service/permission.go:32-54 | Cache-aside read with the fallback to the join, as the specification |
| `PermissionService.PermissionService.ActorCanGrant` | backend/internal/service/permission_catalog.go:86-92 | Decides coverage of the code by the codes of the actor in the database, not the cache |
| `PermissionService.PermissionService.Grant` | backend/internal/service/permission.go:64-90 | Checks user, permission and actor, inserts, invalidates and logs, as the specification |
| `PermissionService.PermissionService.Revoke` | backend/internal/service/permission.go:92-109 | Checks user and permission, deletes, invalidates and logs, as the specification |
| `PermissionService.PermissionService.Create` | backend/internal/service/permission_catalog.go:17-40 | Validation, uniqueness and insertion, as the specification |
| `PermissionService.PermissionService.UpdateDescription` | backend/internal/service/permission_catalog.go:42-58 | Description only, as the specification |
| `PermissionService.PermissionService.Delete` | backend/internal/service/permission_catalog.go:60-84 | Refuses protected and assigned permissions, as the specification |
| `PermissionRuns.AdminNeverDisappears` | backend/internal/service/user.go:116-133 | In runs that never revoke `*`, once an active user holds it some active user always does |
| `UserRuns.RevokingStarLeavesOthers` | backend/internal/service/permission.go:92-109 | A revocation of `*` leaves an administrator if and only if someone other than the user it is taken from is one |
| `UserRuns.LastAdminCanLoseStar` | backend/internal/service/permission.go:92-109 | The service accepts the revocation of `*` from the only administrator, after which there is none |
| `PermissionRuns.SeededAdmin` | backend/internal/app/app.go:247-287 | Seeding an empty system makes the seeded user, and nobody else, an administrator exactly if `*` is in the catalogue |
| `UserRuns.EmailsStayUnique` | backend/internal/service/user.go:57-91 | The checks in Create and Update keep emails unique over every run, so a lookup by email finds a user exactly if it is theirs |
| `UserRuns.UpdateIsTargeted` | backend/internal/service/user.go:93-223 | An update succeeds only if HasPermission says yes to every permission it needs, and is Forbidden exactly if one is missing, unless it deactivates its own actor; a successful one sets exactly the fields given, the password hash among them, of one user, closes the sessions of that user exactly when it deactivates an active account, and touches nobody else; a refused one changes neither users, sessions, grants nor the log |
| `PermissionService.UserService.Create` | backend/internal/service/user.go:57-91 | Email, password and uniqueness checks, then the new active user, as the specification |
| `PermissionService.UserService.Update` | backend/internal/service/user.go:93-223 | All guards in order, the save, the sweep and the audit entries, as the specification |
| `PermissionService.UserService.RequirePermissions` | backend/internal/service/user_authz.go:7-16 | The permissions asked for, in order, stopping at the first refusal |
| `PermissionService.UserService.EditFields` | backend/internal/service/user.go:143-191 | Field-by-field assignment gives the edited user and says whether the account was switched off or on |
| `LoginOutcomes.LoginOutcome` | backend/internal/service/auth.go:99-157 | In every state of every run with unique emails at its start, a login is refused for its rate exactly when limited; otherwise it succeeds if and only if some active user has the email and a stored hash that accepts the password, signs in that user, and renews the stored hash exactly if the old one asked for it; else it is InvalidCredentials |
| `LoginOutcomes.AdmitOutcome` | backend/internal/service/auth.go:106-157 | The same past both limits, with the log entries and the cached codes dropped; a failure changes nothing but the log |
| `LoginOutcomes.CredentialsOutcome` | backend/internal/service/auth.go:106-128 | Which reason is logged: no user has the email, the user is inactive, or the hash does not accept the password |
| `LoginOutcomes.RehashIsFinal` | backend/internal/service/auth.go:128-136 | After a login whose new hash accepts the password as it is, no rehash is asked for again |
| `LoginOutcomes.CheckAnswersStoredCount` | backend/cache/tiered_ratelimit.go:44-68 | On every branch the count a Check answers is the one stored when it is done |
| `LoginOutcomes.RefusedLoginAudits` | backend/internal/service/auth.go:200-225 | A login refused for its rate logs one entry, and an alert exactly if the stored count of the refused key has reached every threshold; it changes only that and the limiter keys |
| `LoginOutcomes.LoginWithoutRedis` | backend/internal/service/auth.go:200-206 | The limiter is unavailable exactly when Redis is gone before the first Check or before a second that is due |
| `LoginOutcomes.UnknownTokenIsInvalid` | backend/internal/service/auth.go:263-270 | A refresh token without a row is invalid and changes nothing |
| `LoginOutcomes.RefreshLeaves` | backend/internal/service/auth.go:245-260 | The whole state a successful refresh leaves: the two rows, the tokens, the log and the cache |
| `LoginOutcomes.ReuseIsLogged` | backend/internal/service/auth.go:272-285 | A reuse is logged against the owner of the token, naming the session, with an alert |
| `LoginOutcomes.LogoutOutcome` | backend/internal/service/auth.go:291-309 | The token of an active session revokes it now, with two entries; a known token of any other session does nothing |
| `LoginOutcomes.AcceptanceIsRecorded` | backend/internal/repository/session.go:80-91 | An accepted request stores its instant as the last activity of the session and changes nothing else |
| `LoginOutcomes.RevokeSessionOutcome` | backend/internal/service/auth.go:426-440 | Not found exactly for unknown sessions, refused exactly for foreign ones, neither changing anything; else revoked now unless it was, and logged |
| `LoginOutcomes.RevokeOthersOutcome` | backend/internal/service/auth.go:442-450 | Exactly the open sessions of the user but the current one are revoked, now |
| `LoginOutcomes.RetentionIsExact` | backend/internal/repository/session.go:113-136 | In every state of every run a cleanup deletes a row if and only if it expired, or was revoked, more than the retention ago |
| `PermissionOutcomes.GrantOutcome` | backend/internal/service/permission.go:64-90 | A grant succeeds if and only if user and permission exist and some code the actor holds covers the one granted; it gives that code to that user and nobody anything else; a refusal changes nothing |
| `PermissionOutcomes.RevokeOutcome` | backend/internal/service/permission.go:92-109 | A revocation succeeds if and only if user and permission exist; it takes that code from that user and nobody anything else |
| `PermissionOutcomes.CreateOutcome` | backend/internal/service/permission_catalog.go:17-40 | A permission is created if and only if its trimmed code has the documented shape, does not end in ".manage" and is not taken; it gets a new id and the trimmed description |
| `PermissionOutcomes.AcceptedCodes` | backend/internal/service/permission_validation.go:18-31 | The catalogue accepts exactly the codes of that shape |
| `PermissionOutcomes.TrimIsExact` | backend/internal/service/permission_catalog.go:18 | Trimming cuts off blanks at both ends and nothing else |
| `PermissionOutcomes.DescribeOutcome` | backend/internal/service/permission_catalog.go:42-58 | A description is stored, trimmed, if and only if the permission exists; all else stays |
| `PermissionOutcomes.DeleteOutcome` | backend/internal/service/permission_catalog.go:60-84 | A permission is deleted if and only if it exists, is none of the three protected ones and nobody holds it; each refusal is given exactly |
| `PermissionOutcomes.CheckFillsCache` | backend/internal/service/permission.go:43-51 | A miss with Redis answering leaves the codes cached for one TTL, unless there are none; a hit, and Redis down, leave the cache alone |
| `UserRuns.UpdateOutcome` | backend/internal/service/user.go:93-185 | An update is refused for deactivating its actor, for a missing permission, for the unknown user, the last administrator, the email or the password, in that order, and succeeds if and only if none of these applies |
| `UserRuns.CreateUserOutcome` | backend/internal/service/user.go:57-91 | A user is created if and only if email and password are acceptable and nobody has the email; exactly the account given is stored, active, under a new id |
| `UserRuns.SeedOutcome` | backend/internal/app/app.go:247-287 | Seeding does nothing with users present and fails without a password; otherwise it stores exactly the one user, who then holds every code |
| `PasswordHash.VerifyOutcome` | backend/internal/password/password.go:67-102 | Of all stored strings: a match with rehash is exactly a bcrypt string that bcrypt accepts, a match without exactly an Argon2id string that parses and whose parameters derive its key |
| `PasswordHash.RehashSettles` | backend/internal/password/password.go:67-80 | A bcrypt string replaced by a new hash of the same password is not asked for another rehash |
| `PasswordHash.OtherVersionsAreRefused` | backend/internal/password/password.go:112-117 | A printed hash with another version number does not decode |
| `Base64.DecodeFails` | backend/internal/password/password.go:121-128 | Decoding fails exactly on foreign characters and on a last group of one character |
| `Scanners.LowerIsExact` | backend/internal/service/user_validation.go:113 | Lowering moves the 26 capitals by 32 and nothing else |
| `PasswordGate.FieldsAreMaximal` | backend/internal/service/user_validation.go:185-187 | The split of a name yields exactly its maximal stretches without blank, hyphen, underscore and dot |
| `PasswordGate.PersonalDataIsExact` | backend/internal/service/user_validation.go:181-210 | Personal data is found exactly if such a stretch of three characters, the email, or what precedes its first "@" if three characters or more, occurs in the lowered password |
| `PasswordGate.LengthsComeFirst` | backend/internal/service/user_validation.go:53-78 | Too short is fewer than twelve characters, too long more than 128, and only between them a missing class is reported |
| `Scanners.HasRepetitivePatterns` | backend/internal/service/user_validation.go:160-179 | True exactly if for some k from 1 to 3 a window of k * ceil(10 / k) characters has period k; the bound on i misses none |
| `Scanners.CountRepeats` | backend/internal/service/user_validation.go:164-172 | Counts the copies up to the first that differs or does not fit |
| `Scanners.RunDecidesWindow` | backend/internal/service/user_validation.go:173-175 | A maximal run of copies has ten characters exactly if the window there has the period |
| `Scanners.RepetitionSurvivesPadding` | backend/internal/service/user_validation.go:160-179 | The verdict true is kept under padding on both sides |
| `Scanners.RepetitionIgnoresDirection` | backend/internal/service/user_validation.go:160-179 | The verdict is the same for the reversed text |
| `Scanners.HasSequence` | backend/internal/service/user_validation.go:112-158 | True exactly if some eight characters of the lowered text all step up by one, all step down by one, or lie in a keyboard row read either way |
| `Scanners.HasKeyboardRun` | backend/internal/service/user_validation.go:145-155 | The keyboard-row part of that search |
| `Scanners.SequenceSurvivesPadding` | backend/internal/service/user_validation.go:112-158 | The verdict true is kept under padding on both sides |
| `Scanners.SequenceIgnoresDirection` | backend/internal/service/user_validation.go:112-158 | The verdict is the same for the reversed text |
| `Scanners.ReverseInPlace` | backend/internal/service/user_validation.go:212-218 | The swap loop reverses the array |
| `PasswordGate.ContainsPersonalData` | backend/internal/service/user_validation.go:181-210 | True exactly if a name part of three characters, the email or its local part of three occurs in the lowered password |
| `PasswordGate.ValidatePasswordSecure` | backend/internal/service/user_validation.go:53-99 | Decides length, classes, common passwords and patterns in the order of the source, up to the breach lookup |
| `PasswordGate.CheckPasswordStrength` | frontend/src/components/UserFormModal.tsx:31-132 | The score counts length, both cases, a digit, and the absence of patterns and personal data |
| `PasswordGate.FindsSteps` | frontend/src/components/UserFormModal.tsx:41-54 | The two-flag scan of the client finds exactly the windows stepping up or down |
| `PasswordGate.FindsRepetition` | frontend/src/components/UserFormModal.tsx:73-92 | The flagged loops of the client decide the same repetition as the server |
| `PasswordGate.FindsPersonal` | frontend/src/components/UserFormModal.tsx:95-116 | The client looks at all parts and finds what the description says |
| `PasswordGate.NoCommonPasswordIsLongEnough` | backend/internal/service/user_validation.go:29-43 | No password of twelve characters is in the list of common ones |
| `PasswordGate.PersonalChecksAgree` | frontend/src/components/UserFormModal.tsx:96-116 | Splitting the name by regular expression or by fields finds the same personal data in printable names |
| `PasswordGate.GatesAgree` | frontend/src/components/UserFormModal.tsx:31-132 | A full client score and at most 128 characters is equivalent to passing every server check before the breach lookup |
| `Base64.RoundTrip` | backend/internal/password/password.go:121-128 | Unpadded standard base64 (RFC 4648, sections 3.2 and 4) decodes what it encoded |
| `PasswordHash.DecimalRoundTrip` | backend/internal/password/password.go:62-63 | A printed number reads back as itself |
| `PasswordHash.PrintSplits` | backend/internal/password/password.go:105-108 | The printed string splits at the dollar signs into exactly the six fields |
| `PasswordHash.PrintIsDecoded` | backend/internal/password/password.go:104-135 | Decoding a printed hash gives back memory, iterations, parallelism, salt and key, with the length of the key, for all parameters in range |
| `PasswordHash.VerifyIsExact` | backend/internal/password/password.go:67-102 | A printed hash accepts exactly the passwords that derive the same key and never asks for a rehash |
| `PasswordHash.Hasher.Hash` | backend/internal/password/password.go:51-64 | The string made with the parameters in force decodes to them and verifies its own password |
| `PasswordHash.Hasher.constructor` | backend/internal/password/password.go:139-148 | The dummy hash is made with the cheap parameters and verifies its own text; the defaults are in force afterwards |

## Left out

- HTTP handlers, routing, cookies, JSON, middleware other than `Auth`, and the user interface: plumbing.
- RSA, SHA-256, Argon2id, bcrypt and random bytes: parameters or assumptions, as listed above.
- The breach lookup, GeoIP and the impossible-travel alert, PEM and environment loading, migrations: I/O.
- The inside of `validateEmail`: a call of `net/mail`.
- Non-ASCII text: the scanners and password gates compare characters, which agree with bytes, runes and UTF-16 units on ASCII only.
- Concurrent refreshes of one token: lineage and reuse are proved of requests run one at a time, because the number of rows the revocation changed is not looked at by the code.
- Concurrent deactivations: the last-administrator and unique-email results are about requests run one at a time; in the database a UNIQUE constraint backs the latter.
- SessionTheorems.InactiveUsersAreOut: is about requests run one at a time; interleaved, a session inserted after the sweep stays open, as `SessionProtocol.LateInsertSurvives` shows.
- The three commands of `PermissionCache.Set` as separately interleaved steps: they are one step here.
- AuthService.AuthService.Login: does not model Redis failing between two commands of one Check, which refuses the login after it was counted; `RateProtocol` does.
- AuthService.AuthService.LoginPastLimits: does not raise the impossible-travel alert.
- PasswordHash.Hasher.Hash: requires at least one iteration, one lane and one byte of key, because the key derivation panics otherwise; verifying a stored string that names zero of one of them is not modelled.
- Wrap-around of the 64-bit attempt counter, and time-zone or leap-second effects.
- Timing: the dummy verification on failed logins has no effect on the state.
- Unusual spacing `Sscanf` accepts between the fields of a stored hash, and white space outside ASCII in `TrimSpace`.
- IP address, user agent and the old and new data of audit entries: recorded but never read back.
- Roles, audit listing and paging, session listing: settled by one branch.
- `SeedAdmin` as part of a run: it happens before the first request; runs start from any state it can leave.
- SessionProtocol.CleanupIsExact: assumes one cleaner at a time and clock delays of at most the retention time.
