# Verified model of the identity service and two timed protocols

This Dafny project models the authorization engine of the identity service, its session, lockout
and token lifecycle, the Redis attempt counter and token blacklist, the gateway's retry loop and
the masking of log records, and proves properties of them. Run `dafny verify dfyconfig.toml`.

## How it is organised

| files | what they hold |
|---|---|
| `RbacEvaluator`, `RoleGraph`, `RoleStore`, `RoleServices`, `PermissionResolver`, `Authorization` | wildcard grants as an order; inheritance as reachability; the role tables as a state machine; the repository, role creation and the resolver as objects and loops; decisions end to end |
| `IdentityModel`, `Outcomes`, `Entities`, `Repositories`, `Services` | tables and one atomic step per request; what each step answers and stores, by rows and values alone; the aggregates and repositories as classes; login, refresh, logout, password reset and email verification as services, each proved to do what its step says |
| `Lifecycle`, `SessionTheorems`, `Lockout` | sequential runs under a clock that never goes back, and what holds over every one of them |
| `Interleaved`, `Serialization`, `Races`, `Sequential` | the same services split where they wait and what survives every interleaving; agreement of the two models on a request that runs alone, and so on runs without overlap; runs that defeat what does not survive |
| `RaceConditions`, `SingleUse`, `ResetRaces` | the exact conditions under which overlap loses a lock, reuses a token or puts a password back |
| `Redis`, `RateLimit`, `Blacklist` | a store of keys with expiry, and two services over it |
| `GatewayRetry`, `LogMasking` | the retry loop over an outcome oracle; masking as a tree transformation |

Code that changes state is modelled by classes and methods; each method is proved equal to a
function on values, and the theorems are about those functions. The main results:

* Role resolution returns exactly the known ancestors of the requested roles on every table,
  cyclic and dangling ones included, after an exactly counted number of calls; a decision holds
  iff some ancestor-or-self of a held role has a matching grant. Matching is a partial order.
* Any run of role creations and deletions leaves no cycle of parents. The database would accept a
  row that is its own parent; an insertion keeps the graph acyclic iff the row is not that.
* In sequential runs a refresh token is accepted at most once, a session's descendants form one
  chain with at most one unrevoked member, a refresh conserves unrevoked sessions, no session from
  before a completed reset is refreshed strictly later, nor at once with a token that carries its
  expiry, and a user is locked iff the attempts contain five wrong passwords in a row, for good.
* Under arbitrary interleaving rows never lose their revocation and keep their identity, the
  unique index agrees with a scan, and an unlocked user has fewer than five failed attempts. A run
  without overlap is a sequential run, so all of the above holds of it.
* With overlap, a stored lock can be lost iff a login, a reset or an email verification in flight
  holds an unlocked copy of the user; a session stored as revoked can be rotated again iff a
  refresh that loaded it is still in flight and its user passes, or may come to pass, the lock
  check; a stored password can be replaced without another reset iff a login or an email
  verification in flight holds a copy with another one. A reset's loop revokes every session that
  was active when it listed them, whatever else happens.
* The attempt counter implements fixed windows exactly when calls do not overlap; when they do, a
  window's end can move iff a call in flight is still due to set it. A blacklist entry ends within
  the second after the token that wrote it last does; the retry loop stops at one place fixed by
  the outcomes; two log trees mask alike iff they differ only beneath sensitive keys.

## What is assumed

* UUIDs are never reused, not even after deletion. Initial tables satisfy the stated invariant.
* Password verification, signature verification, decoding, hashing, UUIDs, `exp` values and the
  clock are inputs. A token verifies only if the login or refresh service issued it with those
  claims and before the second of its `exp`, as section 4.1.4 of RFC 7519 requires. The hash need
  not be injective: the unique index on the stored digest, which the schema declares, is what the
  proofs use. A login or refresh whose digest is taken fails with the database's uniqueness error;
  a refresh has then revoked its old session already.
* Role resolution assumes nothing about the role list: not even that ids and names are unique.
  Runs of role operations take their insertions from role creation, which looks the parent up
  before it draws the new id, so no inserted row is its own parent.
* For the blacklist, the clock is read and the entry set at one instant, and `remove` is not
  called. A Redis key is live strictly before its expiry instant.
* Storing a user stores it under its id. As written, `PrismaUserRepository.save` is a `create`
  (services/identity/src/modules/auth/repositories/PrismaUserRepository.ts:30-42) while password
  reset and email verification call it for an existing user; the model follows what they mean by
  it and writes the columns that `update` writes. With login these are all the services that write
  the row of a stored user; registration adds a row under a new id and address, which touches none
  of the users the theorems speak of.
* Times are integers in milliseconds.

## Where the code and its comments or promises differ

* A replayed refresh token is looked up by its exact digest, so the branch "Token replay detected"
  (services/identity/src/modules/auth/services/RefreshTokenService.ts:41-50) is never taken: a
  replay ends in "Session is revoked" and revokes nothing else. `RefreshOfSession` proves this.
* The reset query keeps sessions with `expiresAt > now` while a session is expired when `now >
  expiresAt`. A session expiring at the very millisecond of the reset is not revoked and passes
  its own checks in that millisecond (`ResetCutoff`). A token that carries its `exp` no longer
  verifies then, so such a session can be refreshed only with a token without `exp`, or if its
  token was verified an instant before its session was checked.
* The reset stores the new password before it marks the token as used, and marking checks the
  expiry again. A token that expires in between leaves the password changed, every session
  unrevoked and the token stored; `ExpiringResetKeepsSessions` and `UnexpiredResetCompletes` prove
  both sides.
* A negative `RETRY_COUNT`, which the configuration does not exclude, makes the loop send nothing
  for a retryable verb and return as if it had succeeded.
* An attempt counter whose process dies between the transaction and `EXPIRE` never expires by
  itself, exactly if no other call in flight was going to set its expiry
  (`CrashKeepsExpiryOwedIff`). The next call for the key repairs it (`NextCallRestoresExpiry`).
* Logout decodes the access token without verifying it, so what it blacklists under a `jti` may
  carry an `exp` that is not that of the token issued with this `jti`, and the last such logout
  decides how long the entry lives. `LoggedOutTokenIsDeadIff` gives the exact condition under
  which a logged-out token stays refused, `OtherTokenShortensEntry` an input for which it does
  not.
* Masking assigns `maskedObj[key]`; for the key `__proto__` that sets a prototype, so a field of
  that name is dropped. Keys are preserved exactly when none is `__proto__`.

## Model

| member | source | states |
|---|---|---|
| `RbacEvaluator.FamilyMatches` | services/identity/src/modules/auth/engine/RBACEvaluator.ts:11-25 | a grant `p.*` covers itself and exactly the strings `p.` followed by anything |
| `RbacEvaluator.PlainMatches` | services/identity/src/modules/auth/engine/RBACEvaluator.ts:11-25 | a grant that is neither `*` nor a family covers only itself |
| `RbacEvaluator.MatchTransitive` | services/identity/src/modules/auth/engine/RBACEvaluator.ts:11-25 | a grant covers whatever the grants it covers cover |
| `RbacEvaluator.MatchAntisymmetric` | services/identity/src/modules/auth/engine/RBACEvaluator.ts:11-25 | two grants that cover each other are the same string |
| `RbacEvaluator.MatchIsPartialOrder` | services/identity/src/modules/auth/engine/RBACEvaluator.ts:11-25 | matching is reflexive, transitive and antisymmetric on all strings, with `*` on top |
| `RbacEvaluator.CoverageDecides` | services/identity/src/modules/auth/engine/RBACEvaluator.ts:7-25 | one grant list allows everything another allows iff it covers every grant of the other, read as a request |
| `RbacEvaluator.DroppingCoveredGrant` | services/identity/src/modules/auth/engine/PolicyEngine.ts:9-23 | removing a grant that another kept grant covers changes no permission, any, all or not decision |
| `RbacEvaluator.IrredundantGrantsAreUnique` | services/identity/src/modules/auth/engine/RBACEvaluator.ts:7-25 | two lists without redundant grants that decide alike hold the same grants |
| `RoleGraph.ParentNameMeaning` | services/identity/src/modules/auth/engine/PermissionResolver.ts:67-71 | with unique ids and names, a walked edge is a stored parent link between two rows |
| `RoleGraph.WhichRoleCounts` | services/identity/src/modules/auth/engine/PermissionResolver.ts:59-68 | of several roles with one name the last in the list counts, of several with one id the first |
| `RoleGraph.CollectExact` | services/identity/src/modules/auth/engine/PermissionResolver.ts:62-73 | a traversal leaves the visited names distinct and closed under parents and adds only names reachable from its start, on any graph |
| `RoleGraph.EffectiveRolesExact` | services/identity/src/modules/auth/engine/PermissionResolver.ts:58-79 | resolution returns, without duplicates, exactly the known names reachable from known requested names; cycles and dangling parents included |
| `RoleGraph.EffectiveRolesExtensiveMonotone` | services/identity/src/modules/auth/engine/PermissionResolver.ts:58-79 | every known request is in its resolution, and more requests never resolve to fewer roles |
| `RoleGraph.EffectiveRolesDistribute` | services/identity/src/modules/auth/engine/PermissionResolver.ts:58-79 | resolving two lists together gives the union of resolving them apart |
| `RoleGraph.EffectiveRolesOrderIndependent` | services/identity/src/modules/auth/engine/PermissionResolver.ts:58-79 | order and repetition of requests do not change the set of roles |
| `RoleGraph.EffectiveRolesIdempotent` | services/identity/src/modules/auth/engine/PermissionResolver.ts:58-79 | resolving a resolved list returns that list, order included |
| `RoleStore.PermissionNames` | services/identity/src/modules/auth/repositories/PrismaRoleRepository.ts:61-67 | a name is returned iff some grant row of the role carries a permission of that name |
| `RoleStore.ApplyDoes` | services/identity/src/modules/auth/repositories/PrismaRoleRepository.ts:9-59 | row by row, when each operation is accepted and what it stores: the row inserted, the role and grants deleted and the links cleared, the grant added, the grant removed |
| `RoleStore.ApplyKeepsWellFounded` | services/identity/prisma/schema.prisma:29-43 | each row operation, inserting rows as role creation makes them, keeps ids and names unique, parents stored and created earlier, and grant rows unique and resolved |
| `RoleStore.RoleRunsStayWellFounded` | services/identity/src/modules/auth/services/CreateRoleService.ts:20-49 | the same over every run of role creations, deletions, assignments and removals in any order |
| `RoleStore.RunsNeverCreateCycles` | services/identity/src/modules/auth/services/CreateRoleService.ts:20-49 | after any such run no chain of parents visits a role twice |
| `RoleStore.InsertKeepsAcyclicIff` | services/identity/prisma/schema.prisma:38 | an insertion that the database accepts leaves the parent graph acyclic iff the row is not its own parent |
| `RoleStore.ResolutionReachesRoot` | services/identity/src/modules/auth/engine/PermissionResolver.ts:62-73 | after any such run, resolving one known role gives its ancestors in order up to a role without a parent |
| `RoleStore.InsertLeavesAncestors` | services/identity/src/modules/auth/repositories/PrismaRoleRepository.ts:9-19 | inserting a role changes the ancestors of no existing name |
| `RoleStore.DeleteCutsThroughRole` | services/identity/prisma/schema.prisma:38 | after a deletion one name reaches another iff it did before by a path that avoids the deleted role |
| `RoleServices.RoleRepository.FindPermissions` | services/identity/src/modules/auth/repositories/PrismaRoleRepository.ts:61-67 | the loop returns the permission names of the role, as characterised by `PermissionNames` |
| `RoleServices.RoleRepository.Create` | services/identity/src/modules/auth/repositories/PrismaRoleRepository.ts:9-19 | succeeds iff id and name are free and the parent, itself perhaps, is stored; then exactly this row is added at the end, and otherwise nothing changes |
| `RoleServices.RoleRepository.Delete` | services/identity/src/modules/auth/repositories/PrismaRoleRepository.ts:33-35 | succeeds iff the id is stored; then this role and its grants are gone, its children have no parent and every other row is as it was; otherwise nothing changes |
| `RoleServices.RoleRepository.AssignPermission` | services/identity/src/modules/auth/repositories/PrismaRoleRepository.ts:37-45 | succeeds iff the grant is stored or role and permission are; then exactly this grant is added if it was missing, and otherwise nothing changes |
| `RoleServices.RoleRepository.RemovePermission` | services/identity/src/modules/auth/repositories/PrismaRoleRepository.ts:47-59 | afterwards the grants are those before without this one; roles and permissions are unchanged |
| `RoleServices.CreateRoleService.Execute` | services/identity/src/modules/auth/services/CreateRoleService.ts:20-49 | succeeds iff the name is free and the requested parent, if any, exists; then the one new row is the requested role, never its own parent, and otherwise nothing changes |
| `PermissionResolver.RoleCollector.CollectRoles` | services/identity/src/modules/auth/engine/PermissionResolver.ts:62-73 | the recursive traversal terminates on every graph, extends the captured set as the closure says, and makes one call plus one per added role with a parent |
| `PermissionResolver.BuildRoleMap` | services/identity/src/modules/auth/engine/PermissionResolver.ts:59 | the map sends each name to the last role of that name |
| `PermissionResolver.ResolveEffectiveRoles` | services/identity/src/modules/auth/engine/PermissionResolver.ts:58-79 | returns each inherited role once and nothing else; the number of traversal calls is exactly the requests plus the returned roles with a parent, so at most requests plus results |
| `PermissionResolver.EffectivePermissionsExact` | services/identity/src/modules/auth/engine/PermissionResolver.ts:43-55 | the gathered permissions are exactly the grants of the requested roles and their ancestors, each once |
| `PermissionResolver.RemovalUngrants` | services/identity/src/modules/auth/repositories/PrismaRoleRepository.ts:47-59 | after a removal a role grants a permission iff another of its grant rows carries the name |
| `PermissionResolver.AssignmentGrants` | services/identity/src/modules/auth/repositories/PrismaRoleRepository.ts:37-45 | after an assignment a role grants what it did before and the assigned permission, and nothing else |
| `PermissionResolver.ResolveEffectivePermissions` | services/identity/src/modules/auth/engine/PermissionResolver.ts:7-56 | the two nested loops return exactly those permissions |
| `PermissionResolver.ResolutionAcrossStates` | services/identity/src/modules/auth/engine/PermissionResolver.ts:8-55 | if the tables change between the reads, a permission is returned iff some role inherited at the start held a grant of it when its own turn came; what such a role holds throughout is returned |
| `PermissionResolver.StableTablesAgree` | services/identity/src/modules/auth/engine/PermissionResolver.ts:45-53 | if the tables do not change this is the resolution in one state |
| `Authorization.DecisionsAreExact` | services/identity/src/modules/auth/engine/PolicyEngine.ts:5-23 | requirePermission holds iff an ancestor-or-self of a held role has a matching grant; requireAll, requireAny, not and requireRole are the exact counterparts |
| `Authorization.ResolvingResolvedRoles` | services/identity/src/modules/auth/engine/AuthorizationEngine.ts:14-24 | permissions of the effective roles are those of the direct roles, in the same order |
| `Authorization.ResolutionKeepsDirectPermissions` | services/identity/src/modules/auth/repositories/PrismaUserRepository.ts:95-115 | resolution contains every permission held directly, and more roles lose none |
| `Authorization.ChildInheritsParentPermissions` | services/identity/src/modules/auth/engine/PermissionResolver.ts:32-37 | a role resolves to at least the permissions its parent resolves to |
| `IdentityModel.FindByRefreshTokenIsScan` | services/identity/src/modules/auth/repositories/PrismaDeviceSessionRepository.ts:15-21 | the unique index finds a row iff a scan of the table does |
| `Outcomes.LoginOfNobody` | services/identity/src/modules/auth/services/LoginService.ts:30-42 | an address that no stored user has is refused as invalid credentials, without effect |
| `Outcomes.LoginOfUser` | services/identity/src/modules/auth/services/LoginService.ts:44-94 | a locked user is refused without effect; a wrong password adds one to the count and locks from the fifth on; a right one clears the count and stores one unrevoked session that expires at the token's `exp`, or after seven days |
| `Outcomes.RefreshOfNothing` | services/identity/src/modules/auth/services/RefreshTokenService.ts:22-39 | a token that does not verify, or whose digest no session has, is refused with the matching error, without effect |
| `Outcomes.RefreshOfSession` | services/identity/src/modules/auth/services/RefreshTokenService.ts:52-119 | revoked, mismatched, expired and locked are refused in this order, each with its error and without effect; otherwise the row is revoked and its successor, with its own expiry, stored for the same user |
| `Outcomes.LogoutOfNothing` | services/identity/src/modules/auth/services/LogoutService.ts:37-51 | tokens that name no session are refused without effect |
| `Outcomes.LogoutOfSession` | services/identity/src/modules/auth/services/LogoutService.ts:37-70 | the access token's session goes first; a missing or revoked one succeeds without effect, another must have the presented refresh token and is then revoked |
| `Outcomes.ResetOutcome` | services/identity/src/modules/auth/services/ResetPasswordService.ts:29-68 | succeeds iff the token is stored, unused, not past its expiry and of a stored user whose password changes; then the new hash is stored, exactly the active sessions are revoked and exactly this token is gone; otherwise nothing changes |
| `Outcomes.VerifyOutcome` | services/identity/src/modules/auth/services/VerifyEmailService.ts:22-45 | succeeds iff the token is stored, unused, not past its expiry and of a stored user; then the user is verified and exactly this token is gone; otherwise nothing changes |
| `Entities.User.Lock` | services/identity/src/core/domain/User.ts:58-64 | locks, and announces it only the first time |
| `Entities.User.Unlock` | services/identity/src/core/domain/User.ts:66-69 | clears the lock and the counter, nothing else |
| `Entities.User.IncrementFailedAttempts` | services/identity/src/core/domain/User.ts:71-79 | counts unless locked, locks on reaching the limit, and announces the lock exactly then |
| `Entities.User.RecordLogin` | services/identity/src/core/domain/User.ts:100-106 | refused without effect when locked; otherwise clears the counter and announces the login |
| `Entities.User.ChangePassword` | services/identity/src/core/domain/User.ts:92-98 | refused without effect for the same hash; otherwise changes only the hash and announces it |
| `Entities.User.VerifyEmail` | services/identity/src/core/domain/User.ts:85-90 | sets the verified flag and nothing else, however often |
| `Entities.DeviceSession.Rotate` | services/identity/src/core/domain/DeviceSession.ts:61-63 | the successor is a new unrevoked session of the same user; this session is left as it was |
| `Entities.DeviceSession.Revoke` | services/identity/src/core/domain/DeviceSession.ts:65-71 | fails without effect when revoked already; otherwise sets only the flag and announces it |
| `Entities.PasswordResetToken.MarkAsUsed` | services/identity/src/core/domain/PasswordResetToken.ts:38-46 | succeeds iff unused and not expired, and names the reason otherwise |
| `Entities.EmailVerificationToken.MarkAsUsed` | services/identity/src/core/domain/EmailVerificationToken.ts:34-43 | succeeds iff unused and not expired and announces the verified address exactly then; names the reason otherwise |
| `Repositories.UserRepository.FindById` | services/identity/src/modules/auth/repositories/PrismaUserRepository.ts:9-15 | loads a fresh copy of the row with that id, if any |
| `Repositories.UserRepository.FindByEmail` | services/identity/src/modules/auth/repositories/PrismaUserRepository.ts:17-23 | loads a fresh copy of the row with that address, if any |
| `Repositories.UserRepository.Update` | services/identity/src/modules/auth/repositories/PrismaUserRepository.ts:44-55 | fails without effect for a user that is not stored; otherwise writes its four mutable columns and touches no other row |
| `Repositories.DeviceSessionRepository.FindById` | services/identity/src/modules/auth/repositories/PrismaDeviceSessionRepository.ts:9-13 | loads a fresh copy of the row with that id, if any |
| `Repositories.DeviceSessionRepository.FindByRefreshToken` | services/identity/src/modules/auth/repositories/PrismaDeviceSessionRepository.ts:15-21 | loads a fresh copy of the row with that digest, if any |
| `Repositories.DeviceSessionRepository.FindActiveSessions` | services/identity/src/modules/auth/repositories/PrismaDeviceSessionRepository.ts:23-34 | loads exactly the user's unrevoked sessions expiring strictly later, each once |
| `Repositories.DeviceSessionRepository.Save` | services/identity/src/modules/auth/repositories/PrismaDeviceSessionRepository.ts:36-55 | an existing row takes over the revocation flag only; a new row is inserted or refused by the unique index without effect |
| `Repositories.PasswordResetTokenRepository.FindByToken` | services/identity/src/modules/auth/repositories/PrismaPasswordResetTokenRepository.ts:25-40 | loads a fresh copy of the token row, if any |
| `Repositories.PasswordResetTokenRepository.Delete` | services/identity/src/modules/auth/repositories/PrismaPasswordResetTokenRepository.ts:42-50 | removes the row, or nothing |
| `Repositories.EmailVerificationTokenRepository.FindByToken` | services/identity/src/modules/auth/repositories/PrismaEmailVerificationTokenRepository.ts:25-40 | loads a fresh copy of the token row, if any |
| `Repositories.EmailVerificationTokenRepository.Delete` | services/identity/src/modules/auth/repositories/PrismaEmailVerificationTokenRepository.ts:42-50 | removes the row, or nothing |
| `Services.LoginService.Execute` | services/identity/src/modules/auth/services/LoginService.ts:29-106 | statement by statement over loaded objects, changes both tables exactly as the atomic login step and returns its result |
| `Services.RefreshTokenService.Execute` | services/identity/src/modules/auth/services/RefreshTokenService.ts:21-119 | the same for the refresh step; the replay branch cannot be entered |
| `Services.LogoutService.Execute` | services/identity/src/modules/auth/services/LogoutService.ts:20-71 | the same for the logout step; the blacklist is written first and stays written if the session part fails |
| `Services.ResetPasswordService.Execute` | services/identity/src/modules/auth/services/ResetPasswordService.ts:25-83 | the same for the reset step; the already-revoked error never comes out of it |
| `Services.ResetPasswordService.RevokeSessions` | services/identity/src/modules/auth/services/ResetPasswordService.ts:58-68 | the loop revokes exactly the user's active sessions and never fails |
| `Services.VerifyEmailService.Execute` | services/identity/src/modules/auth/services/VerifyEmailService.ts:18-53 | statement by statement, changes the users and the verification tokens exactly as the atomic verification step; no other table is in its reach |
| `Lifecycle.AcceptedRefresh` | services/identity/src/modules/auth/services/RefreshTokenService.ts:33-105 | an accepted refresh presented an issued token of an unrevoked, unexpired session of an unlocked user, revoked that row, added the successor and changed no other row |
| `Lifecycle.AdvanceKeepsInv` | services/identity/src/modules/auth/repositories/PrismaDeviceSessionRepository.ts:36-55 | every request keeps both indexes, authentic claims and linear rotations; rows persist, keep their identity and stay revoked |
| `Lifecycle.RunsKeepInv` | services/identity/src/modules/auth/repositories/PrismaDeviceSessionRepository.ts:15-55 | that invariant holds at every moment of every legal run |
| `Lifecycle.RunsPersist` | services/identity/src/modules/auth/repositories/PrismaDeviceSessionRepository.ts:36-55 | between any two moments of a run sessions and users persist unchanged in identity, revocation is kept and the clock does not go back |
| `SessionTheorems.RevokedIsRefused` | services/identity/src/modules/auth/services/RefreshTokenService.ts:52-54 | a refresh with a revoked session's token is refused and changes nothing |
| `SessionTheorems.RevokedIsNeverAccepted` | services/identity/src/modules/auth/services/RefreshTokenService.ts:52-71 | once a session is revoked, no later refresh in the run is accepted with its token |
| `SessionTheorems.RefreshTokensAreSingleUse` | services/identity/src/modules/auth/services/RefreshTokenService.ts:33-105 | of two refreshes in a run with one token at most one is accepted |
| `SessionTheorems.RefreshConservesSessions` | services/identity/src/modules/auth/services/RefreshTokenService.ts:70-105 | an accepted refresh changes no user's number of unrevoked sessions, no other user's sessions, and no row but the two |
| `SessionTheorems.LoginAddsOneSession` | services/identity/src/modules/auth/services/LoginService.ts:83-94 | an accepted login adds exactly its session to its user's unrevoked ones and changes no existing row |
| `SessionTheorems.LoginTokenRefreshes` | services/identity/src/modules/auth/services/RefreshTokenService.ts:33-105 | the refresh token that a login hands out is accepted until its `exp`, or for seven days without one |
| `SessionTheorems.RefreshTokenRefreshes` | services/identity/src/modules/auth/services/RefreshTokenService.ts:70-105 | so is the one that a refresh hands out |
| `SessionTheorems.LogoutRevokesOnlyItsSession` | services/identity/src/modules/auth/services/LogoutService.ts:38-70 | a row changes iff the access token names it, or names none and the refresh token does, the presented refresh token is its own and it was unrevoked; then only its flag does |
| `SessionTheorems.RefusalLeavesSessions` | services/identity/src/modules/auth/services/RefreshTokenService.ts:33-105 | a refused request changes the session table iff it is a refresh that passes every check; its successor is then refused by the unique index and its old session stays revoked |
| `SessionTheorems.DescendantsFormChain` | services/identity/src/modules/auth/services/RefreshTokenService.ts:70-105 | any two sessions descending from one session belong to one user and lie on one chain, never in a circle, and the earlier is revoked; so at most the last is not |
| `SessionTheorems.RefreshExtendsChain` | services/identity/src/modules/auth/services/RefreshTokenService.ts:96-105 | an accepted refresh adds an unrevoked end to the chain of the presented session |
| `SessionTheorems.ResetCutoff` | services/identity/src/modules/auth/services/ResetPasswordService.ts:58-68 | after a reset the user's session is refreshable iff it was unrevoked, expires at the instant of the reset and that is the time; other users' rows are unchanged |
| `SessionTheorems.ResetEndsOldSessions` | services/identity/src/modules/auth/services/ResetPasswordService.ts:58-68 | in every run no session that existed at a completed reset is refreshed strictly later, nor at the same instant with a token that carries its expiry |
| `SessionTheorems.ResetTokenIsSpent` | services/identity/src/modules/auth/services/ResetPasswordService.ts:55-56 | of two resets in a run with one token at most one completes |
| `Lockout.WindowGrows` | services/identity/src/core/domain/User.ts:71-83 | one more attempt completes a window of five wrong ones iff it brings the trailing count to five |
| `Lockout.LockedIffFiveInARow` | services/identity/src/modules/auth/services/LoginService.ts:44-58 | throughout every run a fresh user is locked iff its attempts contain five wrong in a row, and until then the counter is the trailing wrong count |
| `Lockout.LocksArePermanent` | services/identity/src/core/domain/User.ts:71-79 | a locked user stays locked to the end of every run |
| `Lockout.LockedIsRefused` | services/identity/src/modules/auth/services/RefreshTokenService.ts:65-68 | while a user is locked its logins and the refreshes of its sessions are refused without effect |
| `Lockout.FiveWrongShutTheUserOut` | services/identity/src/modules/auth/services/LoginService.ts:44-55 | from five wrong passwords in a row on, every login and refresh for the user is refused |
| `Interleaved.ActKeepsOk` | services/identity/src/modules/auth/services/LoginService.ts:37-94 | one action of one of many overlapping requests keeps the invariant on tables and on all copies in memory |
| `Interleaved.InterleavingKeepsSafety` | services/identity/src/modules/auth/repositories/PrismaDeviceSessionRepository.ts:36-55 | in every interleaving rows persist, keep id, user, digest, expiry and creation time, and are never un-revoked; users keep id and address |
| `Interleaved.StoredRowsStaySafe` | services/identity/src/core/domain/User.ts:71-83 | in every interleaving the unique index agrees with a scan and an unlocked user has fewer than five failed attempts |
| `Serialization.LoneLogin` | services/identity/src/modules/auth/services/LoginService.ts:29-106 | the actions of a login run alone do what its atomic step does, on every path |
| `Serialization.LoneRefresh` | services/identity/src/modules/auth/services/RefreshTokenService.ts:21-119 | the same for a refresh |
| `Serialization.LoneLogout` | services/identity/src/modules/auth/services/LogoutService.ts:37-70 | the same for a logout, wherever its session id comes from, if anywhere |
| `Serialization.LoneReset` | services/identity/src/modules/auth/services/ResetPasswordService.ts:25-68 | the same for a reset that passes its checks, for any listing order of the sessions |
| `Serialization.LoneResetRefused` | services/identity/src/modules/auth/services/ResetPasswordService.ts:29-51 | a reset that fails a check leaves everything as it was |
| `Serialization.LoneVerify` | services/identity/src/modules/auth/services/VerifyEmailService.ts:18-53 | the actions of a verification run alone do what its atomic step does, on every path |
| `Races.OneTokenTwoSessions` | services/identity/src/modules/auth/services/RefreshTokenService.ts:52-105 | two overlapping refreshes with one acceptable token both succeed and leave two unrevoked successors |
| `Races.StaleLoginUndoesLock` | services/identity/src/modules/auth/services/LoginService.ts:49-58 | a right login that loaded the user before the fifth wrong one stores over the lock and the count |
| `Races.ExpiringResetKeepsSessions` | services/identity/src/modules/auth/services/ResetPasswordService.ts:35-68 | a reset that passes its checks changes the password, however long hashing and storing take; it then stops with no session revoked and the token still stored iff the token expired meanwhile |
| `Races.UnexpiredResetCompletes` | services/identity/src/modules/auth/services/ResetPasswordService.ts:50-68 | a slow reset whose token is still good when it is marked does what an atomic reset at that later time does, sessions active by then included |
| `Sequential.RunsWithoutOverlapAreSequential` | services/identity/src/modules/auth/services/RefreshTokenService.ts:21-119 | serving any sequential run request by request in the interleaved model is permitted and ends with that run's tables and clock |
| `Sequential.EventHasScript` | services/identity/src/modules/auth/repositories/PrismaDeviceSessionRepository.ts:23-34 | the query of a reset always has an answer, so every sequential run can be served that way |
| `RaceConditions.ActKeepsLock` | services/identity/src/core/domain/User.ts:71-83 | if no login, reset or verification in flight holds an unlocked copy of a locked user, no action unlocks it or makes such a copy |
| `RaceConditions.LockLostIffUnlockedCopyHeld` | services/identity/src/modules/auth/services/VerifyEmailService.ts:36-42 | from any reachable state some interleaving unlocks a locked user iff a login, a reset or an email verification in flight holds an unlocked copy of it |
| `SingleUse.RunsStartNoRotation` | services/identity/src/modules/auth/services/RefreshTokenService.ts:35-105 | if no refresh that may still rotate a revoked session is in flight, no run ever issues a successor for it |
| `SingleUse.RotatedAgainIffInFlight` | services/identity/src/modules/auth/services/RefreshTokenService.ts:35-105 | from any reachable state a revoked session can be rotated iff a refresh in flight loaded it and its user passes or may come to pass the lock check; then some run stores an unrevoked successor, and otherwise none issues one |
| `ResetRaces.ResetLoopRevokesListed` | services/identity/src/modules/auth/services/ResetPasswordService.ts:58-68 | in every interleaving each session active when the reset listed them is revoked or still due in its loop, so revoked once the loop has ended |
| `ResetRaces.PasswordReplacedIffOtherHeld` | services/identity/src/modules/auth/services/VerifyEmailService.ts:36-42 | from any reachable state some run without another reset of the user replaces its password iff a login or an email verification in flight holds a copy with another one |
| `RateLimit.RedisRateLimitService.IncrementAttempts` | services/identity/src/infrastructure/redis/RedisRateLimitService.ts:8-32 | counts on the key, sets the expiry only when there is none, touches no other key and returns the count |
| `RateLimit.RedisRateLimitService.ResetAttempts` | services/identity/src/infrastructure/redis/RedisRateLimitService.ts:34-42 | removes the key and no other |
| `RateLimit.RedisRateLimitService.GetAttempts` | services/identity/src/infrastructure/redis/RedisRateLimitService.ts:44-53 | the count of a live key, else zero |
| `RateLimit.KeysAreIndependent` | services/identity/src/infrastructure/redis/RedisRateLimitService.ts:8-42 | what a run of calls makes of a key is what that key's own calls make of it |
| `RateLimit.AttemptCountsItsWindow` | services/identity/src/infrastructure/redis/RedisRateLimitService.ts:8-32 | each attempt returns the number of attempts since its window opened, and the entry expires the opener's time to live after the opening, whatever followed |
| `RateLimit.AttemptsAmongOtherKeys` | services/identity/src/infrastructure/redis/RedisRateLimitService.ts:8-32 | the same from an empty store among calls on any number of keys |
| `RateLimit.InterleavedCallsOweExpiry` | services/identity/src/infrastructure/redis/RedisRateLimitService.ts:14-24 | however calls and resets interleave, without crashes every key without expiry has a call in flight that will set one |
| `RateLimit.QuiescentKeysExpire` | services/identity/src/infrastructure/redis/RedisRateLimitService.ts:22-24 | when no call is in flight every key has an expiry |
| `RateLimit.SettledWindowCounts` | services/identity/src/infrastructure/redis/RedisRateLimitService.ts:8-32 | while a key has an expiry and no call in flight is due to set one, calls may interleave and crash: until then the count rises by one per call and the expiry stays |
| `RateLimit.ExpiryMovesIffDue` | services/identity/src/infrastructure/redis/RedisRateLimitService.ts:14-24 | the expiry of a window can move without a reset iff a call in flight is due to set one |
| `RateLimit.OverlappingCallsMoveExpiry` | services/identity/src/infrastructure/redis/RedisRateLimitService.ts:14-24 | of two overlapping first calls the later one to set the expiry moves the end of the window |
| `RateLimit.CrashLosesExpiry` | services/identity/src/infrastructure/redis/RedisRateLimitService.ts:14-24 | a crash between the two steps leaves a key without expiry that no call in flight owes one |
| `RateLimit.CrashKeepsExpiryOwedIff` | services/identity/src/infrastructure/redis/RedisRateLimitService.ts:14-24 | a crash leaves some key without an expiry owed to it iff the crashed call was due on a key without expiry and no other call was |
| `RateLimit.OnlySoleDebtorsLoseExpiry` | services/identity/src/infrastructure/redis/RedisRateLimitService.ts:14-24 | over any run, crashes included, every key without expiry stays owed one unless such a call crashes |
| `RateLimit.NextCallRestoresExpiry` | services/identity/src/infrastructure/redis/RedisRateLimitService.ts:22-24 | a call for a key without expiry counts it on and gives it one, or removes it for a time to live that is not positive |
| `Blacklist.RedisTokenBlacklistService.BlacklistToken` | services/identity/src/infrastructure/redis/RedisTokenBlacklistService.ts:12-21 | writes the entry with the given time to live and touches no other key, or passes on the store's refusal of one that is not positive |
| `Blacklist.RedisTokenBlacklistService.IsBlacklisted` | services/identity/src/infrastructure/redis/RedisTokenBlacklistService.ts:23-33 | true iff the entry is live |
| `Blacklist.RedisTokenBlacklistService.Remove` | services/identity/src/infrastructure/redis/RedisTokenBlacklistService.ts:35-44 | removes the entry and no other |
| `Blacklist.EntryIsLastWrite` | services/identity/src/modules/auth/services/LogoutService.ts:30-35 | after any run of logouts an entry exists iff one wrote it, and expires at the last writer's `exp` plus the milliseconds its clock rounded away |
| `Blacklist.EntryLifetimeIsTight` | services/identity/src/modules/auth/services/LogoutService.ts:31-33 | an entry expires in the second that starts at its token's `exp` |
| `Blacklist.LoggedOutTokenIsDeadIff` | services/identity/src/modules/auth/services/LogoutService.ts:22-35 | after any run of logouts, a token one of them presented is blacklisted or expired at every instant iff it has expired by then or the last logout to write its jti carried an `exp` no earlier |
| `Blacklist.GenuineTokenIsDead` | services/identity/src/modules/auth/services/LogoutService.ts:30-35 | if every logout with the jti presents the one token, repeatedly perhaps, it is blacklisted or expired at every later instant, and not blacklisted a second past its expiry |
| `Blacklist.OtherTokenShortensEntry` | services/identity/src/modules/auth/services/LogoutService.ts:22-35 | a concrete second logout with the same jti and an earlier `exp` leaves the first token neither blacklisted nor expired |
| `Blacklist.OnlyLoggedOutTokensAreBlacklisted` | services/identity/src/infrastructure/redis/RedisTokenBlacklistService.ts:8-33 | a blacklisted token was written by some logout |
| `GatewayRetry.BackoffTotal` | services/gateway/src/middlewares/resilience.ts:74 | k doubling delays add up to the base times 2^k - 1 |
| `GatewayRetry.StopIsUnique` | services/gateway/src/middlewares/resilience.ts:48-64 | the outcomes and the limit admit one stopping point |
| `GatewayRetry.FatalMustStop` | services/gateway/src/middlewares/resilience.ts:53-66 | the error tests of the loop are exactly those conditions, with "includes" read as a split of the message |
| `GatewayRetry.ExecuteWithRetry` | services/gateway/src/middlewares/resilience.ts:43-86 | GET, HEAD and OPTIONS fire at most `retryCount` + 1 times and other verbs once; nothing is fired after a success, an error of kind open or system-overload, a message around "Bulkhead" or headers sent, and a fire is the last only then or when the retries are used up; returns iff the last succeeded, else throws its error; total wait in closed form |
| `LogMasking.MaskSensitiveData` | services/identity/src/observability/logger.ts:20-39 | the recursive loops compute the mask of every tree |
| `LogMasking.SensitiveIsHidden` | services/identity/src/observability/logger.ts:5-18 | a key is sensitive iff it spells one of the twelve names, letter by letter in either case, the Kelvin sign counting as a k |
| `LogMasking.FieldMasked` | services/identity/src/observability/logger.ts:29-36 | a field with such a key becomes "[REDACTED]", one named `__proto__` is dropped, any other keeps its key with its value masked |
| `LogMasking.MaskSameIffAlike` | services/identity/src/observability/logger.ts:20-39 | two trees mask alike iff they differ only beneath sensitive keys and in dropped fields |
| `LogMasking.MaskedIsClean` | services/identity/src/observability/logger.ts:29-38 | in a masked tree every sensitive field at any depth is redacted |
| `LogMasking.MaskFixesClean` | services/identity/src/observability/logger.ts:20-39 | masking leaves a tree as it is iff every sensitive field is redacted already and no field is one it drops |
| `LogMasking.MaskIdempotent` | services/identity/src/observability/logger.ts:20-39 | masking twice is masking once |
| `LogMasking.MaskKeepsShape` | services/identity/src/observability/logger.ts:20-39 | at every depth a masked tree has the lists, keys and unhidden values of the original |
| `LogMasking.MaskKeepsKeys` | services/identity/src/observability/logger.ts:29-36 | keys keep their order, and are all kept iff none is `__proto__` |

## Left out

- Controllers, validators, middleware, error-to-status mapping, swagger, health, metrics and configuration parsing: wiring without rules of its own.
- Registration, which adds a user under a new id and address, and the services that send out reset and verification tokens, which add a token under a random digest.
- Dispatching of domain events and their IP address and user agent, also as session columns: services drop some events by design of their control flow, so no completeness holds. Which events the aggregates record is modelled.
- Access-token contents, key management and signing; `isBlacklisted` guarding requests, as no service or middleware calls it.
- The roles and permissions that login and refresh put into their tokens: the resolver is modelled by itself, in one state of the role tables and across several.
- `PrismaRoleRepository.update`, `PrismaDeviceSessionRepository.revokeSession` and `revokeAllForUser`, `DeviceSession.rotateToken`: no service calls them. With `update` a cycle of roles could be stored; resolution is proved for cyclic tables too.
- Role descriptions, the system-role flag, timestamps, user-role rows and the creation of permission rows; deletion of users, which cascades to their sessions.
- Foreign keys from sessions and reset tokens to users.
- The password policy's verdict, which the reset service discards.
- InterleavingKeepsSafety: a database read and the check right after it are one action, so time does not pass between them; a request that stops at a check after a delay is one that takes no further action. Marking a token as used is an action of its own. Requests that fail before their first read are not included, as they touch no table.
- LockedIffFiveInARow: starts from an unlocked user with no failed attempts and has no `unlock`, which no service calls.
- LoggedOutTokenIsDeadIff: says nothing about a process that dies between reading the clock and setting the entry.
- ExecuteWithRetry: delays are those asked of the timer, over integers; loss of precision in `Math.pow`, timer overflow and a `NaN` retry count are not modelled, nor is the breaker's own state, which is the outcome oracle.
- MaskSensitiveData: records are finite trees of own string keys; cyclic objects, symbol keys and class instances are not modelled. Lower-casing is exact for characters whose lower case is one ASCII character, which is all the comparison with the key list depends on.
- Redis failures: an error from the store is rethrown by every method of both services.
