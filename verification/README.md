# Nest Nexus: models and proofs of the stateful services

This project models the state-changing protocols of the Nest Nexus backend as state machines over
in-memory tables, and proves what they keep over whole runs. `dafny verify dfyconfig.toml` checks
all of it (Dafny 4.11).

| files | what they model |
|---|---|
| `TokenModel`, `TokenInvariant`, `TokenAccounts`, `TokenRuns`, `TokenPruning`, `TokenInterleaving`, `TokenService` | refresh-token families: issue, rotation, reuse detection, revocation, pruning (the rotation of section 4.14.2 of RFC 9700) |
| `Durations` | expiry strings, and the token's clock (`exp`, section 4.1.4 of RFC 7519) against the row's |
| `SessionListing` | the listing of device sessions |
| `Access`, `DocumentModel`, `DocumentRoutes`, `Paging`, `DocumentService` | document authorization: roles, tuples, policy, central decision, guards, list filter, paging |
| `StatusCache` | the per-process cache of active flag and roles |
| `LeaseLock` | the Redis lease lock |
| `RoleManagement`, `UsersCache` | role changes under serializable transactions; the shared profile cache and its invalidation |
| `LoginThrottle`, `BackupCodes`, `HtmlEscape` | failed-login lockout, two-factor backup codes, HTML escaping |
| `Wrappers`, `Collections`, `Roles` | the option type; lists without repetition; role names |

Services that change rows are classes whose methods state the whole new state as a function of the
old one; the lemmas about runs are about those functions. Decisions that only read are functions.

## What is assumed

- Clock readings, random identifiers and query results come in as parameters. Clocks do not go
  back. A UUID differs from every UUID drawn before. A query without an order returns its rows in
  any order; one with a `take` returns as many matching rows as there are, up to it, any of them.
- SHA-256 is injective; a refresh token verifies only if it was issued, and until its `exp`.
- Role changes commit serializably: in some order, not necessarily that of the commits.
- A step without interference is one request. `TokenInterleaving`, `StatusCache`, `LeaseLock`,
  `RoleManagement` and `UsersCache` split requests where they wait.
- Creating a document and granting its owner tuple is one step; so is finding one and granting.

## Where a promise holds only under a condition

Each of these has a lemma with a run or an input that breaks it, or an exact condition.

- A live token is accepted under every lookup exactly if its family has at most 50 rows; past
  that the lookup may miss the row, and the token counts as reused (`AlwaysAcceptedIff`).
- Up to the next look-up, interleaving can give a family two live rows exactly if it has two now,
  two of its rotations are viable (past the mark, or with the row they looked up still there), or a
  viable one leaves a live row that is not its own (`NeverForksIff`); only a look-up that finds a
  live row beside a viable rotation brings this about (`LookUpSafeIff`, `ConcurrentRotationsFork`).
- A revocation is final exactly if no rotation of the family is between its mark and its store
  (`RevocationIsFinalIff`). A replay handled as one step always ends the family.
- The row outlives its token exactly if its lifetime is at most a millisecond shorter
  (`RowOutlivesTokenIff`). An expiry setting the row parser does not understand falls back to
  seven days for the row only, which is sound exactly up to seven days (`FallbackIsSoundIff`).
  Collections are invisible exactly if lifetimes are sound (`InvisibleIffSound`); family structure,
  reuse detection, the row bound and acceptance are proved for every setting.
- Pages list each readable document once exactly if no two neighbours across a page boundary were
  created at the same instant (`PagingCompleteIff`).
- The last super admin cannot be demoted while commits are serializable; without isolation one is
  sure to be left exactly if not all are about to be demoted (`OneIsLeftIff`). The last one can be
  deactivated; an active one remains exactly if there is another (`ActiveSuperAdminLeftIff`).
- A cache fill that overlaps a write of its key can leave a stale entry (`OverlapLeavesStale`);
  coherence lasts exactly if every fill under way is fresh (`CoherentIffFillsFresh`).
- A section under the lock stays alone exactly until its deadline (`AloneUntilIff`).
- Every live family is listed exactly if there are at most 100 (`OneSessionPerFamily`).
- A backup code can be typed without hex digits, with a ligature whose upper case is `FF`
  (`LigaturesRead`).
- The Readme says refresh tokens are stored as bcrypt hashes (`Readme.md:203`); the code hashes
  with SHA-256 (`src/modules/auth/token.service.ts:139-141`), and the model follows the code.

## Model

| member | source | states |
|---|---|---|
| `TokenRuns.AcceptedIff` | src/modules/auth/token.service.ts:49-109 | over any run from empty tables and for every expiry setting, a token handed out is later accepted if and only if its lifetime is not over, its user has not been deactivated since registering, and in between nobody revoked the user or the device nor effectively presented a token of the family, nor was its row collected after expiring; while fewer than 50 rotations went unpruned |
| `TokenAccounts.DeactivatedGetsNothing` | src/modules/auth/token.service.ts:63-70 | after a registered user's deactivation no later login and no later token of that user hands out anything or changes a table, and a token in its lifetime is answered as inactive |
| `TokenAccounts.InactiveIff` | src/modules/auth/token.service.ts:63-70 | over any run that is the answer exactly to a token handed out before, in its lifetime, whose user is not registered and undeactivated |
| `TokenAccounts.LoginOfActive` | src/modules/auth/token.service.ts:210-251 | a registered, undeactivated user gets at every login a token of the configured lifetime, on one new row in a new family on a new device |
| `TokenAccounts.ForgedOrExpired` | src/modules/auth/token.service.ts:54-61 | a token never handed out, or past its lifetime, is refused and changes nothing |
| `TokenAccounts.IssuedWereHanded` | src/modules/auth/token.service.ts:222-226 | the tokens that verify are those handed out in the run |
| `TokenRuns.CollectionsEndNothing` | src/modules/auth/token.service.ts:223-230 | with sound lifetimes no collection ends a session whose token still verifies |
| `TokenRuns.ReuseKillsFamily` | src/modules/auth/token.service.ts:72-94 | over any run, for every expiry setting, a token rotated once and presented again while it verifies is refused, whatever the lookup returns, and leaves its family without rows for the rest of the run |
| `TokenRuns.DeadStaysDead` | src/modules/auth/token.service.ts:80-85 | a family without rows never gets one again and every later token of it is refused |
| `TokenRuns.AlwaysAcceptedIff` | src/modules/auth/token.service.ts:72-78 | a live, verifying token is accepted under every possible lookup if and only if its family has at most 50 rows |
| `TokenRuns.AcceptedNow` | src/modules/auth/token.service.ts:77-94 | at one instant, rotation happens exactly for an issued, unexpired token whose user's active flag is set and whose live row the lookup returned |
| `TokenRuns.RotationSpends` | src/modules/auth/token.service.ts:96-105 | accepting a token leaves no live row that stores it |
| `TokenRuns.SpentForever` | src/modules/auth/token.service.ts:87-108 | a token without a live row never gets one again |
| `TokenRuns.SpentKillsFamily` | src/modules/auth/token.service.ts:80-94 | presenting such a token while it verifies is refused and empties its family |
| `TokenRuns.SessionIffUndisturbed` | src/modules/auth/token.service.ts:96-126 | along any run a token's live row is there at the end exactly if no step ended the session: a revocation, a token of the family, or a collection after the row expired |
| `TokenRuns.FamilyBounded` | src/modules/auth/token.service.ts:119-126 | a family has at most one row more than the rotations since the last prune of its user |
| `TokenRuns.RevokeDeviceEndsOneFamily` | src/modules/auth/token.service.ts:196-198 | signing out a device removes exactly the rows of one family |
| `TokenRuns.RevokeDeviceKeepsAnswers` | src/modules/auth/token.service.ts:196-198 | and changes no lookup and no answer about a token of another family |
| `TokenInvariant.ReachableInv` | src/modules/auth/token.service.ts:210-251 | the table invariant holds after every run from empty tables, for every expiry setting |
| `TokenInvariant.FamilyStructure` | src/modules/auth/token.service.ts:101-105 | rows of a family share user, device and agent, families have different devices, jtis are unique, at most one row is live |
| `TokenInvariant.StepKeepsInv` | src/modules/auth/token.service.ts:96-126 | every step keeps the table invariant, for every expiry setting |
| `TokenInvariant.RunKeepsExpiries` | src/modules/auth/token.service.ts:223-230 | with sound lifetimes every row lives as long as its token, along every run |
| `TokenPruning.CollectionIsInvisible` | src/core/scheduler/jobs/cleanup.scheduler.ts:25-29 | with sound lifetimes two runs with the same requests and different prunes and clean-ups hand out the same tokens, refuse the same ones and end with the same unexpired live rows, families within 50 rows |
| `TokenPruning.InvisibleIffSound` | src/modules/auth/token.service.ts:119-126 | that holds of every pair of runs if and only if the lifetimes are sound |
| `TokenPruning.Simulation` | src/modules/auth/token.service.ts:119-126 | the same from any related states: the simulation over all steps |
| `TokenPruning.DecisionsAlike` | src/modules/auth/token.service.ts:72-94 | a side that has pruned rotates the same row as one that has not |
| `TokenInterleaving.OneLiveRowUnderInterleaving` | src/modules/auth/token.service.ts:72-108 | with rotation split into its statements and interleaved with everything else, no family has two live rows while none has two viable rotations |
| `TokenInterleaving.NeverForksIff` | src/modules/auth/token.service.ts:72-105 | up to the next look-up no interleaving gives a family two live rows if and only if none has two now, no two viable rotations share a family, and a viable rotation's family has no live row but the one it will mark |
| `TokenInterleaving.LookUpSafeIff` | src/modules/auth/token.service.ts:72-78 | a look-up keeps that so exactly if it finds no live row of a family with a viable rotation |
| `TokenInterleaving.NextSafe` | src/modules/auth/token.service.ts:96-105 | every other statement keeps it so |
| `TokenInterleaving.RevokedBeforeMark` | src/modules/auth/token.service.ts:96-99 | a revocation that lands before the mark makes the rotation fail without storing a row |
| `TokenInterleaving.RevocationIsFinalIff` | src/modules/auth/token.service.ts:96-117 | an emptied family stays empty under every continuation if and only if no rotation of it was past its mark |
| `TokenInterleaving.UndisturbedIsAtomic` | src/modules/auth/token.service.ts:49-109 | the split statements, run without interference, have exactly the effect of the atomic step |
| `TokenInterleaving.ConcurrentRotationsFork` | src/modules/auth/token.service.ts:72-105 | a run in which one token presented twice at once leaves two live rows |
| `TokenServices.TokenService.RotateRefreshToken` | src/modules/auth/token.service.ts:49-109 | the new tables and the outcome, with the error of each refusal |
| `TokenServices.TokenService.GenerateRefreshToken` | src/modules/auth/token.service.ts:210-251 | the stored row and the token, for a new family or an existing one |
| `TokenServices.TokenService.RevokeAllTokens` | src/modules/auth/token.service.ts:111-113 | removes the user's rows and nothing else |
| `TokenServices.TokenService.RevokeTokenFamily` | src/modules/auth/token.service.ts:115-117 | removes the family's rows and nothing else |
| `TokenServices.TokenService.RevokeDeviceSession` | src/modules/auth/token.service.ts:196-198 | removes the device's rows and nothing else |
| `TokenServices.TokenService.PruneExpiredTokens` | src/modules/auth/token.service.ts:119-126 | removes the user's expired or revoked rows and nothing else |
| `TokenServices.TokenService.PurgeExpiredTokens` | src/core/scheduler/jobs/cleanup.scheduler.ts:25-29 | removes every expired or revoked row and nothing else |
| `TokenServices.TokenService.GetCurrentDeviceId` | src/modules/auth/token.service.ts:202-208 | the device of the user's row that stores the presented token, none if there is no such row |
| `TokenServices.TokenService.ListDeviceSessions` | src/modules/auth/token.service.ts:158-194 | one session per device of the rows found, made from its most recently used row |
| `SessionListing.NewestPerDevice` | src/modules/auth/token.service.ts:174-184 | for rows in any order, keeps per device seen the first of its most recently used rows, devices in order of appearance |
| `SessionListing.SessionShows` | src/modules/auth/token.service.ts:186-193 | a listed session shows a row found on its device than which none there was used later |
| `SessionListing.OneSessionPerFamily` | src/modules/auth/token.service.ts:163-194 | in reachable states every row found is a session of its own, made from its family's live row, and every live family has one if and only if they are at most 100 |
| `SessionListing.CurrentSession` | src/modules/auth/token.service.ts:192-208 | exactly the session of the presented live token's family is flagged as current |
| `Durations.DurationRoundTrip` | src/common/utils/duration.util.ts:9-14 | a printed number and a unit letter set an expiry that many units ahead |
| `Durations.OtherwiseFallback` | src/common/utils/duration.util.ts:10-11 | every other string sets the fallback |
| `Durations.RowOutlivesTokenIff` | src/modules/auth/token.service.ts:223-230 | a row is never prunable while its token verifies if and only if its lifetime is at most one millisecond shorter |
| `Durations.DurationIsSound` | src/modules/auth/token.service.ts:143-146 | digits and a unit letter give such lifetimes |
| `Durations.FallbackIsSoundIff` | src/common/utils/duration.util.ts:10-11 | any other string does exactly if the token library reads it as seven days at most |
| `Durations.ThirtyDaysUnsound` | src/common/utils/duration.util.ts:9-14 | "30 days" is a string whose rows may be pruned while their tokens verify |
| `Access.FilterRefinesDecision` | src/modules/authorization/authorization.service.ts:89-104 | the list filter selects a document if and only if the central decision allows reading it |
| `Access.NoFilterIff` | src/modules/authorization/authorization.service.ts:92-92 | there is no filter exactly if the user could read no document at all |
| `Access.CheckIff` | src/modules/authorization/rebac/relation.service.ts:60-100 | a required relation is held exactly by a tuple of it or of a stronger one |
| `Access.ScopesByRole` | src/modules/authorization/rbac/role-permissions.map.ts:8-23 | which named roles grant which scopes; unknown ones grant none |
| `DocumentModel.OneOwnerTuple` | src/modules/document/document.service.ts:35-46 | in every reachable state a document has exactly one owner tuple, its ownerId's, and a missing document none |
| `DocumentModel.HandleKeepsInv` | src/modules/document/document.service.ts:93-127 | every request keeps the owner tuples |
| `DocumentModel.GuardsAgree` | src/modules/document/document.controller.ts:86-129 | in every reachable state the stacked guards of update and delete pass if and only if the central decision allows it, and exactly for a super admin, or a known role with the owner's id or, for update, an editor tuple; sharing goes by the delete condition |
| `DocumentModel.PreviewImpliesRead` | src/common/guards/policy.guard.ts:33-65 | what the preview guards let through the central decision lets through, and the document is returned |
| `DocumentModel.DeniedLooksMissing` | src/modules/document/document.service.ts:69-75 | every request about a document the user may not read is answered as if the document did not exist, and leaves the same tables but for it |
| `DocumentModel.NoEnumeration` | src/modules/document/document.service.ts:65-75 | so is every sequence of requests by that user |
| `Paging.HiddenFromList` | src/modules/document/document.service.ts:53-63 | and the list is the one without the document |
| `DocumentModel.ReadershipControl` | src/modules/document/document.service.ts:80-127 | over a run in which neither the owner nor a super admin acts, the document stays and exactly the same subjects may read it |
| `DocumentModel.OnlyWritersEdit` | src/modules/document/document.controller.ts:86-97 | in every reachable state a document changes only at the hands of a super admin, its owner or the holder of an editor tuple, and its visibility changes and it goes only at the hands of the first two |
| `DocumentRoutes.DecisionIff` | src/modules/authorization/authorization.service.ts:46-78 | the central decision in every reachable state, told by named roles, owner, visibility and tuples |
| `DocumentRoutes.UpdateIff` | src/modules/document/document.service.ts:77-91 | exactly whose updates are made, with what result and refusal |
| `DocumentRoutes.RemoveIff` | src/modules/document/document.service.ts:93-102 | exactly who removes a document, and what goes |
| `DocumentRoutes.ShareIff` | src/modules/document/document.service.ts:104-116 | exactly who shares, with whom, and each refusal |
| `DocumentRoutes.UnshareIff` | src/modules/document/document.service.ts:118-127 | exactly who unshares, and each refusal |
| `DocumentRoutes.CreateIff` | src/modules/document/document.service.ts:33-46 | exactly who creates, and what is stored |
| `DocumentRoutes.FindOneIff` | src/modules/document/document.service.ts:65-75 | exactly who is shown a document, and who is told it is missing |
| `DocumentRoutes.PreviewIff` | src/modules/document/document.controller.ts:75-83 | exactly who is shown a preview: shares do not count |
| `DocumentModel.ShareEffect` | src/modules/document/document.service.ts:107-116 | a share adds exactly the named subject to the readers of exactly the named document |
| `DocumentModel.UnshareEffect` | src/modules/document/document.service.ts:118-121 | an unshare touches only the named subject and document, and that subject goes on reading exactly if no share is needed or the other relation is held |
| `DocumentModel.UnshareUndoesShare` | src/modules/authorization/rebac/relation.service.ts:26-57 | unsharing what was newly shared restores the tables |
| `Paging.PagingCompleteIff` | src/modules/document/document.service.ts:53-63 | pages list each row once, newest first, however ties are broken in each query, if and only if no tie lies across a page boundary |
| `Paging.DistinctTimesPage` | src/modules/document/document.service.ts:56-61 | with distinct creation times the pages concatenate to the one sorted list |
| `Paging.ListIsReadableSet` | src/modules/document/document.service.ts:53-63 | the pages hold exactly the documents the decision lets the user read |
| `DocumentServices.DocumentService.Create` | src/modules/document/document.service.ts:35-46 | the stored and returned document, private unless said otherwise, and its owner tuple |
| `DocumentServices.DocumentService.FindAll` | src/modules/document/document.service.ts:53-63 | the page of the listing, every document on it readable |
| `DocumentServices.DocumentService.FindOne` | src/modules/document/document.service.ts:69-75 | the document, or missing |
| `DocumentServices.DocumentService.Update` | src/modules/document/document.service.ts:80-91 | the changed document stored and returned, or the refusal, visibility only for owner or super admin |
| `DocumentServices.DocumentService.Remove` | src/modules/document/document.service.ts:93-102 | document and tuples removed together |
| `DocumentServices.DocumentService.Share` | src/modules/document/document.service.ts:107-116 | the new tuple, or the refusal |
| `DocumentServices.DocumentService.Unshare` | src/modules/document/document.service.ts:118-121 | the tuple removed, or the refusal |
| `DocumentServices.DocumentService.Grant` | src/modules/authorization/rebac/relation.service.ts:26-45 | granting is idempotent and adds one tuple |
| `DocumentServices.DocumentService.Revoke` | src/modules/authorization/rebac/relation.service.ts:47-57 | removes one tuple and says whether it was there |
| `StatusCache.BoundedStaleness` | src/modules/auth/strategies/jwt.strategy.ts:41-67 | under any interleaving of validations, writes and invalidations, every answer was the database's at an instant later than 30 seconds before the request began |
| `StatusCache.DeactivatedIsRefused` | src/modules/auth/strategies/jwt.strategy.ts:50-62 | once every write that made a user active has been replaced by t, every request of the user begun 30 seconds later is refused |
| `StatusCache.AdmittedByActiveRow` | src/modules/auth/strategies/jwt.strategy.ts:50-67 | an answer that lets a user in carries the roles of a logged active row of the user that nothing had replaced 30 seconds before the request began |
| `StatusCache.AnswersComeFromLog` | src/modules/auth/strategies/jwt.strategy.ts:41-67 | every answer, also a refusal, goes back to such a write, or to there being none |
| `StatusCache.MissReadsLastWrite` | src/modules/auth/strategies/jwt.strategy.ts:50-67 | a request that misses and is undisturbed is answered by the user's last write |
| `StatusCache.FreshAfterInvalidation` | src/modules/auth/strategies/jwt.strategy.ts:86-90 | after an invalidation that finds no read of the user in flight no answer goes back to a write replaced before it |
| `StatusCache.ServedFromCache` | src/modules/auth/strategies/jwt.strategy.ts:41-48 | for 30 seconds later requests get a cached answer without a read, until an invalidation or another fill |
| `StatusCache.LogIsSaves` | src/modules/auth/strategies/jwt.strategy.ts:50-53 | the log is the writes of the run, each with its time |
| `StatusCache.SweepChangesNoAnswer` | src/modules/auth/strategies/jwt.strategy.ts:74-79 | over a whole run the size-triggered sweep changes no answer |
| `StatusCache.SweepIsInvisible` | src/modules/auth/strategies/jwt.strategy.ts:76-78 | it removes only expired entries, and no later look-up can tell |
| `StatusCache.JwtStrategy.BeginValidate` | src/modules/auth/strategies/jwt.strategy.ts:41-48 | a hit is answered with the cached status, in a fresh array |
| `StatusCache.JwtStrategy.CompleteValidate` | src/modules/auth/strategies/jwt.strategy.ts:50-67 | the user is let in exactly by an active row, with its roles in an array the cache does not hold; the cache is filled and swept |
| `StatusCache.JwtStrategy.SetCacheEntry` | src/modules/auth/strategies/jwt.strategy.ts:69-80 | the entry is stored and the cache swept if it has grown too large |
| `StatusCache.JwtStrategy.Sweep` | src/modules/auth/strategies/jwt.strategy.ts:75-78 | exactly the expired entries are gone |
| `StatusCache.JwtStrategy.OnUserChanged` | src/modules/auth/strategies/jwt.strategy.ts:86-90 | the user's entry is gone and no other |
| `LeaseLock.MutualExclusion` | src/core/scheduler/redis-lock.service.ts:24-28 | at any time at most one section per key runs within its lease |
| `LeaseLock.NoOverlap` | src/core/scheduler/redis-lock.service.ts:37-49 | if every section ends within its lease, sections on one key never overlap |
| `LeaseLock.AloneUntilIff` | src/core/scheduler/redis-lock.service.ts:22-28 | a section running alone within its lease is bound to stay alone up to a time, however late it ends, if and only if that time is before its deadline |
| `LeaseLock.OverlapPastDeadline` | src/core/scheduler/redis-lock.service.ts:37-49 | a section that outlives its lease can overlap the next |
| `LeaseLock.StaleReleaseHarmless` | src/core/scheduler/redis-lock.service.ts:8-14 | a late release removes no other holder's lock |
| `LeaseLock.AcquireIff` | src/core/scheduler/redis-lock.service.ts:24-28 | acquiring succeeds exactly if no unexpired value is stored, and stores the token until the end of the lease |
| `LeaseLock.ReleaseFrees` | src/core/scheduler/redis-lock.service.ts:8-14 | after a release the next attempt succeeds if and only if no other job's unexpired value is stored; at once after the holder's own |
| `LeaseLock.JobLeavesKeyFree` | src/core/scheduler/redis-lock.service.ts:37-49 | an undisturbed job takes a free key, holds it through its section and leaves it free, other keys untouched |
| `LeaseLock.CrashBlocksForLease` | src/core/scheduler/redis-lock.service.ts:22-24 | after a crash the first attempt not made before the deadline succeeds and every earlier one fails, whatever else happens |
| `LeaseLock.RedisLockService.Acquire` | src/core/scheduler/redis-lock.service.ts:24-28 | the store after set-if-absent, and the token if it was set |
| `LeaseLock.RedisLockService.Release` | src/core/scheduler/redis-lock.service.ts:31-33 | the key is free if the token was the stored one, and another's value stays |
| `LeaseLock.RedisLockService.WithLock` | src/core/scheduler/redis-lock.service.ts:37-49 | skipped without effect if the lock is held; otherwise the section's value or error, and the key free if its own token was still stored, either way |
| `RoleManagement.LastSuperAdminStays` | src/modules/users/users.service.ts:81-111 | once there is a super admin, every later state has one, however transactions, registrations and deactivations interleave, if what is committed is serializable in any order |
| `RoleManagement.ValidatedIsSerializable` | src/modules/users/users.service.ts:82-86 | runs in which every transaction commits while what it read is still so are serializable |
| `RoleManagement.OneIsLeftIff` | src/modules/users/users.service.ts:82-86 | with no isolation a super admin is sure to be left, up to the next check, if and only if one is not about to be demoted |
| `RoleManagement.AloneReplacesRoles` | src/modules/users/users.service.ts:81-111 | a change of roles left alone is refused exactly for a missing user or the only super admin losing the role, and otherwise replaces the roles of that user only |
| `RoleManagement.OnlyAssignedGain` | src/modules/users/users.service.ts:104-104 | nobody becomes a super admin but by a committed change of roles that says so |
| `RoleManagement.WriteSkew` | src/modules/users/users.service.ts:82-86 | without isolation two super admins can demote each other, and no serial order explains that run |
| `RoleManagement.ActiveSuperAdminLeftIff` | src/modules/users/users.service.ts:95-119 | after a deactivation or demotion an active super admin remains if and only if another user is one |
| `RoleManagement.LastSuperAdminCanBeDeactivated` | src/modules/users/users.service.ts:113-119 | deactivating the only super admin leaves none that is active |
| `UsersCache.CacheCoherence` | src/core/cache/cache-invalidation.service.ts:56-82 | if no fill overlaps a write of its key, each cached entry agrees with the table or its invalidation is pending, in every state |
| `UsersCache.CoherentIffFillsFresh` | src/modules/users/users.service.ts:46-59 | a coherent cache stays coherent in every continuation without a further overlap if and only if every fill under way still holds what the table gives |
| `UsersCache.QuiescentCacheIsTable` | src/modules/users/users.service.ts:33-59 | once every invalidation has landed the cache is what the table says |
| `UsersCache.OverlapLeavesStale` | src/modules/users/users.service.ts:46-59 | a fill that overlaps a write leaves a stale entry with no invalidation pending |
| `UsersCache.MissStoresRow` | src/modules/users/users.service.ts:33-59 | a miss left undisturbed stores the user's row or the active users; a missing user is not stored |
| `UsersCache.UsersService.FindAll` | src/modules/users/users.service.ts:33-44 | the cached list, or the active users, then cached |
| `UsersCache.UsersService.FindById` | src/modules/users/users.service.ts:46-59 | the cached profile, or the row, then cached; a missing user is not cached |
| `UsersCache.UsersService.Update` | src/modules/users/users.service.ts:66-72 | the named fields change, a null avatar is cleared, roles and active flag do not change, and both keys are invalidated |
| `UsersCache.UsersService.SetRoles` | src/modules/users/users.service.ts:81-111 | refused exactly for a missing user or the only super admin losing the role; otherwise the roles are replaced and both keys invalidated |
| `UsersCache.UsersService.Deactivate` | src/modules/users/users.service.ts:113-119 | the active flag is cleared and both keys are invalidated |
| `UsersCache.UsersService.Invalidate` | src/core/cache/cache-invalidation.service.ts:56-63 | the key is dropped and one invalidation of it is done |
| `LoginThrottle.ElevenFailuresPause` | src/modules/auth/auth.service.ts:93-112 | among eleven failures with no success between, two neighbours are at least fifteen minutes apart |
| `LoginThrottle.ElevenFailuresSpan` | src/modules/auth/auth.service.ts:43-45 | hence they span at least fifteen minutes |
| `LoginThrottle.CounterBounded` | src/modules/auth/auth.service.ts:94-99 | the counter never exceeds ten, and ten locks until exactly its expiry |
| `LoginThrottle.LockedLeaveNoTrace` | src/modules/auth/auth.service.ts:94-99 | without the attempts refused by the lock, the counter and every other outcome are the same |
| `LoginThrottle.AuthService.Login` | src/modules/auth/auth.service.ts:85-118 | the outcome by count, password and active flag, and the new counter, every other key untouched |
| `LoginThrottle.AnswerIff` | src/modules/auth/auth.service.ts:93-118 | over any run an attempt is refused unheard exactly if the last ten heard were wrong passwords with no pause of fifteen minutes; otherwise it fails exactly on a wrong password and is accepted exactly if the account is active too |
| `LoginThrottle.RightPasswordClears` | src/modules/auth/auth.service.ts:114-114 | after a right password outside the lock it takes ten more attempts to be locked |
| `BackupCodes.CodesAreSingleUse` | src/modules/auth/two-factor/two-factor.service.ts:93-114 | while 2FA stays enabled no hash succeeds twice and at most ten succeed |
| `BackupCodes.RunKeepsInv` | src/modules/auth/two-factor/two-factor.service.ts:50-91 | enabled implies a stored secret, disabled implies no codes, never more than ten codes |
| `BackupCodes.OnlyCodesOpen` | src/modules/auth/two-factor/two-factor.service.ts:76-114 | over any run in which no step brings a valid time-based code or a stored backup code, the account stays protected and its codes stay |
| `BackupCodes.StepOpensIff` | src/modules/auth/two-factor/two-factor.service.ts:50-114 | protection begins exactly with a valid time-based code for a stored secret, and is lifted or passed exactly with such a code or a stored one |
| `BackupCodes.PrintedCodeWorks` | src/modules/auth/two-factor/two-factor.service.ts:63-71 | a printed code works once, however it is typed |
| `BackupCodes.NormalizeIffSpells` | src/modules/auth/two-factor/two-factor.service.ts:127-129 | a code normalises to given hex digits if and only if it spells them, dashes and letter case aside, the ligature of two f's standing for FF |
| `BackupCodes.LigaturesRead` | src/modules/auth/two-factor/two-factor.service.ts:127-129 | eight such ligatures, none a hex digit, are read as sixteen F's |
| `BackupCodes.PrintedCodeNormalizes` | src/modules/auth/two-factor/two-factor.service.ts:116-121 | a printed code has nineteen characters with dashes after every fourth digit, and normalises to its sixteen digits |
| `BackupCodes.HashInputsDistinct` | src/modules/auth/two-factor/two-factor.service.ts:123-125 | hashed inputs coincide only for the same user and code, if user ids have no colon |
| `BackupCodes.HashInputsMeetIff` | src/modules/auth/two-factor/two-factor.service.ts:123-125 | inputs of two different users coincide for some codes if and only if one id and a colon begin the other |
| `BackupCodes.HashCodesMeetIff` | src/modules/auth/two-factor/two-factor.service.ts:123-129 | stored hashes coincide exactly for the same user and codes normalising alike, if user ids have no colon |
| `BackupCodes.TwoFactorService.Enable` | src/modules/auth/two-factor/two-factor.service.ts:50-74 | the refusals, or the account with ten hashed codes |
| `BackupCodes.TwoFactorService.Verify` | src/modules/auth/two-factor/two-factor.service.ts:93-114 | by time-based code, or by a backup code that is then gone |
| `BackupCodes.TwoFactorService.Disable` | src/modules/auth/two-factor/two-factor.service.ts:76-91 | the refusals, or an account without secret and codes |
| `HtmlEscape.EscapeIsOnePass` | src/core/queues/processors/email.processor.ts:23-30 | the five successive replacements equal one pass over the characters |
| `HtmlEscape.EscapeTable` | src/core/queues/processors/email.processor.ts:23-30 | which character becomes which entity |
| `HtmlEscape.EscapedIsInert` | src/core/queues/processors/email.processor.ts:23-30 | the output has none of the four characters and every ampersand starts an entity |
| `HtmlEscape.UnescapeRecovers` | src/core/queues/processors/email.processor.ts:23-30 | unescaping gives the input back, for every string |

## Left out

- Signing, bcrypt, AES-GCM, SHA-256 and time-based code checking: library code; the model takes the assumptions above or a yes-or-no input.
- HTTP, decorators, DTO validation, cookies, mail delivery, queues, logging: plumbing around the modelled decisions.
- Magic links, API keys, WebAuthn, OAuth linking: short read-check-write flows over the same tables.
- `deviceName`: a label derived from the user agent.
- The transport of cache invalidations between instances: only the set still on its way is modelled; dropping a key early is always allowed.
- `create` and its owner grant as two writes: between them the owner has no tuple, and the guards and the decision differ.
- How the database achieves serializable isolation: its promise, some serial order, is assumed of the committed transactions.
- Fields given as null that the database refuses.
- Upper-casing of letters beyond a-z and the one ligature: no other character's upper case is made of hex digits.
- `parseInt` loses digits beyond 2^53; durations are exact numbers here.
- Concurrent logins on one throttle key, which may count one failure for two attempts.
