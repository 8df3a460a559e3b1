# Verification of the task service

A Dafny model of the service's stateful core and proofs of what it keeps, over every run and, where calls
may overlap, every interleaving. `dafny verify dfyconfig.toml` checks everything.

The model is layered. Functions from state to state say what each operation means. Classes with the fields
of the source's objects run the same calls in the same order, loops included, and every method is proved
equal to its function. Theorems about runs are proved on the functions.

| files | what they model |
|---|---|
| `Prelude`, `Text` | optional values, results, time, UUIDs; splitting a text |
| `CacheKeys`, `MemoryCache`, `CacheReads`, `Counter`, `EntryCache` | key families, the in-memory cache, what it answers, its counters; the string store as a store of entries |
| `ListKeys` | the text hashed into the key of a list query |
| `Identity`, `Repositories`, `AuthUseCase`, `UserUseCase` | users, roles, tokens: state functions, then the classes |
| `Accounts`, `UserRoles`, `RoleTheorems` | who can log in and under which roles, told from the steps of a run |
| `Sessions`, `SessionTheorems`, `UserCaching`, `UserAnswers` | the revocation ledger; acceptance, logout, claims; exactness of the user caches and their answers |
| `Tasks`, `TaskUseCase`, `TaskTheorems`, `TaskColumns`, `TaskAnswers`, `TaskEvents`, `TaskStaleness` | tasks: functions, classes, cached copies in runs, stored columns, answers, lost events, and interleaved cache reads and writes |
| `FileNames`, `Attachments`, `AttachmentAnswers`, `AttachmentOverlap`, `AttachmentUseCase` | attachment names and keys; the upload, delete and clean-up saga with failures, call after call and interleaved |
| `Fanout`, `Brokers` | the WebSocket hub and the SSE and GraphQL brokers |
| `EventConsumer` | start and stop of the background consumer |
| `RoleSeed`, `SeedUseCase`, `Rbac` | role seeding in a transaction; authorisation from claims |

Clock readings, generated UUIDs, the validator's verdict, database row order and the outcome of calls that
may fail are parameters. One operation reads the clock once. Passwords stand for their hashes, a token for
its signed text (RFC 7519 claims `sub`, `exp`, `jti`), a cached value for what its JSON decodes to, a list
key for the text that is hashed.

Where code and documentation disagree the model follows the code. Findings stated as lemmas: access tokens
that outlive refresh tokens lapse early; access tokens can be refreshed; deleting a user ends no session;
`Register` leaves stale lists and `ChangePassword` a stale time stamp in cached users; `Expire` and
`Increment` revive expired keys; a bar in a search text, or the overdue filter, can make two queries share
a cache entry; `ChangeStatus` archives open tasks; labels added to a task are never stored and an empty
description cannot be; deleting a user takes or unassigns tasks without touching their cached copies,
their files or the events; a record saved while its task is being deleted can leave an orphaned file; a lost
event can leave a replayed status wrong; two starts failing together can strand a goroutine; seeded
permissions for tasks, users and roles never decide a request.

## Model

| member | source | states |
|---|---|---|
| `SessionTheorems.AcceptedIffUnexpiredAndNotRevoked` | internal/application/usecase/auth/auth_usecase.go:330-353 | in every run, with access tokens living no longer than refresh tokens, ValidateToken accepts a token if and only if it is an issued access token, unexpired, and not in the revocation ledger, which never looks at the cache |
| `SessionTheorems.AcceptedExactly` | internal/application/usecase/auth/auth_usecase.go:330-353 | without that condition on lifetimes: accepted if and only if issued, unexpired, unrevoked and not past the life of its session entry |
| `SessionTheorems.NoLapse` | internal/application/usecase/auth/auth_usecase.go:275-278 | the lifetime condition is what makes the two statements the same |
| `SessionTheorems.LongAccessLapses` | internal/application/usecase/auth/auth_usecase.go:263-279 | with longer access tokens the intended sentence fails: a run in which a fresh, unrevoked token is refused before it expires |
| `SessionTheorems.RefreshedExactly` | internal/application/usecase/auth/auth_usecase.go:194-237 | RefreshToken answers if and only if the token, of either kind, is issued, unexpired, unrevoked, not lapsed, and its user exists; the pair is for that user |
| `SessionTheorems.AccessTokenRefreshes` | internal/application/usecase/auth/auth_usecase.go:194-218 | an accepted access token can be refreshed as well: the kind of token is never asked |
| `SessionTheorems.LogoutEndsPair` | internal/application/usecase/auth/auth_usecase.go:146-191 | after its owner logs out with an access token, at no later point of any run is that token accepted, or it or its paired refresh token refreshed |
| `SessionTheorems.UserWideRevocation` | internal/application/usecase/auth/auth_usecase.go:316 | after a password or role change that succeeds, no token issued to that user before is accepted or refreshed at any later point |
| `SessionTheorems.RevokedForGood` | internal/application/usecase/auth/auth_usecase.go:146-191 | a token once revoked stays revoked along every run |
| `SessionTheorems.IssuedVerifiesUntilExpiry` | internal/infrastructure/auth/jwt/token_service.go:102-131 | whatever happens after a token was issued, it verifies until its own expiry, and from then on is reported expired |
| `SessionTheorems.PairIsNew` | internal/infrastructure/auth/jwt/token_service.go:50-99 | the pair a registration, login or refresh answers with is signed from then on, under two different IDs no earlier token of the run has |
| `SessionTheorems.AcceptedClaimsCurrent` | internal/application/usecase/auth/auth_usecase.go:239-251 | in every run an accepted token carries exactly the role names, role IDs and permissions its user has in the database now, if the user still exists |
| `SessionTheorems.DeletedUserStillAccepted` | internal/application/usecase/user/user_usecase.go:165-192 | deleting a user ends none of the user's sessions: what was accepted just before is accepted just after |
| `SessionTheorems.RunKeeps` | internal/application/usecase/auth/auth_usecase.go:239-282 | the run invariant: tables sound, cache and ledger agree on every token, a gone access session means its refresh token is over, claims current |
| `Sessions.StepKeepsSessions` | internal/application/usecase/auth/auth_usecase.go:63-371 | each of the fourteen steps, from any state where cache and ledger agree, leaves them agreeing |
| `Sessions.StepKeepsClaims` | internal/application/usecase/user/user_usecase.go:322-405 | each step keeps the claims of unrevoked access tokens equal to their users' roles |
| `Sessions.LogoutKeeps` | internal/application/usecase/auth/auth_usecase.go:146-191 | what logging out writes and deletes in the cache is exactly the revocation of the presented token and its mate, for every caller and every token |
| `Sessions.IssueKeeps` | internal/application/usecase/auth/auth_usecase.go:239-282 | issuing a pair under new IDs keeps cache and ledger in agreement |
| `AuthUseCase.AuthService.Register` | internal/application/usecase/auth/auth_usecase.go:63-106 | the calls in order, over repository, cache and token service, give the state and answer of the state function, error by error |
| `AuthUseCase.AuthService.Login` | internal/application/usecase/auth/auth_usecase.go:109-143 | likewise for logging in, whose meaning is Accounts.LoginExactly |
| `AuthUseCase.AuthService.Logout` | internal/application/usecase/auth/auth_usecase.go:146-191 | likewise for logging out |
| `AuthUseCase.AuthService.RefreshToken` | internal/application/usecase/auth/auth_usecase.go:194-237 | likewise for refreshing |
| `AuthUseCase.AuthService.GenerateAuthOutput` | internal/application/usecase/auth/auth_usecase.go:239-282 | claims collected, the pair signed, one session entry under each token ID with the refresh lifetime |
| `AuthUseCase.AuthService.ChangePassword` | internal/application/usecase/auth/auth_usecase.go:285-327 | the row updated and every session of the user dropped, or the error and nothing changed |
| `AuthUseCase.AuthService.ValidateToken` | internal/application/usecase/auth/auth_usecase.go:330-353 | the answer of the state function, the cache untouched |
| `AuthUseCase.AuthService.InvalidateAllUserSessions` | internal/application/usecase/auth/auth_usecase.go:356-366 | prefix deletion on strings drops exactly that user's session entries |
| `AuthUseCase.CollectClaims` | internal/application/usecase/auth/auth_usecase.go:239-251 | the nested loops compute the names, IDs and permission texts of the roles, in order |
| `Repositories.TokenService.ValidateToken` | internal/infrastructure/auth/jwt/token_service.go:102-131 | signed, then unexpired, then not too early; which error otherwise |
| `Repositories.TokenService.ValidateRefreshToken` | internal/infrastructure/auth/jwt/token_service.go:156-182 | the subject of any token that verifies, access tokens included |
| `Repositories.UserRepository.FindByEmail` | internal/infrastructure/database/repository/user_repository.go:91-110 | the one row with that email, if there is one |
| `Repositories.UserRepository.Update` | internal/infrastructure/database/repository/user_repository.go:49-61 | the stored row is the entity with a new time stamp |
| `Repositories.UserEntity.AssignRole` | internal/domain/entity/user.go:108-116 | the role appended once, nothing changed if it was there |
| `Repositories.UserEntity.RemoveRole` | internal/domain/entity/user.go:119-127 | the first role with that ID removed, the rest in order, nothing changed if it was absent; any sequence of such calls is RolesAreAnOrderedSet |
| `Repositories.UserEntity.UpdatePassword` | internal/domain/entity/user.go:72-85 | an empty password refused without change, any other stored |
| `Identity.ExecTables` | internal/application/usecase/auth/auth_usecase.go:63-106 | every step keeps IDs, emails and role names unique and leaves the roles alone |
| `Accounts.LoginExactly` | internal/application/usecase/auth/auth_usecase.go:109-143 | logging in works if and only if the input is valid and some row has this email and this password; the pair names that row's ID, email and roles; otherwise nothing changes and the answer does not tell which was wrong |
| `Accounts.BookExact` | internal/application/usecase/auth/auth_usecase.go:63-327 | in every run the stored users, with email, password, name and role IDs, are those of a book kept from the steps alone: registration, creation, update, password change, deletion and role changes, each refused exactly where the book says |
| `Accounts.LoginByTheBook` | internal/application/usecase/auth/auth_usecase.go:109-143 | so in every run logging in works if and only if the book has an account with that email and password |
| `Accounts.AnsweredByTheBook` | internal/application/usecase/user/user_usecase.go:66-192 | and each of these steps is answered with a yes if and only if the book allows it, the old password of a password change included |
| `Accounts.NewAccountOpens` | internal/application/usecase/auth/auth_usecase.go:63-143 | after a registration or creation that succeeds, until that user is deleted or changes email or password, the email opens with the password given then and with no other text |
| `Accounts.ChangedPasswordOpens` | internal/application/usecase/auth/auth_usecase.go:285-327 | after a password change that succeeds, until the next, only the new password opens the account |
| `Accounts.OnlyItsPassword` | internal/application/usecase/auth/auth_usecase.go:124-126 | exactly one text opens an account of a run, and the pair is for its owner |
| `RoleTheorems.PairListsTheBook` | internal/application/usecase/auth/auth_usecase.go:239-282 | in every run a new pair lists exactly the role IDs the book gives its user, each once |
| `RoleTheorems.AssignedRoleListed` | internal/application/usecase/user/user_usecase.go:322-362 | after a role is assigned, every pair issued to that user lists it, and every role they had before, until it is removed from them |
| `RoleTheorems.RemovedRoleNotListed` | internal/application/usecase/user/user_usecase.go:365-405 | after a role is removed, until it is assigned again (or the user ID is registered anew), no accepted token of that user lists it, whether or not the user still exists |
| `RoleTheorems.PairLives` | internal/infrastructure/auth/jwt/token_service.go:50-99 | both tokens end at the last whole second of their lifetimes |
| `RoleTheorems.AnswersTellRows` | internal/application/usecase/user/user_usecase.go:66-162 | creating, updating and changing roles answer with ID, email, name and roles of the row they store, which is stamped now |
| `UserRoles.RolesAreAnOrderedSet` | internal/domain/entity/user.go:108-127 | after any assignments and removals the list holds each role ID of the resulting set once, as it was last assigned and in that order, and no other field but the time stamp moves |
| `UserRoles.ClaimsListRoles` | internal/application/usecase/auth/auth_usecase.go:239-251 | role names and IDs of the claims are those of the roles, one by one |
| `UserRoles.ClaimsListPermissions` | internal/application/usecase/auth/auth_usecase.go:239-251 | a text is among the claims if and only if some permission of some role is written so |
| `UserCaching.EntriesExactInRuns` | internal/application/usecase/user/user_usecase.go:195-254 | in every run of all operations, Register included, whose password changes meet no cached entry of that user, each live entry by ID and by non-empty email is what the database would answer now |
| `UserCaching.ListsExactInRuns` | internal/application/usecase/user/user_usecase.go:257-319 | in every run whose list searches hold no bar, whose registrations meet no cached list and whose password changes meet none that names the user, each live list is what the database would answer now |
| `UserCaching.ExactAnswers` | internal/application/usecase/user/user_usecase.go:195-319 | with exact entries, the three reads answer as if there were no cache |
| `UserAnswers.AnswersExactInRuns` | internal/application/usecase/user/user_usecase.go:195-319 | in every run that keeps entries and lists exact, the three reads answer what the database holds now |
| `UserAnswers.UserAnsweredAgain` | internal/application/usecase/user/user_usecase.go:195-223 | a user found is answered the same again while the entry lives, whatever became of the rows; an entry just made lives five minutes |
| `UserAnswers.EmailAnsweredAgain` | internal/application/usecase/user/user_usecase.go:226-254 | the same by email |
| `UserAnswers.ListAnsweredAgain` | internal/application/usecase/user/user_usecase.go:257-319 | and a list, for any query, two minutes |
| `UserAnswers.PagesTile` | internal/infrastructure/database/repository/user_repository.go:113-160 | over a database that cuts limit and offset out of the selected rows, page after page lists every selected user once and in order |
| `UserCaching.InvalidatedExact` | internal/application/usecase/user/user_usecase.go:559-582 | a write that drops the entries by ID and by old and new email and all lists leaves everything cached exact |
| `UserCaching.RegisterKeepsListsExactly` | internal/application/usecase/auth/auth_usecase.go:90 | registering drops no list: the lists stay exact if and only if none is cached |
| `UserCaching.PasswordKeepsEntriesExactly` | internal/application/usecase/auth/auth_usecase.go:311-316 | a password change drops no user entry, so entries stay exact if and only if the user has no live entry (the cached time stamp is stale) |
| `UserCaching.PasswordKeepsListsExactly` | internal/application/usecase/auth/auth_usecase.go:311-316 | a password change drops no list: over a database whose list order ignores passwords and update stamps, the lists stay exact if and only if no live one names the user, or the stamp is the old one |
| `UserCaching.EmptyEmailEntrySurvives` | internal/application/usecase/user/user_usecase.go:567-578 | why the empty email is excluded: its entry is never invalidated |
| `UserCaching.RegisterKeepsEntries` | internal/application/usecase/auth/auth_usecase.go:63-106 | registering never disturbs entries by ID or by email |
| `UserUseCase.UserService.CreateUser` | internal/application/usecase/user/user_usecase.go:66-104 | the calls in order give the state and answer of the state function, error by error |
| `UserUseCase.UserService.UpdateUser` | internal/application/usecase/user/user_usecase.go:107-162 | likewise, with old and new email invalidated |
| `UserUseCase.UserService.DeleteUser` | internal/application/usecase/user/user_usecase.go:165-192 | likewise for deletion; what the database does to the tasks of the user is TaskUseCase.TaskService.UserDeleted |
| `UserUseCase.UserService.GetUser` | internal/application/usecase/user/user_usecase.go:195-223 | cache hit, or database read and fill, or not found |
| `UserUseCase.UserService.GetUserByEmail` | internal/application/usecase/user/user_usecase.go:226-254 | the same by email |
| `UserUseCase.UserService.ListUsers` | internal/application/usecase/user/user_usecase.go:257-319 | the same for lists, under the key of the whole query |
| `UserUseCase.UserService.AssignRole` | internal/application/usecase/user/user_usecase.go:322-362 | row stored, entries, lists and sessions dropped, whether or not the role was new |
| `UserUseCase.UserService.RemoveRole` | internal/application/usecase/user/user_usecase.go:365-405 | the same for removal |
| `UserUseCase.UserService.InvalidateUserCaches` | internal/application/usecase/user/user_usecase.go:559-582 | string deletes and one prefix delete are exactly the entry by ID, the entries by the emails given, and every user list |
| `MemoryCache.SweepingUnobservable` | internal/infrastructure/cache/memory/cache.go:42-54 | wherever sweeps fall in a run of reads, writes, SETNX, multi-reads and -writes and prefix deletes under a monotone clock, all answers are those of the run without them |
| `CacheReads.ReadsLastWritten` | internal/infrastructure/cache/memory/cache.go:57-142 | after any calls and sweeps in order of time, Get, SETNX and the multi-read answer by the last value written to the key and its lifetime, told from the calls alone |
| `CacheReads.ExpireExactly` | internal/infrastructure/cache/memory/cache.go:145-155 | Expire gives a present key a new end and its old value, and touches no other |
| `MemoryCache.ExpireAfterSweepExact` | internal/infrastructure/cache/memory/cache.go:145-155 | for Expire this holds exactly unless the key is expired and the lifetime not negative |
| `Counter.IncrementAfterSweepExact` | internal/infrastructure/cache/memory/cache.go:158-186 | for Increment exactly unless the key holds an expired non-zero counter |
| `MemoryCache.SetNXOverwritesReadableExactlyAtExpiry` | internal/infrastructure/cache/memory/cache.go:67 | SETNX overwrites what Get still returns if and only if it runs at the very instant of expiry |
| `MemoryCache.Cache.Cleanup` | internal/infrastructure/cache/memory/cache.go:42-54 | the loop leaves exactly the items not past their expiry |
| `MemoryCache.Cache.Get` | internal/infrastructure/cache/memory/cache.go:57-72 | the value unless absent or past its expiry |
| `MemoryCache.Cache.Set` | internal/infrastructure/cache/memory/cache.go:75-90 | the item with its expiry, none for a lifetime that is not positive |
| `MemoryCache.Cache.Delete` | internal/infrastructure/cache/memory/cache.go:93-99 | exactly that key goes |
| `MemoryCache.Cache.Exists` | internal/infrastructure/cache/memory/cache.go:102-117 | agrees with Get |
| `MemoryCache.Cache.SetNX` | internal/infrastructure/cache/memory/cache.go:120-142 | stores and says so exactly if the key is absent or at or past its expiry |
| `MemoryCache.Cache.Expire` | internal/infrastructure/cache/memory/cache.go:145-155 | a new expiry for a present key, live or not |
| `MemoryCache.Cache.DeletePattern` | internal/infrastructure/cache/memory/cache.go:189-206 | the loop removes exactly the keys that start with the pattern |
| `MemoryCache.Cache.GetMultiple` | internal/infrastructure/cache/memory/cache.go:209-225 | exactly the asked keys that are strictly unexpired |
| `MemoryCache.Cache.SetMultiple` | internal/infrastructure/cache/memory/cache.go:228-245 | every given value under one expiry, other keys untouched |
| `MemoryCache.SizeAfterCleanup` | internal/infrastructure/cache/memory/cache.go:278-283 | the size counts expired items too, but right after a sweep exactly the readable keys |
| `Counter.RoundTrip` | internal/infrastructure/cache/memory/cache.go:158-186 | storing then loading eight little-endian bytes gives back every int64, negative ones too, and any integer modulo 2^64 |
| `Counter.DecodeExactly` | internal/infrastructure/cache/memory/cache.go:165-172 | a stored counter reads n if and only if it holds the eight bytes of n, or n is zero and the contents are of another length |
| `Counter.IncrementsAddUp` | internal/infrastructure/cache/memory/cache.go:158-186 | any sequence of increments leaves start plus sum, wrapped to 64 bits, without expiry, and no other key changed |
| `Counter.Increment` | internal/infrastructure/cache/memory/cache.go:158-186 | the new value and the new item, without expiry; contents of another length count as zero |
| `Counter.ReadInt64` | internal/infrastructure/cache/memory/cache.go:165-172 | the byte loop computes the signed little-endian value |
| `Counter.WriteInt64` | internal/infrastructure/cache/memory/cache.go:176-181 | the shift loop computes the eight bytes |
| `CacheKeys.RenderInjective` | internal/application/port/output/cache_repository.go:61-104 | two entries, of any families, share a key only if they are the same entry |
| `CacheKeys.SessionByIdExact` | internal/application/port/output/cache_repository.go:82-84 | the key of a session by its ID alone equals an entry's key if and only if that is a user's session entry and the ID spells user, colon, token |
| `CacheKeys.UserSessionsExact` | internal/application/port/output/cache_repository.go:92-99 | the session pattern of a user covers that user's session keys and no key of any other user or family |
| `CacheKeys.UserListsExact` | internal/application/port/output/cache_repository.go:102-104 | the user-list pattern covers exactly the user lists |
| `CacheKeys.TaskListsExact` | internal/application/port/output/cache_repository.go:77-79 | the task-list pattern covers exactly the task lists |
| `EntryCache.PutStores` | internal/infrastructure/cache/memory/cache.go:75-90 | storing under a rendered key is storing that entry and no other |
| `EntryCache.PatternDropsSessions` | internal/infrastructure/cache/memory/cache.go:189-206 | prefix deletion on the string store is deletion of one user's session entries |
| `EntryCache.PatternDropsUserLists` | internal/infrastructure/cache/memory/cache.go:189-206 | and of the user lists |
| `EntryCache.PatternDropsTaskLists` | internal/infrastructure/cache/memory/cache.go:189-206 | and of the task lists |
| `ListKeys.TaskListTextExact` | internal/application/usecase/task/task_usecase.go:1003-1033 | for all search strings: two task queries have the same text if and only if page, status, priority and printed overdue reference agree, the label lists are permutations, and search run together with assignee and creator tokens is the same (which TaskHeadExact spells out) |
| `ListKeys.TaskHeadExact` | internal/application/usecase/task/task_usecase.go:1003-1012 | the text up to the overdue token agrees if and only if one query's people tokens end in the other's and the other's search text spells out the rest; with as many people filters, if and only if search, assignee and creator agree |
| `ListKeys.TaskListKeyInjective` | internal/application/usecase/task/task_usecase.go:1003-1033 | with bars absent from the searches and overdue unset, the text is the same if and only if all scalar fields agree and the label lists are permutations of each other |
| `ListKeys.OverdueTargetIgnored` | internal/application/usecase/task/task_usecase.go:1012 | the overdue filter is printed by address: true and false at one address share an entry |
| `ListKeys.UserListTextExact` | internal/application/usecase/user/user_usecase.go:595-604 | the same characterisation for user queries, for all search strings |
| `ListKeys.UserHeadExact` | internal/application/usecase/user/user_usecase.go:595-604 | user queries agree before their page if and only if search and role agree, or one search text ends in the other query's role token |
| `ListKeys.UserListKeyInjective` | internal/application/usecase/user/user_usecase.go:595-604 | without bars the text tells the query |
| `ListKeys.BarInSearchCollides` | internal/application/usecase/user/user_usecase.go:595-604 | with a bar it does not: a search text that spells a role token collides |
| `ListKeys.BuildTaskListText` | internal/application/usecase/task/task_usecase.go:1003-1033 | writing the pieces one by one, labels sorted, gives exactly that text |
| `ListKeys.SortCanonical` | internal/application/usecase/task/task_usecase.go:1013-1021 | sorted label lists are equal if and only if the lists are permutations |
| `ListKeys.DecimalInjective` | internal/application/usecase/task/task_usecase.go:1030-1031 | printing an integer in decimal loses nothing, sign included |
| `TaskEvents.EventsTellStatuses` | internal/application/usecase/task/task_usecase.go:142-144 | while every lost event is a harmless one, replaying the events of a run gives every task's stored status, and every status change names the status before it truthfully |
| `TaskEvents.LostEventExact` | internal/application/usecase/task/task_usecase.go:952-960 | losing a step's event leaves the replay right if and only if the step is refused, sets no status, or sets the one the task has: read off the step and the row before it, for each kind of step |
| `TaskEvents.ReplayRightExactly` | internal/application/usecase/task/task_usecase.go:952-960 | after any run, whatever events were lost, replaying gives a task's stored status if and only if no change of it was lost since one was last heard, or the last lost one put an open task back to the heard status, or removed a task never heard of |
| `TaskEvents.LostPairCancels` | internal/application/usecase/task/task_usecase.go:952-960 | why the second case: two lost changes that undo each other, neither harmless, leave the replay right |
| `TaskEvents.StatusAfter` | internal/domain/entity/task.go:77-133 | the status of every task after every kind of step, told from the step and the rows before it |
| `TaskTheorems.PhaseNeverFalls` | internal/domain/entity/task.go:77-133 | open, done, archived: no task goes back along any run |
| `TaskTheorems.ChangeStatusExact` | internal/domain/entity/task.go:116-133 | ChangeStatus succeeds exactly on the documented transitions and, beyond them, from open straight to archived |
| `TaskTheorems.LabelsAreASet` | internal/domain/entity/task.go:174-193 | after any additions and removals the list holds each label of the resulting set once, and no other field but the time stamp moves |
| `TaskTheorems.UpdateStoredExactly` | internal/infrastructure/database/repository/task_repository.go:73-100 | an update stores what it answers, up to the time stamp, if and only if it does not blank a description that was not blank |
| `TaskColumns.RowsAsTold` | internal/application/usecase/task/task_usecase.go:152-216 | in every run each stored row holds, column by column, what the last step that was not refused and named the column gave: title, description (an empty one says nothing), status, priority, due date, assignee (until that user is deleted), creator, both time stamps |
| `TaskColumns.AnswersExactly` | internal/application/usecase/task/task_usecase.go:82-621 | a step that writes a row is answered with a yes if and only if it is not refused, told from the step and the row before; the answer is the stored row up to stamp and blanked description; a refused step changes nothing |
| `TaskColumns.EventsExactly` | internal/application/usecase/task/task_usecase.go:952-960 | each such step appends exactly its one event, with the status, assignee or label it is about, if the event gets through; unassigning nobody appends none |
| `TaskTheorems.CopiesExactInRuns` | internal/application/usecase/task/task_usecase.go:257-370 | in every sequential run with plain list queries whose user deletions meet no copy, each live task copy and each live list is what the database holds now |
| `TaskAnswers.ExactAnswers` | internal/application/usecase/task/task_usecase.go:257-370 | with exact copies and lists, GetTask answers the stored row or not found, and a plain ListTasks what the database selects |
| `TaskAnswers.AnswersExactInRuns` | internal/application/usecase/task/task_usecase.go:257-370 | so both do in every run of CopiesExactInRuns |
| `TaskAnswers.ListAnsweredAgain` | internal/application/usecase/task/task_usecase.go:297-370 | for any query, a list asked for again is answered the same while its entry lives, two minutes from when it was made |
| `TaskAnswers.TaskAnsweredAgain` | internal/application/usecase/task/task_usecase.go:257-294 | likewise a task found, five minutes |
| `TaskAnswers.FirstFilterCounts` | internal/infrastructure/database/repository/task_repository.go:121-186 | status before assignee before creator before search: the first that is set is the only one that counts |
| `TaskAnswers.PagesTile` | internal/infrastructure/database/repository/task_repository.go:121-186 | over a database that cuts limit and offset out of the selected rows, page after page lists every selected task once and in order |
| `TaskTheorems.CopyRightExactly` | internal/application/usecase/task/task_usecase.go:257-294 | in every sequential run, user deletions and all, a live copy of a task is the stored row if and only if no deletion of its creator or assignee has reached the task since the copy was made |
| `TaskTheorems.UserDeletedCopyExactly` | migrations/000001_init.up.sql:62-63 | a user's deletion leaves a right copy right if and only if the task was neither created by nor assigned to the user, or the copy is not live |
| `TaskTheorems.UserDeletedListsExactly` | migrations/000001_init.up.sql:63 | if the user had created a task, the lists stay right if and only if no list is live |
| `TaskTheorems.MutationIsStep` | internal/application/usecase/task/task_usecase.go:152-216 | every mutation is: compute entity and event, store the row, drop its entry and all lists, publish; or nothing at all |
| `TaskUseCase.TaskEntity.Complete` | internal/domain/entity/task.go:77-84 | the error on an archived task, otherwise done |
| `TaskUseCase.TaskEntity.Archive` | internal/domain/entity/task.go:88-95 | the error unless done, otherwise archived |
| `TaskUseCase.TaskEntity.Assign` | internal/domain/entity/task.go:99-106 | the error on an archived task, otherwise assigned |
| `TaskUseCase.TaskEntity.ChangeStatus` | internal/domain/entity/task.go:116-133 | the two errors, otherwise the new status |
| `TaskUseCase.TaskEntity.AddLabel` | internal/domain/entity/task.go:174-182 | appended once; nothing changed if present |
| `TaskUseCase.TaskEntity.RemoveLabel` | internal/domain/entity/task.go:185-193 | the occurrence removed, the rest in order |
| `TaskUseCase.TaskEntity.Update` | internal/application/usecase/task/task_usecase.go:168-193 | each given field set, in order, up to the first bad one; what is stored in the end is RowsAsTold |
| `TaskUseCase.TaskRepository.Update` | internal/infrastructure/database/repository/task_repository.go:73-100 | columns only, an empty description keeps the old one, a new time stamp |
| `TaskUseCase.TaskRepository.FindAll` | internal/infrastructure/database/repository/task_repository.go:121-186 | the first filter set decides; the count ignores it |
| `TaskUseCase.TaskService.CreateTask` | internal/application/usecase/task/task_usecase.go:82-149 | the checks in order, labels added until one is unknown, row saved unless the creator is no longer a user, lists dropped, event published |
| `TaskUseCase.TaskService.UpdateTask` | internal/application/usecase/task/task_usecase.go:152-216 | the calls in order give the state and answer of the state function, error by error |
| `TaskUseCase.TaskService.DeleteTask` | internal/application/usecase/task/task_usecase.go:239-253 | row, entry and lists gone, event published |
| `TaskUseCase.TaskService.GetTask` | internal/application/usecase/task/task_usecase.go:257-294 | cache hit, or database read and fill, or not found |
| `TaskUseCase.TaskService.ListTasks` | internal/application/usecase/task/task_usecase.go:297-370 | the same for lists, under the text of the whole query |
| `TaskUseCase.TaskService.AssignTask` | internal/application/usecase/task/task_usecase.go:373-412 | as UpdateTask, for assignment |
| `TaskUseCase.TaskService.UnassignTask` | internal/application/usecase/task/task_usecase.go:415-447 | as UpdateTask; an event only if someone was assigned |
| `TaskUseCase.TaskService.ChangeTaskStatus` | internal/application/usecase/task/task_usecase.go:450-488 | as UpdateTask; the event names the status before |
| `TaskUseCase.TaskService.CompleteTask` | internal/application/usecase/task/task_usecase.go:491-521 | as UpdateTask, for completion |
| `TaskUseCase.TaskService.ArchiveTask` | internal/application/usecase/task/task_usecase.go:524-554 | as UpdateTask, for archiving |
| `TaskUseCase.TaskService.AddLabel` | internal/application/usecase/task/task_usecase.go:557-592 | as UpdateTask; the event goes out even if the label was there |
| `TaskUseCase.TaskService.RemoveLabel` | internal/application/usecase/task/task_usecase.go:595-621 | as UpdateTask; the event goes out even if the label was not there |
| `TaskUseCase.TaskService.UserDeleted` | migrations/000001_init.up.sql:62-63 | the foreign keys: the user's tasks go, other tasks lose the user as assignee and are stamped; cache and events are not touched |
| `TaskUseCase.TaskService.InvalidateTaskCaches` | internal/application/usecase/task/task_usecase.go:984-1000 | one delete and one prefix delete are exactly the task's entry and every task list |
| `TaskStaleness.StalenessBounded` | internal/application/usecase/task/task_usecase.go:257-294 | under every interleaving of readers, writers, user deletions and sweeps, what a read answers at t was the stored row at some instant no earlier than t less five minutes less the filling read's fetch-to-store delay |
| `TaskStaleness.BoundReached` | internal/application/usecase/task/task_usecase.go:257-294 | for every delay there is a run that reaches this bound: the answer was stored at no later instant |
| `TaskStaleness.CopyCurrentExactly` | internal/application/usecase/task/task_usecase.go:984-991 | once no write of a task has its invalidation ahead, and no user's deletion reached it since the fill, a copy is the stored row if and only if the row was the same at its fetch and at its fill |
| `TaskStaleness.NoOverlapNoStaleness` | internal/application/usecase/task/task_usecase.go:257-294 | if calls never overlap, every copy that no user's deletion has reached is the stored row whenever no write is half done |
| `TaskStaleness.WholeReadIsGetTask` | internal/application/usecase/task/task_usecase.go:257-294 | the atomic steps of one read, uninterrupted, are GetTask of the sequential model, answer and cache |
| `TaskStaleness.RunKeeps` | internal/application/usecase/task/task_usecase.go:195-200 | the invariant behind these: provenance of every copy, reader and answer, and a pending invalidation for every write a copy has missed, user deletions excepted |
| `Attachments.EveryFileAccountedFor` | internal/application/usecase/task/task_usecase.go:684-754 | in every run with any mix of failures, lost answers and redelivered events, each record's file is there unless its deletion was asked for, and a stored file is at all times referenced by a record, queued, or given up if and only if no user deletion took its record while nobody had it in hand |
| `Attachments.NoOrphans` | internal/application/worker/task_attachment_cleanup_handler.go:15-56 | if no failed upload stored its file, no roll-back went unqueued, no clean-up failed and no user deletion took the file's record, then whenever the queue is empty the stored file has a record |
| `Attachments.UserDeletedOrphansExactly` | migrations/000001_init.up.sql:91 | deleting a user makes an orphan of exactly each stored file whose record belongs to a task the user created and for which nothing is queued |
| `Attachments.CascadeKeeps` | migrations/000001_init.up.sql:91 | records that go with their tasks leave a file accounted for if and only if it was not theirs alone |
| `Attachments.UploadOrphansExactly` | internal/application/usecase/task/task_usecase.go:684-754 | an accepted upload leaves its file an orphan if and only if the upload failed after storing, or save, roll-back and queueing all failed |
| `AttachmentAnswers.UploadAnswersExactly` | internal/application/usecase/task/task_usecase.go:684-754 | an upload is answered with the record if and only if everything it asks for holds and works; then record and file are there, and nothing else changed; which error otherwise |
| `AttachmentAnswers.DeleteAnswersExactly` | internal/application/usecase/task/task_usecase.go:829-856 | a deletion succeeds if and only if the record is the task's and file and record were dealt with; then the record is gone, the file gone or queued, and no other touched |
| `AttachmentAnswers.DeleteTaskAnswersExactly` | internal/application/usecase/task/task_usecase.go:219-242 | a task's deletion succeeds if and only if the task is there, every file was dealt with and the row went; then its records are gone, its files gone or queued, and no other record touched |
| `AttachmentAnswers.HandlerCleans` | internal/application/worker/task_attachment_cleanup_handler.go:15-56 | the handler takes exactly its event off the queue and deletes exactly its file, or the failure is known |
| `Attachments.OthersUntouched` | internal/application/usecase/task/task_usecase.go:829-856 | no step removes the file of an attachment it is not about |
| `Attachments.DeleteTaskKeeps` | internal/application/usecase/task/task_usecase.go:219-254 | deleting a task, stopping early or not, keeps the account |
| `Attachments.RollBackKey` | internal/application/usecase/task/task_usecase.go:923-950 | rolling back puts the file it is about in order, whatever it was before, and disturbs no other |
| `Attachments.HandleKeeps` | internal/application/worker/task_attachment_cleanup_handler.go:15-56 | one background attempt, working or not, keeps the account |
| `AttachmentOverlap.OverlapAccountsExactly` | internal/application/usecase/task/task_usecase.go:219-242 | under every interleaving of uploads, deletions, the background handler and user deletions, a stored file is at all times referenced, queued, given up or held by an upload under way if and only if no row was deleted that took its record while nobody had it in hand |
| `AttachmentOverlap.DropRowLosesExactly` | internal/application/usecase/task/task_usecase.go:219-242 | the deletion of a task loses a file if and only if, when the row goes, there is a record for it saved since the listing of the task's attachments, and it is stored and in nobody's hand |
| `AttachmentOverlap.NothingSavedNothingLost` | internal/application/usecase/task/task_usecase.go:229-242 | so if no record of the task is saved between listing and row, nothing is lost |
| `AttachmentOverlap.OverlapLoses` | internal/application/usecase/task/task_usecase.go:229-242 | a run that loses a file: stored before, listed without it, saved after |
| `AttachmentOverlap.SavedInBetweenAndKept` | internal/application/usecase/task/task_usecase.go:229-242 | a record saved in between need not lose anything: deleted again with its file before the row goes |
| `AttachmentOverlap.OverlapSound` | internal/application/usecase/task/task_usecase.go:684-754 | the invariant behind these: what each call under way knows of the files and records it is about stays true whatever the others do |
| `AttachmentOverlap.UploadAloneIsUpload` | internal/application/usecase/task/task_usecase.go:684-754 | the single steps of an upload, uninterrupted, are the upload of the sequential model |
| `AttachmentOverlap.DeleteAloneIsDelete` | internal/application/usecase/task/task_usecase.go:829-856 | likewise for the deletion of an attachment |
| `AttachmentOverlap.DeleteTaskAloneIsDeleteTask` | internal/application/usecase/task/task_usecase.go:219-242 | likewise for the deletion of a task, however many attachments it has |
| `FileNames.KeysDistinct` | internal/application/usecase/task/task_usecase.go:706-710 | keys of different uploads differ whatever the tasks and file names |
| `FileNames.AcceptedNameIsOneElement` | internal/application/usecase/task/task_usecase.go:858-861 | an accepted name has no slash and no backslash, for every string sent |
| `FileNames.BaseExact` | internal/application/usecase/task/task_usecase.go:858-861 | the last path element: the text between the last inner slash and the trailing ones, with the two special answers |
| `FileNames.KeyElements` | internal/application/port/output/file_storage.go:68-70 | a key splits into exactly five path elements, none of them a dot element |
| `AttachmentUseCase.AttachmentService.UploadTaskAttachment` | internal/application/usecase/task/task_usecase.go:684-754 | checks, upload, save and roll-back in order give the state and answer of the state function for every outcome of every call |
| `AttachmentUseCase.AttachmentService.CleanupUploadedAttachmentObject` | internal/application/usecase/task/task_usecase.go:923-950 | likewise for the roll-back |
| `AttachmentUseCase.AttachmentService.PublishAttachmentCleanupRequested` | internal/application/usecase/task/task_usecase.go:870-908 | likewise for the request |
| `AttachmentUseCase.AttachmentService.DeleteAttachmentObject` | internal/application/usecase/task/task_usecase.go:910-921 | likewise for deleting one file |
| `AttachmentUseCase.AttachmentService.DeleteTaskAttachment` | internal/application/usecase/task/task_usecase.go:829-856 | likewise for deleting one attachment |
| `AttachmentUseCase.AttachmentService.DeleteTask` | internal/application/usecase/task/task_usecase.go:219-242 | likewise for a task's files and row, with the early return |
| `AttachmentUseCase.AttachmentService.UserDeleted` | migrations/000001_init.up.sql:91 | the foreign keys: the user's tasks and their attachment records go, storage and queue are not touched |
| `AttachmentUseCase.AttachmentService.HandleCleanup` | internal/application/worker/task_attachment_cleanup_handler.go:15-56 | likewise for the handler, and success is what it reports |
| `Fanout.WebSocketSegment` | internal/transport/websocket/handler.go:78-109 | in every run what the hub put into a client's channel is the contiguous segment of the processed messages from registration to removal |
| `Fanout.OpenExactlyWhileRegistered` | internal/transport/websocket/handler.go:90-108 | for all three brokers a channel is open exactly while its client is registered and closed at most once |
| `Fanout.DeliveredInOrder` | internal/transport/sse/handler.go:100-111 | what a client was sent is an in-order, repetition-free selection of the messages processed while it was registered, and a missing one found its buffer full |
| `Fanout.SseStopClosesAll` | internal/transport/sse/handler.go:78-85 | after the SSE broker stops, every channel there ever was is closed, once |
| `Fanout.ClientsIsolated` | internal/transport/graphql/subscription_broker.go:41-51 | in every run a client's membership and channel are a function of the broadcasts and its own actions alone: no other client makes a difference |
| `Fanout.RunKeeps` | internal/transport/websocket/handler.go:78-109 | the invariant behind these, for every broker, client by client |
| `Brokers.Broker.Register` | internal/transport/websocket/handler.go:83-87 | the broker step of the model |
| `Brokers.Broker.Unregister` | internal/transport/sse/handler.go:93-98 | the broker step of the model, never closing twice |
| `Brokers.Broker.Broadcast` | internal/transport/websocket/handler.go:97-107 | the loop over the clients, in any order, is the broker step of the model, never sending on or re-closing a closed channel |
| `Brokers.Broker.Stop` | internal/transport/sse/handler.go:78-85 | the broker step of the model |
| `Brokers.Client.WriteBatch` | internal/transport/websocket/handler.go:226-249 | a batch is exactly what was waiting when it was counted, in order, and no read of it waits, even while the hub appends |
| `Brokers.Client.TrySend` | internal/transport/graphql/subscription_broker.go:45-49 | sends exactly if there is room |
| `EventConsumer.ClosedAtMostOnce` | internal/application/worker/event_consumer.go:75-90 | under all interleavings each generation's stop channel is closed at most once, the flag tells whether the current one is, and the wait group counts the goroutines |
| `EventConsumer.FailedStartLeavesNothing` | internal/application/worker/event_consumer.go:47-57 | however starts overlap, a failed start leaves an open channel, and a goroutine only if some start subscribed one after its wait was over |
| `EventConsumer.WaitLeavesNothing` | internal/application/worker/event_consumer.go:71-83 | when a wait ends, of a stop or of a failing start, no goroutine runs, and none does for as long as nobody subscribes one |
| `EventConsumer.WaitingStopCanReturn` | internal/application/worker/event_consumer.go:92-106 | from its signal on, until a failing start replaces the channel, and if no channel was lost before, a waiting stop can always be ended by the goroutines' own steps |
| `EventConsumer.DrainsExactly` | internal/application/worker/event_consumer.go:92-106 | the goroutines' own steps can end every wait if and only if each that is blocked is blocked on a closed channel and, if one is still to look, the flag is up |
| `EventConsumer.StoppedStaysStopped` | internal/application/worker/event_consumer.go:75-83 | a stop is for good unless a start fails later |
| `EventConsumer.NoChannelLostExactly` | internal/application/worker/event_consumer.go:85-90 | under every interleaving no channel was replaced unclosed if and only if the flag was up whenever a failing start entered the lock section of its reset |
| `EventConsumer.OneFailingLosesNothing` | internal/application/worker/event_consumer.go:47-57 | starts may overlap in any way: if no two of them are between signal and reset at once, no channel is lost |
| `EventConsumer.ConcurrentStartsLoseAChannel` | internal/application/worker/event_consumer.go:85-90 | a run where the flag was down: two starts failing together strand a goroutine on an open channel no later stop can close |
| `EventConsumer.Consumer.SignalStop` | internal/application/worker/event_consumer.go:75-83 | the lock section is the model's step and never closes twice |
| `EventConsumer.Consumer.ResetStopState` | internal/application/worker/event_consumer.go:85-90 | the lock section is the model's step |
| `SeedUseCase.SeedSystemRoles` | internal/application/usecase/user/user_usecase.go:408-556 | it succeeds only with exactly the four declared roles, each exactly as declared, old IDs kept; on any error or panic the database is as it was, unless the commit took effect and only its answer was lost: then it is as after success |
| `SeedUseCase.RunInTransaction` | internal/infrastructure/database/postgres/unit_of_work.go:65-86 | committed work if everything works; otherwise no change, panics passed on, unless the commit took effect and only its answer was lost |
| `RoleSeed.SeedingExact` | internal/application/usecase/user/user_usecase.go:408-556 | for any well-formed declaration: exactly the declared roles, each in sync, IDs kept, keys sound |
| `RoleSeed.SeedingGrantsExactly` | internal/application/usecase/user/user_usecase.go:519-546 | a role is granted a pair if and only if it is declared for it |
| `RoleSeed.SeedingAgain` | internal/application/usecase/user/user_usecase.go:408-556 | seeding again, with whatever new IDs, changes time stamps only |
| `RoleSeed.DeclaredWellFormed` | internal/application/usecase/user/user_usecase.go:415-475 | the four declarations are well formed |
| `SeedUseCase.SyncRoles` | internal/application/usecase/user/user_usecase.go:477-553 | the loops, if no call fails, compute the seeded tables |
| `SeedUseCase.RoleTransaction.Save` | internal/infrastructure/database/repository/role_repository.go:32-73 | the role row and the grants of its permissions, old permission IDs kept |
| `SeedUseCase.RoleTransaction.UpsertRole` | internal/infrastructure/database/repository/role_repository.go:40-49 | insert, or update under the old ID |
| `Rbac.AcceptedTokenDecidesLikeUser` | internal/auth/rbac/authorizer.go:78-106 | in every run the claims of an accepted token decide every request as the roles its user has now |
| `Rbac.DecidesExactly` | internal/auth/rbac/authorizer.go:78-106 | claims allow a request if and only if resource:action, resource:*, *:action or *:* is among the texts (a colon inside leaves only the wildcard), or one of those four pairs is in the table under one of the roles |
| `Rbac.TableDecidesExactly` | internal/auth/rbac/authorizer.go:26-56 | by the fixed table: admin everything on five resources; manager five actions on tasks, reading users, everything on labels; member three actions on tasks, reading labels; viewer reading tasks, users and labels; nobody anything else |
| `Rbac.SeedsMirrorTable` | internal/application/usecase/user/user_usecase.go:415-475 | role by role the table holds the declared permissions in order, with the resources in the plural |
| `Rbac.RolePermissionsExact` | internal/auth/rbac/authorizer.go:59-75 | permission texts decide exactly as the permissions they were made from, except those with a colon inside, which decide nothing |
| `Rbac.SeededPermissionsDecideNothing` | internal/auth/rbac/authorizer.go:26-56 | for tasks, users and roles the seeded permissions, named in the singular, never decide: the fixed table does alone |
| `Rbac.Authorizer.HasPermissionFromClaims` | internal/auth/rbac/authorizer.go:78-106 | the search loops answer whether some text or some table entry matches |
| `Rbac.Authorizer.HasPermission` | internal/auth/rbac/authorizer.go:59-75 | the same on the texts of the user's roles |
| `Rbac.RoleHasPermission` | internal/domain/entity/role.go:78-89 | the permission itself, its resource with any action, or, unlike the authorizer, a wildcard resource whatever the action |
| `Text.SplitsInTwo` | internal/auth/rbac/authorizer.go:82-85 | a joined text splits in two if and only if neither part holds the separator |

## Left out

- HTTP, gRPC, GraphQL and Socket.IO transport, routers, mappers, configuration, logging: plumbing without an invariant of its own.
- JWT signing, bcrypt, SHA-256 and JSON encoding: only issued tokens verify, hashes are injective, JSON round-trips.
- Redis, Kafka, S3, PostgreSQL and the query builders: maps, queues and sets; which rows a filter selects, and in which order, is a function the database supplies.
- Errors of the user, role and task repositories and of the cache, a nil cache, and database errors while listing attachments: those use cases run on working stores; failures are modelled for attachments, publishing, subscription and seeding.
- Overlapping calls in the session and user-cache runs, and among the events and lists of tasks: operations there run one after another; interleaving is modelled for cached tasks, attachments, the brokers and the consumer.
- TaskTheorems.UserDeletedListsExactly: for a user who had only been assigned tasks, whether a live list goes stale depends on the rows the database selects; CopiesExactInRuns then asks that no list be live.
- TaskStaleness.CopyCurrentExactly: nothing is claimed of a copy that a user's deletion has reached, except that a read answers it within the staleness bound.
- Sessions.LogoutKeeps: token IDs are UUIDs; the source takes any string it finds as the ID of an unverified token and builds keys from it.
- SessionTheorems.AcceptedClaimsCurrent: roles and permissions are lists in one order throughout; the query for a user's roles promises none.
- TaskUseCase.TaskService.GetTask: the labels attached to the answer from the label tables, whose rows these operations do not write, are not modelled.
- The text of an error, and the database's own checks other than the foreign keys from tasks and attachments to users: not modelled.
- RoleTheorems.RemovedRoleNotListed: a user ID registered again after its deletion counts as a new assignment; generated IDs do not come back.
- SeedSystemRoles among the steps of session runs: reseeding deletes roles without ending sessions, so claims need not stay current across it.
- Publishing of user events, and the fields of task events besides task, statuses, assignee and label: no other code depends on them.
- IsOverdue and label details inside cached tasks: the first depends on the time of the read, the second is changed elsewhere without invalidation.
- SearchTasks, GetOverdueTasks, DownloadTaskAttachment, ListTaskAttachments: uncached reads, or reads that add no state.
- Subscription filters, ping replies and heartbeats of the brokers: replies bypass the hub and the heartbeat sends to the broker's own queue, so nothing is claimed of them.
- Goroutine bodies of the event consumer: their choice, receive and exit are steps of the state machine rather than a loop in a class; likewise waiting and subscribing.
- The bit shifts of Increment: written as multiplication and division by powers of 256, "or" as addition, with the wrap-around explicit.
- The 32-bit cast of a page offset, and time stamps finer than the database keeps: not modelled.
- GetAllPermissions, CanManageTask, CanViewTask, CanManageUser, HasAnyRole, ACL entries: direct case distinctions that would only add easy members.
- UserCaching.EntriesExactInRuns: non-empty emails only, because the entry of the empty email is never invalidated (EmptyEmailEntrySurvives); password changes as in PasswordKeepsEntriesExactly.
- UserCaching.ListsExactInRuns: runs in which registrations and password changes meet no list they would make stale; the exact conditions are RegisterKeepsListsExactly and, over a database with a stable list order, PasswordKeepsListsExactly.
- TaskTheorems.CopiesExactInRuns: list queries without a bar in the search and with the overdue filter unset, because other queries can share a key.
- SessionTheorems.LogoutEndsPair: logging out with somebody else's user ID revokes only the presented token; the ledger says so and the acceptance theorems cover it.
