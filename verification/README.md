# Verified model of the secret service

This project models a service that stores encrypted, versioned secrets for teams, and proves what
its design promises. It has five parts.

* **Versions of one secret under concurrency** (`VersionRows`, `RotationProtocol`, `RotationSafety`,
  `RotationSerial`). Any number of clients rotate, roll back and create, statement by statement and row by row, as
  PostgreSQL interleaves them under READ COMMITTED: row locks, uncommitted writes, statement
  snapshots, and an abort anywhere.
* **The per-IP rate limiter** (`TokenBucket`, `RateLimitSafety`, `RateLimiter`). Token buckets in
  real arithmetic; the limiter itself is a class that updates its map of buckets in place.
* **The migration runner** (`FileOrder`, `Migrations`, `MigrationRace`). The runner's loop with a
  failure or crash at any statement, then many servers migrating the same database at once.
* **The query builders** (`LikePattern`, `QueryBuilder`). The two builders with their numbered
  placeholders, against a meaning of queries and against the filters themselves.
* **The services over whole runs.** `Domain` holds the tables, and `ServiceSpec` says what each call
  does to them. `Storage`, `Services`, `SecretService` and `Server` are the services as classes over
  a database they update in place, with a fault at any writing statement, proved against
  `ServiceSpec` up to whole runs of authenticated requests (`Sessions`). `ServiceRules` and `SecretRules` say
  in rows alone who may make each call and all that it then does, and `RequestRules` as whom a request acts.
  `ServiceRuns` defines runs of calls; `AuthorizedChanges`, `Logins`, `Integrity`, `AuditReferences`, `AuditTrail`,
  `SecretStoreRefinement`, `SecretReadRules`, `DocumentedRule`, `RemovedMembers`, `GrantHistory`,
  `ProjectMembership`, `ProjectCreation`, `TeamAssignment`, `SystemAdmin`, `AccountSessions` and `BlockedUsers`
  prove what every run keeps.

From outside, a call takes its `Env`: the clock, a generated id, a nonce, and which of its statements
the database fails; a transaction on secrets may also commit and its answer be lost. Ids are integers,
because nothing but equality is asked of them. Encryption is any pair of functions with the round trip
`decrypt(encrypt(p, n), n) == p`. A stored password hash is comparable with a password and nothing else.
A token is its claims, and only logins issue one.

## Where the code does not do what a reader expects

* **Exactly one current version.** A rollback does not take the lock on the secret's row that rotations
  take. `RotationSafety.OverlapLeavesTwoCurrent` gives the interleaving that leaves two current versions;
  `RotationAtomic` and `RollbackAtomic` say exactly when a commit leaves one, and `NoOverlapExactlyOne`
  that it always does while no rollback overlaps a rotation's writes; such runs are serial runs
  (`RotationSerial.RunIsSerial`). At least one is current in any case (`CommittedVersions`).
* **Who may read.** The access check chain in the repository's README (lines 146-154) lets every member
  of the project read, and the holder of a grant who is no member. The code (`internal/access/service.go:129-152`)
  refuses both a developer without a grant and anyone who is not a member. The model follows the code;
  `DocumentedRule.CodeDepartsIff` says exactly where the two differ, and `DeveloperIsRefused` and
  `GranteeIsRefused` are runs of the service in which they do.
* **Orphaned projects.** A comment (`internal/project/service.go:107`) says that refusing to remove oneself
  protects from orphaned projects. `ProjectMembership.SelfDemotionOrphans` is a run in which a project loses
  its only admin all the same, for good; `OrphanedIff` says exactly which calls do that.
* **Eviction.** Forgetting an idle client is invisible, and the admission bound holds, exactly when five idle
  minutes refill a bucket (`RateLimitSafety.RefillConditionIsExact`); the router's limits do.
* **Name search.** The name filter is a substring search exactly for names without `%`, `_` and `\`
  (`LikePattern.SubstringSearchIff`).
* **Team creations are not audited.** The event of a team creation carries the new team's id as its project
  (`internal/team/service.go:49-56`), which the foreign key of `audit_events` (`migrations/001_init.sql:75`) refuses.
  `AuditReferences.EventStoredIff` says that these events alone are refused, unless the new id is a project's;
  `TeamCreationIsLost` is a run that shows it, and `NoTeamIsLogged` says that with fresh ids no run ever logs one.
* **Creating a project** is two statements without a transaction. `ProjectMembership.HalfCreatedStaysEmpty` says
  exactly when that leaves a project without a member for good, and `ProjectCreation.MemberIff` which projects
  of a run have one.

## Model

| member | source | states |
|---|---|---|
| VersionRows.MaxVersion | internal/storage/secret_repo.go:217-221 | COALESCE(MAX(version), 0): the greatest number there is, or 0 |
| VersionRows.RotatedMeaning | internal/storage/secret_repo.go:204-239 | a rotation of rows numbered 1..n keeps them numbered, appends the payload as version n+1, and makes exactly that one current |
| VersionRows.RolledBackMeaning | internal/storage/secret_repo.go:150-154 | a rollback to an existing version changes no payload and makes exactly that version current |
| RotationProtocol.NextKeepsInv | internal/storage/secret_repo.go:204-239 | every step of every client keeps the protocol invariant: numbering, locks, uncommitted writes, and what each open transaction has read |
| RotationProtocol.CommittedRotation | internal/storage/secret_repo.go:224-235 | what a rotation's commit publishes: version n+1, current, and the flags it cleared |
| RotationProtocol.CommittedRollback | internal/storage/secret_repo.go:150-154 | what a rollback's commit publishes: only rows its snapshot saw are rewritten, and its target becomes current |
| RotationSafety.CommittedVersions | internal/storage/secret_repo.go:105-113 | in every run the committed versions are exactly 1..n, and a created secret has a current version, so GetCurrentVersion finds one |
| RotationSafety.RotationCommitsNext | internal/storage/secret_repo.go:211-238 | in every run the number a rotation chose is still n+1 when it inserts and commits, and its payload becomes version n+1 |
| RotationSafety.HistoryOnlyGrows | internal/storage/secret_repo.go:150-154 | no step of any run changes or drops the payload of a committed version |
| RotationSafety.RotationAtomic | internal/storage/secret_repo.go:201-203 | a rotation's commit has the effect of the whole rotation at once, and leaves one current version, if and only if it has cleared every flag set by then |
| RotationSafety.RollbackAtomic | internal/storage/secret_repo.go:150-154 | a rollback's commit has the effect of the whole rollback at once, and leaves one current version, if and only if no version newer than its snapshot is current |
| RotationSafety.NoOverlapExactlyOne | internal/storage/secret_repo.go:150-239 | in every run in which no rollback overlaps a rotation's writes, a created secret has exactly one current version |
| RotationSafety.NewestIsCurrent | internal/storage/secret_repo.go:204-239 | in every run in which no rollback commits, the newest committed version is the one current version |
| RotationSafety.RotationAlone | internal/storage/secret_repo.go:204-239 | a rotation of a secret with one current version that meets no other transaction can always run to its commit, with the effect of the whole rotation |
| RotationSafety.RollbackAlone | internal/storage/secret_repo.go:150-154 | a rollback to an existing version that meets no other transaction can always run to its commit, with the effect of the whole rollback |
| RotationSafety.OverlapLeavesTwoCurrent | internal/storage/secret_repo.go:150-154 | an interleaving of one rotation and one rollback leaves two versions current |
| RotationSerial.RunIsSerial | internal/storage/secret_repo.go:150-239 | in every run in which no rollback overlaps a rotation's writes, the committed rows are what the committed creations, rotations and rollbacks leave when each runs alone, in commit order |
| RotationSerial.VersionsAreCommits | internal/storage/secret_repo.go:173-239 | in every run, whatever overlaps, version k holds what the k-th committed creation or rotation stored |
| RateLimiter.FirstElement | internal/middleware/ratelimit.go:50 | what stands before the first comma |
| RateLimiter.TrimLeft | internal/middleware/ratelimit.go:50 | drops white space at the start and nothing else |
| RateLimiter.TrimRight | internal/middleware/ratelimit.go:50 | drops white space at the end and nothing else |
| RateLimiter.TrimSpaceTrims | internal/middleware/ratelimit.go:50 | what is left has no white space at either end, and only white space was dropped |
| RateLimiter.ClientIPIs | internal/middleware/ratelimit.go:46-59 | the key of a request: behind a trusted proxy the leftmost address of the header unless it is blank, otherwise the remote host without its port, and the whole remote address only when that does not parse |
| RateLimiter.LeftmostHopCounts | internal/middleware/ratelimit.go:30-32 | behind a proxy the client is the leftmost address, whatever follows its comma |
| RateLimiter.HeaderIgnored | internal/middleware/ratelimit.go:33-34 | without a trusted proxy no X-Forwarded-For header changes any answer, or the map, in any run of requests and cleanups |
| RateLimiter.IpLimiter.Allow | internal/middleware/ratelimit.go:91 | takes a token if one is left after refilling, and else changes nothing |
| RateLimiter.RateLimiter.constructor | internal/middleware/ratelimit.go:35-44 | starts with no client known |
| RateLimiter.RateLimiter.Get | internal/middleware/ratelimit.go:61-72 | the client's own bucket, or a new full one, marked as seen now; other clients' buckets stay |
| RateLimiter.RateLimiter.Cleanup | internal/middleware/ratelimit.go:74-85 | forgets exactly the clients not seen for more than five minutes |
| RateLimiter.RateLimiter.Limit | internal/middleware/ratelimit.go:88-97 | answers and updates the buckets as the specification of one request says |
| RateLimiter.RateLimiter.HandleAll | internal/middleware/ratelimit.go:61-97 | a run of requests and cleanups answers with the decisions of its trace and ends in the map of the trace |
| RateLimiter.AnswersAreDecisions | internal/middleware/ratelimit.go:61-97 | the answers that a client got in a run are the decisions for that client |
| RateLimiter.Run | internal/middleware/ratelimit.go:74-85 | a new limiter with enough refill answers every timed run as one that never forgets a client |
| RateLimiter.RunWindow | internal/middleware/ratelimit.go:27-28 | such a limiter admits each remote host, from all its ports together, or each address that a trusted proxy names, at most burst + rate * T times in any window, after any history |
| RateLimitSafety.EvictionHidden | internal/middleware/ratelimit.go:74-85 | with enough refill the pruned map answers every timed run as a map that never deletes |
| RateLimitSafety.AdmissionBound | internal/middleware/ratelimit.go:27-28 | in any window of length T, after any history and with cleanups in between, one client is admitted at most burst + rate * T times |
| RateLimitSafety.SpacedRequestsAreAdmitted | internal/middleware/ratelimit.go:61-97 | a client that leaves a token's refill time between its requests is never refused, in any run |
| RateLimitSafety.PrunedIff | internal/middleware/ratelimit.go:74-85 | a cleanup forgets exactly the clients not seen for more than 300 seconds and changes no other |
| RateLimitSafety.TokensPay | internal/middleware/ratelimit.go:61-97 | admissions plus the tokens left never exceed the tokens at the start plus the refill |
| RateLimitSafety.ClientsAreIndependent | internal/middleware/ratelimit.go:18-25 | what a client is answered does not depend on other clients' requests |
| RateLimitSafety.RefillConditionIsExact | internal/middleware/ratelimit.go:79 | eviction is invisible in every run if and only if rate * 300 s >= burst, and so is the admission bound |
| RateLimitSafety.RouterLimits | internal/http/router.go:63-70 | the limits the router sets meet that condition |
| FileOrder.LessIsBefore | internal/storage/migrate.go:50 | the order of names: one comes before another if and only if it is a proper prefix of it, or the first character in which they differ is smaller |
| FileOrder.SortedNames | internal/storage/migrate.go:50 | sorting distinct names puts each before the next in that order, and neither loses nor adds one |
| Migrations.Database.RunMigrations | internal/storage/migrate.go:17-86 | the runner, with a failure or crash anywhere, does what one run of the specification does |
| Migrations.Database.CollectFiles | internal/storage/migrate.go:44-50 | the .sql files that are no directories, sorted |
| Migrations.FilesAreSqlFiles | internal/storage/migrate.go:38-50 | the migrations are exactly the listed names that are no directories and end with .sql, each once, in that order |
| Migrations.Database.Apply | internal/storage/migrate.go:63-80 | a file's statements and its schema_migrations row are committed together or not at all; a name already recorded is refused |
| Migrations.RunMeaning | internal/storage/migrate.go:53-83 | a run, failed or not, commits a prefix of what is pending, in order; all of it when it succeeds; and it succeeds when nothing fails |
| Migrations.RunEnds | internal/storage/migrate.go:53-83 | a run succeeds if and only if neither its preparation nor a pending file fails; otherwise it changes nothing, or stops at the first pending file that fails with exactly the files before it applied, and that one too only if just its commit's answer was lost |
| Migrations.InOrderIff | internal/storage/migrate.go:14-16 | applied followed by pending is the sorted file list if and only if the applied ones were in order and the files only append to them |
| Migrations.SuccessfulRunIsCleanIff | internal/storage/migrate.go:28-83 | a successful run leaves the schema of a single clean run under that condition and no other |
| Migrations.EventuallyClean | internal/storage/migrate.go:17-86 | any series of failed or crashed runs followed by a successful one leaves the schema of a single clean run, also when file sets grow by later names, and a further run changes nothing |
| Migrations.FixedFilesEventuallyClean | internal/storage/migrate.go:17-86 | the same with one fixed file set and no condition on the series: a prefix until a run succeeds, then the schema of a single clean run, which a further run does not change |
| MigrationRace.CommittedInOrder | internal/storage/migrate.go:53-80 | with any number of servers interleaving and crashing anywhere, the committed migrations are a prefix of the sorted list, each committed once |
| MigrationRace.CommittedForGood | internal/storage/migrate.go:53-80 | what is committed stays committed, in place |
| MigrationRace.CommitSawPredecessors | internal/storage/migrate.go:68-80 | a migration that commits ran its statements on exactly the schema its predecessors left |
| MigrationRace.FinishedMeansComplete | internal/storage/migrate.go:53-85 | a server that gets through its loop leaves every migration committed |
| LikePattern.PlainNameSearches | internal/storage/secret_repo.go:63-67 | for a name without metacharacters the pattern matches exactly the texts that contain it, ignoring case |
| LikePattern.SubstringSearchIff | internal/storage/secret_repo.go:63-67 | it is a substring search on every text if and only if the name has no metacharacter |
| LikePattern.FoldIff | internal/storage/secret_repo.go:63-67 | two characters are taken as equal exactly when they are the same or one ASCII letter in both cases |
| QueryBuilder.AppendIfSet | internal/storage/secret_repo.go:53-72 | one optional filter field: the next placeholder is always the argument count plus one, and the conditions spell out the fields so far |
| QueryBuilder.BuildSecretQuery | internal/storage/secret_repo.go:48-76 | every placeholder denotes its own argument, limit and offset included, and a secret meets the conditions exactly when it matches the filter |
| QueryBuilder.BuildEventQuery | internal/storage/access_audit_repo.go:102-149 | the same for events; the limit is the filter's when it is 1 to 500, and else 100 |
| QueryBuilder.ListSecretsByProject | internal/storage/secret_repo.go:48-83 | the answer is the slice from offset to offset + limit, or to the end, of an arrangement of exactly the matching secrets by descending creation time; negative limits and offsets are refused |
| QueryBuilder.ListEvents | internal/storage/access_audit_repo.go:102-156 | the answer is the first slice of such an arrangement of exactly the matching events, as long as the limit or the number of them |
| QueryBuilder.PageIs | internal/storage/secret_repo.go:73-76 | a page of the newest first is such a slice, index by index, whatever the table's order |
| QueryBuilder.MatchingSecretsAre | internal/storage/secret_repo.go:48-72 | each row of the table is kept as often as it stands there if it matches the filter, and otherwise dropped |
| QueryBuilder.MatchingEventsAre | internal/storage/access_audit_repo.go:102-149 | the same for events |
| QueryBuilder.NewestFirstIsTheOrder | internal/storage/secret_repo.go:75 | when creation times differ, newest first is one order: any list of the same rows in that order is the answer |
| QueryBuilder.PlainNameFilter | internal/storage/secret_repo.go:63-67 | adding a plain name to a filter asks in addition that the name be contained |
| Storage.Store.CreateSecretWithVersion | internal/storage/secret_repo.go:173-199 | both rows or neither, whichever statement fails; both when only the commit's answer is lost |
| Storage.Store.RotateInTx | internal/storage/secret_repo.go:201-239 | rotates the rows and answers with the new number, or changes nothing, whichever statement fails; rotates when only the commit's answer is lost |
| Storage.Store.SetCurrentVersion | internal/storage/secret_repo.go:150-154 | rewrites every flag of the secret |
| Services.AuthService.CreateUser | internal/auth/service.go:35-73 | refuses a password shorter than 8 or longer than 72 and a taken address; else adds exactly that user, system admin if there was none before, and its registration event; a refusal changes nothing |
| Services.AuthService.Login | internal/auth/service.go:75-111 | succeeds exactly for a known address with its password whose user is not blocked, names that user, and logs it; changes no table but the log |
| Services.AuthService.SetBlocked | internal/auth/service.go:117-168 | BlockUser and UnblockUser: only a system admin, never on themselves, flips exactly the one flag of an existing user and logs it |
| Services.Validator.ValidatePrincipal | internal/authz/validator.go:35-49 | accepts exactly active accounts and users who are not blocked |
| Services.ProjectService.CreateProject | internal/project/service.go:26-65 | adds the project and then its creator as admin; when the second insert fails the project stays, and when the first fails nothing changes |
| Services.ProjectService.AddMember | internal/project/service.go:67-97 | only a project admin; gives an existing user exactly that role, over any they had, and logs it |
| Services.ProjectService.RemoveMember | internal/project/service.go:99-112 | only a project admin, never on themselves; deletes exactly that member, or reports that there is none |
| Services.ProjectService.UpdateMemberRole | internal/project/service.go:114-123 | only a project admin; changes exactly that member's role, or reports that there is none |
| Services.ProjectService.AddTeamMembers | internal/project/service.go:171-181 | the loop of upserts gives the role to exactly the members whose write goes through |
| Services.ProjectService.AssignTeam | internal/project/service.go:147-192 | only a project admin; links the team, then gives the role to the team's members whose write goes through; a failed listing leaves the link alone |
| Services.ProjectService.UnassignTeam | internal/project/service.go:195-204 | only a project admin; deletes exactly that link and no member |
| Services.TeamService.CreateTeam | internal/team/service.go:22-59 | adds the team under a new name and then its creator as owner; when the second insert fails the team stays, and when the first fails nothing changes |
| Services.TeamService.AddMember | internal/team/service.go:65-83 | only an owner of the team; gives an existing user exactly that role in it, at the end of the list if they are new |
| Services.TeamService.RemoveMember | internal/team/service.go:85-94 | only an owner of the team; takes exactly that member out of it, or reports that there is none |
| Services.AccessService.RequireManagedSecret | internal/access/service.go:34-59 | refuses those who do not manage the project, and secrets of other projects |
| Services.AccessService.GrantAccess | internal/access/service.go:45-84 | only a manager of the project, on a secret of that project, for an existing user; replaces giver and expiry of an earlier grant, and logs it |
| Services.AccessService.RevokeAccess | internal/access/service.go:86-112 | the same callers and secrets; deletes exactly that grant and logs it, or reports that there is none |
| Services.AccessService.CanReadSecret | internal/access/service.go:129-152 | refuses a user exactly as the read rule of the specification does |
| Services.AccountService.Create | internal/serviceaccount/service.go:28-75 | only a manager of the project, under a name new in it; stores the hash of the token and logs it |
| Services.AccountService.Authenticate | internal/serviceaccount/service.go:78-100 | succeeds exactly for an active account with its token, and answers with the account's own project |
| Services.AccountService.Revoke | internal/serviceaccount/service.go:103-130 | only a manager of the account's project; makes exactly that account revoked and logs it |
| SecretService.SecretService.CreateSecret | internal/secret/service.go:64-135 | only a manager, under a name new in the project; stores the secret with version 1 current and sealed, or nothing at all when a statement fails; when only the commit's answer is lost it stores both, reports the failure and logs nothing |
| SecretService.SecretService.AuthorizeSecretRead | internal/secret/service.go:202-218 | refuses a principal exactly as the read rule of the specification does |
| SecretService.SecretService.GetSecretValue | internal/secret/service.go:151-197 | the outcomes in the code's order: unknown, revoked or expired, refused with a denial event, or the current version's plaintext with a read event; changes no table but the log |
| SecretService.SecretService.RevokeSecret | internal/secret/service.go:220-249 | only a manager of the secret's project; makes exactly that secret revoked and logs it |
| SecretService.SecretService.RotateSecret | internal/secret/service.go:251-288 | only a manager of the secret's project; rotates its rows to the sealed new value and logs it, or changes nothing when a statement fails; when only the commit's answer is lost it rotates, reports the failure and logs nothing |
| SecretService.SecretService.RollbackSecret | internal/secret/service.go:300-334 | only a manager of the secret's project, to a version that exists; makes exactly that one current and logs it |
| Server.Server.Authenticate | internal/middleware/auth.go:39-58 | the principal of an issued, unexpired token whose owner may still act, and else a refusal |
| Server.Server.Admit | internal/middleware/auth.go:88-94 | which service call a request leads to, and as whom; endpoints for users refuse accounts |
| Server.Server.Issue | internal/handler/serviceaccount.go:97-109 | exactly a successful login makes a token, of its owner, with its project and lifetime |
| Sessions.RequestsAreCalls | internal/http/router.go:71-136 | a run of requests is a run of the calls it leads to, so what is proved of runs of calls holds of it |
| Server.Server.Handle | internal/middleware/auth.go:30-63 | one request, from its token to its reply: authenticates, serves and issues a token as one step of a run of requests |
| Server.Server.HandleAll | internal/http/router.go:71-136 | a run of requests ends in the world and gives the replies of the same run of the specification, so what is proved of runs holds of the server |
| ServiceRules.RegisterRule | internal/auth/service.go:35-73 | a registration succeeds if and only if the password's length is 8 to 72, id and address are new and the insert does not fail; all that it then stores, with the admin flag exactly for the first user, and its event |
| ServiceRules.LoginRule | internal/auth/service.go:75-111 | a login succeeds if and only if the address is a user's, the password is theirs and they are not blocked; what it answers else, and its event |
| ServiceRules.BlockRule | internal/auth/service.go:117-168 | a block or unblock succeeds if and only if another user who is a system admin makes it and the target exists; it sets that one flag and names its actor in the event |
| ServiceRules.CreateProjectRule | internal/project/service.go:27-64 | when a creation succeeds, with its creator as admin, and what it leaves when it does not |
| ServiceRules.AddMemberRule | internal/project/service.go:67-97 | it succeeds if and only if the actor's row reads admin and the user exists; that user then has exactly the given role, nothing else changes, and the event names actor and project |
| ServiceRules.RemoveMemberRule | internal/project/service.go:99-112 | it succeeds if and only if the actor's row reads admin, the target is someone else and a member; only that row goes |
| ServiceRules.UpdateRoleRule | internal/project/service.go:114-123 | it succeeds if and only if the actor's row reads admin and the user is a member; that user then has exactly the given role and nothing else changes |
| ServiceRules.AssignTeamRule | internal/project/service.go:147-192 | it succeeds if and only if the actor's row reads admin, the team exists and neither statement fails; when the link stays although it does not |
| ServiceRules.UnassignTeamRule | internal/project/service.go:195-204 | it succeeds if and only if the actor's row reads admin and the team is linked; only the link goes |
| ServiceRules.CreateTeamRule | internal/team/service.go:22-59 | it succeeds if and only if id and name are new, the actor is a user and neither insert fails; the team then has its creator as sole member and owner |
| ServiceRules.AddTeamMemberRule | internal/team/service.go:65-83 | it succeeds if and only if the actor owns the team and the user exists; the user is then a member, and an owner exactly if that role was given |
| ServiceRules.RemoveTeamMemberRule | internal/team/service.go:85-94 | it succeeds if and only if the actor owns the team and the user is a member; the user alone is then neither member nor owner |
| ServiceRules.GrantRule | internal/access/service.go:45-84 | it succeeds if and only if the actor's row reads admin or manager, the secret is of that project and the user exists; that one grant has the given expiry, and the event names actor, project and secret |
| ServiceRules.RevokeAccessRule | internal/access/service.go:86-112 | it succeeds if and only if the actor's row reads admin or manager, the secret is of that project and the grant exists; only that grant goes |
| ServiceRules.CreateAccountRule | internal/serviceaccount/service.go:28-76 | it succeeds if and only if the actor's row reads admin or manager and id and name are new; the account is active, of that project, with the generated token's hash |
| ServiceRules.AuthenticateRule | internal/serviceaccount/service.go:78-101 | it succeeds if and only if the account exists, is active and the token is its own, and answers with its project |
| ServiceRules.RevokeAccountRule | internal/serviceaccount/service.go:103-130 | it succeeds if and only if the actor's row in the account's project reads admin or manager; that account alone is then revoked |
| SecretRules.CreateSecretRule | internal/secret/service.go:64-135 | it commits if and only if the actor's row reads admin or manager, id and name are new and no statement fails; the stored row has the given project, name, description, tags and expiry, the given environment or production, is active, and names actor and time; version 1 is the sealed value |
| SecretRules.RotateRule | internal/secret/service.go:251-288 | it succeeds if and only if the secret exists, the actor's row in its project reads admin or manager, no statement fails and the commit's answer is not lost; all that it changes, and its event |
| SecretRules.RevokeRule | internal/secret/service.go:220-249 | it succeeds if and only if the secret exists, the actor's row in its project reads admin or manager and the update does not fail; only the status changes |
| SecretRules.RollbackRule | internal/secret/service.go:300-334 | it succeeds if and only if the secret exists, the actor's row in its project reads admin or manager, the version exists and the update does not fail; all that it changes, and its event |
| SecretRules.ReadRule | internal/secret/service.go:151-197 | the event of a read names its reader if a person, its secret, that secret's project and the time, and says whether it was refused |
| SecretRules.ManagedInRun | internal/secret/service.go:220-334 | in every run a creation, rotation, rollback or revocation takes effect if and only if its actor's row reads admin or manager at the time, what it names is there and the database does its part |
| SecretRules.RunKeepsRow | internal/secret/service.go:64-334 | no run changes anything of a secret's row but its status, and that only to revoked |
| SecretRules.CreatedAsGiven | internal/secret/service.go:92-121 | in every run after a creation that took effect the secret's row is as its creator gave it, but for a revocation |
| SecretRules.ExpiredIsRefused | internal/secret/service.go:161-163 | in every run after a creation with an expiry, every read after that time is refused as revoked |
| RequestRules.AuthenticatedIff | internal/middleware/auth.go:39-58 | a token is accepted if and only if it was issued, has not expired and its owner may still act, and stands for its owner |
| RequestRules.RequestRule | internal/middleware/auth.go:88-94 | a person's request does and answers exactly what its call does with the bearer as its actor and every other argument as asked; the others likewise; only logins issue a token, of their owner, for 24 hours or one |
| RequestRules.RunServesAsAsked | internal/http/router.go:71-136 | in every run every request is served so, in the state that the requests before it leave |
| AuthorizedChanges.EveryChangeIsAllowed | internal/http/router.go:71-136 | in every run each request that changes a secret, its grants, the secrets, accounts or members of a project, a team or a block comes with a live token of an unblocked user whose row allowed that change then |
| AuthorizedChanges.ChangedByTheAllowed | internal/project/service.go:67-204 | whatever of these differs at the end of a run was changed by such a request of it |
| Logins.SignedUpLogsIn | internal/auth/service.go:75-111 | in every run after a sign-up, a login at that address succeeds if and only if it has that password and the user is not blocked |
| Logins.LoggedInStaysIn | internal/token/jwt.go:45-60 | in every run after a login its token is accepted if and only if 24 hours have not passed and the user is not blocked |
| Logins.AccountLogsIn | internal/serviceaccount/service.go:78-101 | in every run after an account is created, its login succeeds if and only if it has the generated token and the account is not revoked |
| Logins.AccountStaysIn | internal/token/jwt.go:62-77 | in every run after an account's login its token is accepted, for its project, if and only if an hour has not passed and the account is not revoked |
| Integrity.StepKeepsSound | migrations/001_init.sql:22-69 | every call keeps every reference and every unique key that the tables of the model hold: members, links, teams with their members, secrets with their creators, versions, grants with their givers, accounts, names and addresses; and deletes no user, project or secret |
| Integrity.ReachableSound | migrations/001_init.sql:4-69 | in every run from empty tables those references are to rows that exist and those keys are unique |
| AuditReferences.EventReferencesIff | internal/team/service.go:49-56 | a call's event refers only to rows that exist if and only if it is not that of a team creation, or the new team has a project's id |
| AuditReferences.AccountEventsNameNoUser | internal/secret/service.go:53-62 | the audit event of a service account's request names no user |
| AuditReferences.EventStoredIff | internal/audit/service.go:37-48 | in every run of requests every event in the log refers to rows that exist, and the next event is stored if and only if the database does not fail its insert and it is not that of a team creation, or the new team has a project's id |
| AuditReferences.NoTeamIsLogged | internal/team/service.go:49-56 | in every run of requests with fresh ids the log holds no team creation |
| AuditReferences.TeamCreationIsLost | internal/team/service.go:22-59 | a run in which a team is created, the database fails no insert, and nothing is logged |
| SecretStoreRefinement.StepRefines | internal/secret/service.go:79-121 | every call changes the tables as its abstract operation changes a list of plaintexts for each secret with the number of the current one |
| SecretStoreRefinement.RunRefines | internal/storage/secret_repo.go:173-239 | every run from empty tables is a run of those lists |
| SecretStoreRefinement.ReadReturnsCurrentValue | internal/secret/service.go:177-196 | in every run a read that succeeds returns the plaintext last created, rotated in or rolled back to; a read of a secret that is neither revoked nor expired fails only for want of authorization |
| SecretStoreRefinement.ReadWhenStored | internal/secret/service.go:151-197 | the outcome of every read, with its audit event |
| SecretStoreRefinement.OldValuesStay | internal/secret/service.go:266-276 | no operation of any run alters or drops an older version's plaintext |
| SecretStoreRefinement.RotateThenRead | internal/secret/service.go:251-288 | after a rotation every read that succeeds returns its value until a rotation or rollback of the secret takes effect |
| SecretReadRules.ReadSucceedsIff | internal/secret/service.go:151-218 | in every reachable state a read succeeds if and only if the secret is active and unexpired and the caller is an account of its project, or a member who is admin or manager or holds an unexpired grant |
| SecretReadRules.ReadDecision | internal/access/service.go:129-152 | what a caller who may not read is told, by the rows of members and grants alone |
| RemovedMembers.StepReadmitsIff | internal/project/service.go:67-192 | someone who is not a member becomes one if and only if a successful call adds them or assigns a team that reaches them |
| RemovedMembers.RemovedMemberIsDenied | internal/project/service.go:99-112 | in every run, after a member is removed and until such a call, every read by them in the project is refused, whatever grants they hold |
| DocumentedRule.CodeDepartsIff | internal/access/service.go:129-152 | the code refuses what the documented chain allows exactly for developers without a live grant and grantees who are not members |
| DocumentedRule.DeveloperIsRefused | internal/access/service.go:139-145 | a run after which the chain lets a developer read and the code refuses |
| DocumentedRule.GranteeIsRefused | internal/access/service.go:130-133 | a run after which the chain lets the holder of a grant read and the code refuses |
| SecretReadRules.RevokedForGood | internal/secret/service.go:157-159 | a revoked secret stays revoked, and every read of it is refused, in every later run |
| SecretReadRules.RevocationIsTerminal | internal/secret/service.go:220-249 | after a successful RevokeSecret no later run of any calls lets a read of the secret succeed |
| GrantHistory.GrantsAreGiven | internal/access/service.go:45-84 | in every run the table holds a grant if and only if a successful call gave it, its giver managing the secret's project at the time, and no later successful call replaced or deleted it |
| GrantHistory.PlainReadersWereGranted | internal/access/service.go:129-152 | in every run a user who reads without managing the project is a developer of it who holds such a grant of that run, not yet expired |
| AuditTrail.StepIgnoresAudit | internal/audit/service.go:33-48 | no call looks at the audit log or at the fate of its own audit insert |
| AuditTrail.AuditDoesNotInterfere | internal/audit/service.go:33-48 | two runs of the same calls that differ only in which audit inserts fail give the same replies and the same tables but for the log |
| AuditTrail.ReadEvents | internal/secret/service.go:165-194 | a call hands a read event to the log exactly when it is a read that returns a value, and a denial exactly when it is a refused read of a live secret |
| AuditTrail.LogCountsReads | internal/secret/service.go:165-196 | in every run of requests the log never holds more read events than values returned or more denials than refused reads of live secrets, and exactly as many if and only if the database fails none of their inserts |
| ProjectMembership.CreatedProjectKeepsAMember | internal/project/service.go:43-53 | in every run after a successful CreateProject the project has a member |
| ProjectMembership.LastAdminLostIff | internal/project/service.go:67-192 | a call leaves a project without an admin if and only if its sole admin gives themselves a lesser role, or an admin assigns with a lesser role a team that reaches every admin |
| ProjectMembership.LossRewritesTheActor | internal/storage/project_repo.go:59-66 | such a call rewrites the acting admin's own role |
| ProjectMembership.OrphanIsFrozen | internal/project/service.go:67-123 | no run changes the members of a project without an admin, or gives it one |
| ProjectMembership.OrphanedIff | internal/project/service.go:67-192 | a run ends with the project orphaned if and only if one of its calls is such a one |
| ProjectMembership.HalfCreatedStaysEmpty | internal/project/service.go:39-53 | after a CreateProject under a new id the project exists without a member for good if and only if its second insert failed |
| ProjectCreation.StepCreates | internal/project/service.go:39-53 | a call gives a project without members its first one exactly when it is a CreateProject that answers with it, and brings a project into being otherwise only when its second insert fails |
| ProjectCreation.MemberIff | internal/project/service.go:39-53 | in every run a project has a member if and only if a CreateProject answered with it, and exists without one if and only if its creation failed between the inserts |
| ProjectMembership.SelfDemotionOrphans | internal/project/service.go:107-110 | a run in which a project loses its only admin for good, against the comment there |
| TeamAssignment.AssignGivesTheRole | internal/project/service.go:145-192 | after an assignment every team member whose write went through holds exactly the given role, and every other membership is unchanged |
| TeamAssignment.UpsertsAre | internal/project/service.go:171-181 | the upserts one after the other are all of them at once |
| TeamAssignment.LoopOrderDoesNotMatter | internal/project/service.go:171-181 | the loop ends with the same members for any order of the team |
| TeamAssignment.AssignIsIdempotent | internal/storage/project_repo.go:59-66 | assigning twice is assigning once with only the writes lost that were lost both times, so it changes nothing when no lost write goes through; the second call is refused, and changes nothing, if and only if a statement of it fails or the first took the admin role from the actor |
| TeamAssignment.AssignThenUnassign | internal/project/service.go:194-204 | unassigning restores the links, keeps the members, and succeeds if and only if the actor is still an admin and the statement does not fail |
| SystemAdmin.FirstUserIsTheAdmin | internal/auth/service.go:45-64 | in every run with a registered user there is exactly one system admin, the first registered user, and it is not blocked |
| SystemAdmin.StepKeepsAdmin | internal/auth/service.go:117-168 | no call makes a second system admin, or blocks the one there is |
| AccountSessions.AccountsReadOnlyTheirProject | internal/serviceaccount/service.go:50-62 | in every run every value that a service account reads lies in the project it was created in |
| AccountSessions.AccountReadIsInProject | internal/secret/service.go:202-208 | a value read with an account's token is of the account's project |
| AccountSessions.RevokedAccountIsOut | internal/authz/validator.go:35-42 | once an account is revoked every login and every use of its tokens is refused, in every later run |
| AccountSessions.RevocationEndsSessions | internal/serviceaccount/service.go:103-130 | after a successful revocation no login and no token of the account, however old, is accepted |
| AccountSessions.TokensComeFromLogins | internal/handler/serviceaccount.go:97-103 | every token that a run issues comes from a login of its owner in that run, with the right password or token |
| AccountSessions.SessionsComeFromLogins | internal/token/jwt.go:47-80 | in every run whoever is authenticated logged in before, less than the token's lifetime ago, and may still act |
| BlockedUsers.BecomesBlockedIff | internal/auth/service.go:117-142 | a user becomes blocked if and only if another user who is a system admin blocks them |
| BlockedUsers.StaysBlockedIff | internal/auth/service.go:144-168 | a block is lifted if and only if a system admin unblocks the user |
| BlockedUsers.RequestLiftsIff | internal/auth/service.go:144-168 | a request ends a block if and only if it succeeds in unblocking the user |
| BlockedUsers.BlockedUserIsOut | internal/authz/validator.go:44-48 | in every run, until a request succeeds in unblocking the user, no token of theirs is accepted and no login is theirs |
| BlockedUsers.BlockingLocksOut | internal/auth/service.go:117-142 | after a successful BlockUser, until a request succeeds in unblocking the user, no token of theirs is accepted and no login is theirs |

## Left out

- HTTP parsing, JSON, headers other than X-Forwarded-For, routing, logging, metrics and the command line client: plumbing.
- AES-GCM, bcrypt, JWT signing and random numbers: other libraries. They appear as a round trip, a comparable hash, unforgeable claims, and ids and nonces that the environment supplies; a clash of ids is refused as a conflict.
- Strings are sequences of characters; Go counts the bytes of a password, which is the same for ASCII. bcrypt ignores what follows the 72nd byte of a password it compares; the model compares whole passwords.
- SQL text: the builders produce conditions with placeholders rather than the text that spells them, and a query means what those conditions, its order, limit and offset mean.
- QueryBuilder.ListSecretsByProject: filter values are the known environments and statuses, and case folding is that of ASCII letters; other strings match no row.
- QueryBuilder.NewestFirstIsTheOrder: rows created at the same instant may come in any order in PostgreSQL; the model keeps table order among them.
- Interleavings of service calls: the services check first and write later without a lock, so their properties are stated for calls one after the other. Only rotations, rollbacks, creations and migrations are modelled as concurrent.
- Storage.Store.GetCurrentVersion: with several current rows, which only overlapping transactions can leave, the database may pick any of them; serial runs have one.
- Failing reads: a statement that only reads is taken to succeed, except the listing of a team's members and the statements of the migration runner and of RotateInTx.
- RateLimiter.RateLimiter.Limit: `get` and `Allow` are one step, and amounts are real numbers rather than floating point with nanosecond clocks; a negative burst is not modelled.
- RateLimiter.RateLimiter.Cleanup: one pass of the endless background loop; runs have passes at any time.
- MigrationRace.CommittedInOrder: the file set is fixed and the database is at a prefix of it when the servers start; the effect of a file is an entry in the schema's log.
- A single statement that takes effect and whose answer is lost; only the two transactions on secrets and the migrations have that outcome.
- The creator and assigner columns of projects, versions, links, teams and accounts, and their foreign keys.
- The row columns updated_at, display_name, granted row ids and audit metadata, which no decision reads; UpdateDisplayName with them.
- ListExpiringSecrets, ListVersions with authorizeProjectRead, ListGrants and the other lists: each is settled by reading one function.
- The lists of teams and of their members, and the description of a team: no decision reads them.
- The repository methods CreateSecret, CreateVersion, ClearCurrentVersion and GetNextVersionNumber, which no service calls.
- Audit listing permissions, statistics, and clamping of page sizes in handlers.
