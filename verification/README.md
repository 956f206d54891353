# Guarantees of the identity, audit and settings cores

A Dafny model of the state machines that carry the platform's guarantees, and proofs that they do. The backend
splits these machines between Python services and PostgreSQL functions; the model keeps both halves and proves
that together they keep their promises.

- **Role changes and their audit** (`RoleIntents`, `RoleAdministration`, `RoleAdministrationService`,
  `RoleConcurrency`, `RoleAccess`). A transaction arms an intent, a row trigger attests the real change, the audit insert consumes
  the intent, and a check deferred to commit rejects leftovers. Statements of any number of transactions interleave.
  On top of it, the service's seven calls: the audit log alone rebuilds the RBAC tables, also while the statements of
  many calls interleave on shared tables (`RoleConcurrency`), no call that passed its checks is rolled back, and who
  may write and what the tables may then hold is stated on the columns (`RoleAccess`).
- **Session lifecycle** (`Ranking`, `Sessions`, `SessionInvariants`, `SessionHistory`, `SessionOutcomes`,
  `SessionStores`, `SessionService`). Concurrency cap, idle and absolute expiry, rotation, revocation and exact audit, over a
  dictionary keyed by bearer digest and over a table keyed by id, which hold the same records exactly as long as the
  table takes the selections it is given.
- **Credentials** (`Credentials`, `CredentialHistory`, `ResetTokens`, `CredentialRuns`, `CredentialOutcomes`,
  `CredentialService`). Logins and password changes take a snapshot, hash outside any transaction and recheck under locks while resets and session
  operations run in between.
- **Audit contract** (`SqlLiterals`, `AuditContract`, `AuditCatalogue`, `AuditMigration`, `RoleEventRows`,
  `ModelEventRows`). A policy table is compiled to SQL check expressions; under three-valued logic they mean what the
  Python validator means, the table is the one the migration froze, and every event of the other models passes.
- **Bounded arithmetic** (`Throttle`, `Retention`, `Division`). Fixed-window quotas and batched retention.
- **Settings page** (`SettingsTickets`, `SettingsResolution`). The ticket protocol of the settings provider, and the
  two settings resolvers that run in opposite directions.

Each component has a specification on values (a state, a step, a run) and, where the source updates in place, classes
whose methods run the source's statements and are proved to make exactly the specified step; the theorems are about
all runs. Time is an integer in microseconds. Digests are injective and new tokens and identifiers are new.

Four properties are false in general and are proved with their exact conditions. The generated event contract lets a row
without a reason through whatever the policy says, because it always begins with `reason_code IS NULL`, and it puts
names and results between quotes as they are. It therefore means the same as the validator exactly when every policy
allows the absent reason and no name or result holds a quote, where a name whose quote ends its literal early is read
as an unknown comparison (its text would be parsed as some other SQL). The real table meets both: `_policy` always adds
the absent reason, and the closed enumerations contain no quote.

The two session stores do not behave alike on every input either: the table refuses a selection of another user's
membership or at a version that is not positive, and a session for an unknown user, where the dictionary stores the
record. They agree exactly when the table takes the selection, and a tenant switch asks the membership authority
first, so it is never refused.

The server and the browser resolve settings alike exactly when, for each key, the highest layer holding it holds a
valid value or only the built-in default is in play; so they do on all valid layers.

A change attested under an intent is what the intent's event replays as, except that the trigger does not look at the
status and version of an inserted role; there it holds exactly when they are the initial ones, which the service's
insert always writes.

`dafny verify dfyconfig.toml` checks the whole project.

## Model

| member | source | states |
|---|---|---|
| `RoleIntents.CommittedEventsMatchChanges` | migrations/versions/0015_security_event_wiring.py:68-139 | over any statement-level interleaving of any number of transactions from an empty table, a committed transaction leaves no intent and its role events describe, one for one, in order and in every field, the changes it made under an armed intent |
| `RoleIntents.IntentsBelongToOpenTransactions` | migrations/versions/0015_security_event_wiring.py:28-66 | every intent in the table belongs to a still open transaction, under its own process and tenant |
| `RoleIntents.OthersUntouched` | migrations/versions/0015_security_event_wiring.py:119-139 | no statement, commit or rollback of one transaction attests, cancels, consumes or creates the intent of another |
| `RoleIntents.OneChangePerIntent` | migrations/versions/0015_security_event_wiring.py:76-116 | under an armed intent a change is let through exactly when it is the first and the one the intent describes; any other aborts and takes the intent with it |
| `RoleIntents.StatementSucceedsIff` | migrations/versions/0015_security_event_wiring.py:25-139 | the exact condition under which prepare, append, cancel and commit each succeed |
| `RoleIntents.StepAttests` | migrations/versions/0015_security_event_wiring.py:28-139 | every step keeps each transaction in step with its intent: one unwritten change exactly while an attested intent is held |
| `RoleIntents.RunAttests` | migrations/versions/0015_security_event_wiring.py:28-139 | so does every run of steps |
| `RoleAdministration.LogRebuildsTables` | apps/api/app/services/role_administration.py:65-292 | after any run of calls, committed, lost, or overtaken between check and write, replaying the role events in log order gives exactly the roles, their status and version, the role-permission relation and the membership-role relation |
| `RoleAdministration.VersionsCountEdits` | apps/api/app/services/role_administration.py:65-150 | after any such run a role has one creation event and a version of one plus its updated and disabled events, and an id that is no role has none of the three |
| `RoleAdministration.StepReplays` | apps/api/app/services/role_administration.py:65-292 | one call, whatever its outcome, keeps keys sound and the replayed log equal to the tables |
| `RoleAdministration.EffectIsApply` | apps/api/app/services/role_administration.py:65-292 | reading a call's event changes the rebuilt state exactly as the call's statement changes the tables |
| `RoleAdministration.ProceedsLands` | apps/api/app/services/role_administration.py:152-292 | a call that passes every check of the service meets what its write statement demands by itself |
| `RoleAdministrationService.RoleAdministrationService.CreateRole` | apps/api/app/services/role_administration.py:65-93 | from any keyed state the call ends as its specification says: the role and exactly one event, or the first refusal in the source's order and nothing stored; a taken id or key is the conflict, and no transaction is rolled back that passed its checks |
| `RoleAdministrationService.RoleAdministrationService.UpdateRole` | apps/api/app/services/role_administration.py:95-126 | the same for a rename at an expected version, missing and stale told apart |
| `RoleAdministrationService.RoleAdministrationService.DisableRole` | apps/api/app/services/role_administration.py:128-150 | the same for disabling an active role at an expected version |
| `RoleAdministrationService.RoleAdministrationService.AssignPermission` | apps/api/app/services/role_administration.py:152-184 | the same for granting a tenant permission; granting again answers false, writes nothing and still commits |
| `RoleAdministrationService.RoleAdministrationService.RemovePermission` | apps/api/app/services/role_administration.py:186-213 | the same for removing a permission |
| `RoleAdministrationService.RoleAdministrationService.AssignRole` | apps/api/app/services/role_administration.py:215-255 | the same for giving a role to an active membership of the tenant |
| `RoleAdministrationService.RoleAdministrationService.RemoveRole` | apps/api/app/services/role_administration.py:257-292 | the same for taking it away |
| `RoleAdministrationService.RoleAdministrationService.Conclude` | apps/api/app/services/role_administration.py:179-183 | with an intent attested by a change, writing never fails; with an unattested one, cancelling never fails; either way the intent is gone before commit |
| `RoleAdministrationService.SecurityEventWriter.PrepareRole` | apps/api/app/audit/writer.py:105-135 | the remembered intent mirrors the database row of the live transaction, and arming succeeds exactly when none is remembered, the event is one the validator accepts (by RoleEventsValidate), and, column by column, its session is unrevoked, before both expiries, at its user's security version and on the event's membership at the given version, user, membership and tenant are active, and so is a target membership of the tenant |
| `RoleAdministrationService.SecurityEventWriter.Write` | apps/api/app/audit/writer.py:42-94 | mirroring is kept; a role event is appended exactly when the remembered intent equals it, is attested, and the insert guard's links and id hold |
| `RoleAdministrationService.SecurityEventWriter.CancelRole` | apps/api/app/audit/writer.py:137-149 | mirroring is kept; cancelling succeeds exactly on the remembered, unattested intent |
| `RoleAdministrationService.TenantTransaction.End` | apps/api/app/db/tenant_transaction.py:57-70 | a transaction commits exactly when its block succeeded and the deferred check finds no intent of it; otherwise every table is as it was before |
| `RoleAdministrationService.RoleDatabase.Attest` | migrations/versions/0015_security_event_wiring.py:68-117 | the trigger, branch by branch, is the attestation function the interleaving theorems are about |
| `RoleAdministrationService.RoleDatabase.AppendSecurityEvent` | migrations/versions/0015_security_event_wiring.py:25 | the insert guard consumes the equal attested intent of this transaction, rechecks the links, and refuses a used id |
| `RoleAdministrationService.LinkedHolds` | migrations/versions/0015_security_event_wiring.py:28-66 | identities accepted by the join of prepare satisfy the weaker links the insert guard rechecks |
| `RoleAdministrationService.ConsumeTakesOwn` | migrations/versions/0015_security_event_wiring.py:25 | the guard deletes the acting transaction's own intent or nothing |
| `RoleAdministrationService.CancelTakesOwn` | migrations/versions/0015_security_event_wiring.py:119-127 | so does cancel |
| `RoleConcurrency.InterleavedLogRebuildsTables` | migrations/versions/0015_security_event_wiring.py:28-139 | over any statement-level interleaving of any number of service calls on shared tables, committed, aborted or open, the role events of committed transactions, in the order they were written and not that of the commits, rebuild exactly the committed roles, statuses, versions, role permissions and membership roles |
| `RoleConcurrency.LateCommitReplays` | migrations/versions/0015_security_event_wiring.py:68-117 | an event that becomes visible when its transaction commits, behind events written later, replays as if it came last, because no later event is about the same thing |
| `RoleConcurrency.EffectKeepsLands` | apps/api/app/services/role_administration.py:65-292 | a write and its row image stay right while transactions under other row and key locks commit |
| `RoleConcurrency.LandsApart` | apps/api/app/services/role_administration.py:65-292 | writes under disjoint locks have events about different things |
| `RoleConcurrency.CommitIsOvertaken` | apps/api/app/services/role_administration.py:65-292 | a commit is one Overtaken step of the sequential model, so its committed tables are those of the calls in commit order |
| `RoleConcurrency.WriteSucceeds` | migrations/versions/0015_security_event_wiring.py:68-117 | among interleaved transactions the trigger attests every write that lands |
| `RoleConcurrency.WritesElsewhereDoNotWait` | apps/api/app/services/role_administration.py:65-292 | a write never waits for transactions that changed other roles and other keys |
| `RoleConcurrency.SettleSucceeds` | apps/api/app/audit/writer.py:42-149 | the guard accepts the event of every attested change whose id is unused, because the share locks of prepare keep its links true until the transaction ends, and the cancel of a no-op always succeeds |
| `RoleConcurrency.StepGood` | migrations/versions/0015_security_event_wiring.py:28-139 | every statement of every transaction keeps intents, locks, uncommitted changes and the journal consistent |
| `RoleAccess.StandingDecides` | migrations/versions/0015_security_event_wiring.py:28-66 | a caller in good standing, on the columns of user, session, membership, tenant and target, is never told the audit event could not be written; one who is not is always refused, and the three calls on roles themselves answer with exactly that error |
| `RoleAccess.ErrorsMean` | apps/api/app/services/role_administration.py:65-292 | each error is raised only for its own reason, on the columns, and a call is accepted only when permission, standing, name, tenant, version, status, key and target are all right |
| `RoleAccess.ErrorsOrdered` | apps/api/app/services/role_administration.py:65-292 | of several reasons the source's first is told: for role calls a bad name before the tables, for relation calls the role, then its status, then the membership, before the caller's standing |
| `RoleAccess.PermissionIdsDistinct` | apps/api/app/authorization/permissions.py:31-43 | no two permissions share an identifier |
| `RoleAccess.TenantPermissionsGrantable` | apps/api/app/services/role_administration.py:315-321 | each of the six tenant permissions, by its literal identifier, can be granted to and taken from any active role of the tenant by a roles manager in good standing |
| `RoleAccess.AcceptedCallsWrite` | apps/api/app/services/role_administration.py:65-292 | what each accepted call leaves, field by field: its one row written as asked, with one event, and every other row as it was; a call with nothing to change leaves all |
| `RoleAccess.EventNames` | apps/api/app/services/role_administration.py:294-312 | the event of each call, field by field |
| `RoleAccess.RunsGoverned` | apps/api/app/services/role_administration.py:65-292 | over any run, calls overtaken and lost included: every permission row is one of the six tenant identifiers, names are neither blank nor over 120 characters, no key is used twice in a tenant, and every role event is written while its caller's session is unrevoked, unexpired and current at the time the call read |
| `RoleAccess.InterleavedRunsGoverned` | migrations/versions/0015_security_event_wiring.py:28-139 | the same for the statements of any number of calls interleaved, and audit identifiers are unique |
| `RoleAccess.CommitsAtVersion` | apps/api/app/services/role_administration.py:95-150 | among interleaved transactions an edit is committed only at the version its caller had read and leaves the next, so none is lost to another |
| `RoleAccess.ArmsIff` | migrations/versions/0015_security_event_wiring.py:41-59 | among interleaved transactions prepare arms an intent exactly for a caller in good standing |
| `RoleAccess.AttestedChangeReplays` | migrations/versions/0015_security_event_wiring.py:68-117 | whatever statement made a change, one attested under an intent changes the tables as the intent's event replays, stays in its tenant and moves no key; the trigger does not look at an inserted role's status and version, so for an insert this holds exactly when they are the initial ones |
| `RoleAccess.RemovalUndoes` | apps/api/app/services/role_administration.py:152-292 | removing a permission or role just given restores the relations, and giving it twice changes nothing |
| `SessionHistory.CapAlwaysHolds` | apps/api/app/auth/sessions.py:156-212 | after any history with a clock that does not run backwards, no user has more than five valid sessions at one security version at any time from the last operation on |
| `SessionInvariants.IssueEvictsOldest` | apps/api/app/auth/sessions.py:156-182 | issue revokes exactly the max(0, n - 4) oldest of the n valid sessions by (created_at, id), leaves every other record alone, and leaves min(n, 4) + 1 valid |
| `SessionHistory.ExpiryAlwaysBounded` | apps/api/app/auth/sessions.py:198-297 | idle expiry never passes last use plus 30 minutes nor creation plus 8 hours |
| `SessionHistory.SteadyUseKeepsAlive` | apps/api/app/auth/sessions.py:198-212 | in any history, among any other operations, a session that none of them revokes or rotates and that is resolved at gaps of at most 29 minutes from its issue answers every such resolve before its 8 hours end |
| `SessionHistory.LongerGapCanLoseSession` | apps/api/app/auth/sessions.py:205-211 | the 29 minutes are tight: for every longer gap there is a history with an issue and resolves at gaps of at most that, no revocation and no rotation, in which a resolve inside the 8 hours finds nothing |
| `SessionHistory.AtMost479Touches` | apps/api/app/auth/sessions.py:205-211 | resolve writes a session's row at most 479 times in its life |
| `SessionHistory.AuditAlwaysMatches` | apps/api/app/auth/sessions.py:168-255 | sessions revoked by the cap, and those logged out, are each named by exactly one event with that reason, and no other session is |
| `SessionHistory.RevokedForever` | apps/api/app/auth/sessions.py:214-255 | a revoked record never changes again |
| `SessionHistory.RotationMovesBearer` | apps/api/app/auth/sessions.py:257-297 | after a rotation the old bearer finds nothing, then and ever after, and the new one finds the same session, still valid; an unusable bearer rotates nothing |
| `SessionHistory.RetiredForever` | apps/api/app/auth/sessions.py:123-149 | a bearer that was used and finds nothing never finds a session again |
| `SessionHistory.RunGood` | apps/api/app/auth/sessions.py:152-297 | every run keeps row well-formedness, distinct bearers, the cap, the audit bijection and the pacing of writes |
| `SessionInvariants.StepEvolves` | apps/api/app/auth/sessions.py:152-297 | every operation keeps each record's identity columns, lets it only be revoked, touched or rotated, and adds at most the issued one |
| `SessionInvariants.StepKeepsBearers` | apps/api/app/auth/sessions.py:123-140 | no two records ever share a bearer digest |
| `SessionInvariants.ValidityOnlyFades` | apps/api/app/auth/sessions.py:65-71 | with time alone no session becomes valid |
| `SessionOutcomes.IssueWrites` | apps/api/app/auth/sessions.py:156-196 | issue adds one unrevoked, unselected row that lives thirty minutes idle and eight hours at most, and what else it touches are unrevoked, unexpired sessions of the user at the version, each marked revoked now for the cap |
| `SessionOutcomes.IssueReports` | apps/api/app/auth/sessions.py:168-181 | one event for each evicted row, oldest first, naming user and session |
| `SessionOutcomes.ResolveWrites` | apps/api/app/auth/sessions.py:198-212 | resolving a live session a minute or more after its last use sets the use to now and the idle expiry to thirty minutes on, at most the absolute one; otherwise nothing is written |
| `SessionOutcomes.RotateWrites` | apps/api/app/auth/sessions.py:257-297 | rotating a live session replaces both digests and the time of use, moves the idle expiry as a resolve would and takes a given selection; otherwise nothing is written |
| `SessionOutcomes.RevokeOneWrites` | apps/api/app/auth/sessions.py:214-238 | logging out marks an unrevoked session, expired or not, with time, reason and one event, and does nothing else |
| `SessionOutcomes.RevokeEveryWrites` | apps/api/app/auth/sessions.py:240-255 | every unrevoked session of the user is marked with the time, and one event is written if there was any |
| `SessionOutcomes.WriteCsrfWrites` | apps/api/app/db/auth_http.py:182-186 | the CSRF write-back replaces that digest of a live session and nothing else |
| `SessionOutcomes.RevocationsAlwaysDated` | apps/api/app/auth/sessions.py:152-297 | after any history each revocation carries a time between the session's last use and the clock |
| `SessionStores.UpdateIsReplaceIff` | apps/api/app/auth/postgres.py:95-106 | the columns the UPDATE omits are ones no operation changes, so with a free digest updating a row is replacing the record if the table takes the selection (a positive version, and a membership that is unchanged or the session user's own), and is refused otherwise |
| `SessionStores.ReplacementsAgreeIff` | apps/api/app/auth/sessions.py:136-140 | after replacing a record the digest-keyed dictionary and the id-keyed table hold the same set of records exactly when the table takes the record's selection |
| `SessionStores.InsertionsAgreeIff` | apps/api/app/auth/sessions.py:123-124 | after an insertion they do exactly when the table knows the user and takes the selection |
| `SessionStores.RefusedSelectionsSplitTheStores` | migrations/versions/0008_trusted_membership.py:38-52 | a selection of another user's membership, and one at version 0: the dictionary stores the record, the table raises |
| `SessionStores.SwitchIsTaken` | apps/api/app/auth/tenants.py:139-154 | a selection the membership authority confirmed for the session's user is one the table takes |
| `SessionStores.LookupsAgree` | apps/api/app/auth/postgres.py:64-77 | both stores find the same session under a digest |
| `SessionStores.ShowsOne` | apps/api/app/auth/sessions.py:108-140 | the dictionary determines the table it agrees with |
| `SessionService.BackendsInStep` | apps/api/app/auth/sessions.py:108-149 | services over the two stores that accepted the same operations hold the same records and events, and answer every digest alike; the table refuses only what Issue and RotateTo below say it refuses |
| `SessionService.SortSorts` | apps/api/app/auth/sessions.py:160-167 | the sort by (created_at, id) orders the records and neither loses nor invents one |
| `SessionService.SessionService.Issue` | apps/api/app/auth/sessions.py:156-196 | over either store, the loop of revocations and the save end in the state and event list of the specification; the table refuses exactly an unknown user, and then the transaction leaves everything as it was |
| `SessionService.SessionService.IssueRows` | apps/api/app/auth/sessions.py:156-196 | the same statements inside a larger transaction: from any well formed rows they end in the specified rows and events, or in a refusal exactly for an unknown user |
| `SessionService.SessionService.MakeRoom` | apps/api/app/auth/sessions.py:168-181 | the loop revokes a prefix of the queue by age, writing one event each, until there is room for one more |
| `SessionService.SessionService.Resolve` | apps/api/app/auth/sessions.py:198-212 | over either store, answers and writes exactly as specified |
| `SessionService.SessionService.RotateTo` | apps/api/app/auth/sessions.py:257-297 | over either store, resolve then replace is one rotation of the original record; the table refuses exactly a selection that is not at a positive version or is a changed membership of somebody else, and then the transaction leaves everything as it was |
| `SessionService.SessionService.Switch` | apps/api/app/auth/tenants.py:139-154 | a tenant switch is never refused: it rotates to the membership the authority confirmed, at its version, or changes nothing |
| `SessionService.UsableIff` | apps/api/app/auth/tenants.py:111-116 | a switch starts from the session under the bearer exactly when it is unrevoked and before both expiries, at whatever version it carries |
| `SessionService.SessionService.RevokeOne` | apps/api/app/auth/sessions.py:214-238 | over either store, revokes an unrevoked session with its one event, and answers whether it did |
| `SessionService.SessionService.RevokeEvery` | apps/api/app/auth/sessions.py:240-255 | over either store, the loop revokes exactly the user's unrevoked sessions, writes one aggregate event when there was any, and counts them |
| `SessionService.MemorySessionStore.Replace` | apps/api/app/auth/sessions.py:136-140 | removes every entry with the record's id and stores the record under its digest |
| `SessionService.PostgresSessionStore.Replace` | apps/api/app/auth/postgres.py:95-106 | the eight named columns of the row take the record's values; its other six columns, every other row and the set of ids stay; a missing id is no error; it fails, changing nothing, exactly when another row holds the digest, the row would break a CHECK (the positive version included), or a changed membership is not one of the row's user |
| `SessionService.PostgresSessionStore.ActiveForUser` | apps/api/app/auth/postgres.py:79-93 | lists exactly the user's unrevoked sessions, each once |
| `CredentialHistory.SessionsStayCurrent` | migrations/versions/0015_security_event_wiring.py:142-154 | over every interleaving of logins, changes, resets, revocations and rotations, each unrevoked session carries its user's current security version |
| `CredentialOutcomes.LoginSucceedsIff` | apps/api/app/auth/password_authentication.py:112-162 | a login issues a session exactly when the account it names exists, is active and has a credential at the beginning, the password verified, the account is active at the end and its credential is at the version seen, whatever ran between; the issued row is given column by column, and otherwise only a failure event is written |
| `CredentialOutcomes.ChangeSucceedsIff` | apps/api/app/auth/password_authentication.py:170-209 | a password change begun under a session's bearer succeeds exactly when that session was live and current and its account active with a credential, the password verified, and at the end the account is active at the version seen and the session neither rotated, revoked nor expired; then the new hash stands, both versions are one higher, every session of the account is revoked with one event, and otherwise nothing changes |
| `CredentialOutcomes.NoSessionNoChange` | apps/api/app/auth/password_authentication.py:176-187 | a change begun under a bearer that finds no session never changes anything |
| `CredentialOutcomes.WriteBackLeaves` | apps/api/app/db/auth_http.py:182-186 | the write-back after a login replaces the CSRF digest of a live, current session of an active account and nothing else |
| `CredentialOutcomes.SessionCallLeaves` | migrations/versions/0015_security_event_wiring.py:142-154 | a session call in the protocol makes exactly its operation on the rows, unless it rotates to version zero, which the table refuses; deactivating an account changes nothing but its flag |
| `CredentialOutcomes.RequestOpensIff` | migrations/versions/0014_security_audit_contract.py:155-161 | a token of fifteen minutes is opened, and the older ones revoked, exactly for an active account with a fresh identifier and digest |
| `CredentialOutcomes.ResetCompletesIff` | migrations/versions/0015_security_event_wiring.py:154 | a reset completes exactly when a token with the digest is neither consumed nor revoked nor expired and its account has a credential; what it then leaves is given column by column, and otherwise nothing changes |
| `CredentialOutcomes.ResetWindow` | migrations/versions/0015_security_event_wiring.py:154 | a digest requested at some time completes no reset from fifteen minutes later on, whatever runs between, and before that does complete one unless another request for the account or a completion with the digest came first |
| `CredentialHistory.LoginLeaves` | apps/api/app/auth/password_authentication.py:127-162 | everything the final transaction leaves: the new session, the revocations of the cap with their events and a success event last, or one failure event; users, credentials, tokens and all other sessions as they were |
| `CredentialRuns.AlwaysCurrent` | migrations/versions/0015_security_event_wiring.py:142-154 | from an installation with accounts only, after any interleaving, every unrevoked session carries its owner's current version and reset tokens are as promised |
| `CredentialRuns.AlwaysCapped` | apps/api/app/auth/sessions.py:156-182 | the cap of five valid sessions holds from the last step on with logins, changes, resets, deactivations and session calls interleaved |
| `CredentialRuns.AlwaysAudited` | apps/api/app/auth/sessions.py:168-255 | so does the audit: sessions revoked by the cap, and those logged out, are each named by exactly one event, and no other session is |
| `CredentialRuns.StepTrail` | migrations/versions/0015_security_event_wiring.py:142-154 | each step of the protocol is one session operation, one mass revocation without a session event, or nothing, to sessions and session events |
| `CredentialHistory.RevokedStaysRevoked` | apps/api/app/db/auth_http.py:182-186 | no step, the HTTP login's write-back included, changes a revoked session |
| `CredentialHistory.ChangesTheAccountItSaw` | apps/api/app/auth/password_authentication.py:170-209 | the function is never told whose snapshot it was, yet a change that succeeds changes the account its snapshot was taken of, at the versions and hash seen |
| `CredentialHistory.OneChangePerVersion` | apps/api/app/auth/password_authentication.py:170-209 | two password changes of one user that both succeed saw different credential versions, the later a later one |
| `CredentialHistory.VersionsInLockstep` | migrations/versions/0015_security_event_wiring.py:145-154 | credential_version and security_version rise together, by the number of successful changes and resets, which is the number of password_changed events written |
| `CredentialHistory.StepInLockstep` | migrations/versions/0015_security_event_wiring.py:145-154 | one renewal raises both versions by one and no other step moves either |
| `CredentialHistory.FlightWaits` | apps/api/app/auth/password_authentication.py:112-162 | between its transactions a login's snapshot stays true unless the account's credential is renewed or it is deactivated |
| `CredentialHistory.StepSound` | migrations/versions/0015_security_event_wiring.py:142-154 | every step keeps sessions well formed and owned by known users at versions not above theirs |
| `ResetTokens.TokensStayOk` | migrations/versions/0014_security_audit_contract.py:154-161 | after any interleaving a user has at most one open token, no token is both consumed and revoked, digests are unique, and settled tokens never change |
| `ResetTokens.CompletesOnce` | migrations/versions/0015_security_event_wiring.py:154 | a digest completes at most once, however long the run between |
| `ResetTokens.CompletionClears` | migrations/versions/0015_security_event_wiring.py:154 | completion leaves the user no open token and no unrevoked session, and both versions one higher |
| `CredentialService.CredentialDatabase.ApplyPasswordChange` | migrations/versions/0015_security_event_wiring.py:146 | renews, revokes and audits for the owner of the session under the digest, exactly when that account and session still agree with the versions and hash seen; otherwise changes nothing |
| `CredentialService.CredentialDatabase.IssueSession` | apps/api/app/auth/password_authentication.py:151-153 | the login's session is issued by the session service's own statements, eviction loop included, in the login's transaction |
| `CredentialService.CredentialDatabase.CompletePasswordReset` | migrations/versions/0015_security_event_wiring.py:154 | answers true exactly when a token with the digest is unconsumed, unrevoked and before its expiry and its account has a credential, and then performs the whole completion; otherwise changes nothing |
| `CredentialService.CredentialDatabase.RequestPasswordReset` | migrations/versions/0014_security_audit_contract.py:155-161 | opens a token and revokes the older ones exactly for an active account with fresh identifiers, or changes nothing |
| `CredentialService.PasswordAuthenticationService.BeginLogin` | apps/api/app/auth/password_authentication.py:112-123 | is the protocol's snapshot step, whose outcome LoginSucceedsIff states from the account, and keeps its invariants |
| `CredentialService.PasswordAuthenticationService.FinishLogin` | apps/api/app/auth/password_authentication.py:127-162 | is the protocol's final login step: a session for the confirmed snapshot, or a failure event |
| `CredentialService.PasswordAuthenticationService.BeginChange` | apps/api/app/auth/password_authentication.py:176-187 | is the protocol's snapshot step of a password change |
| `CredentialService.PasswordAuthenticationService.FinishChange` | apps/api/app/auth/password_authentication.py:188-209 | is the protocol's final step of a password change and answers whether it succeeded |
| `CredentialService.PasswordAuthenticationService.WriteBack` | apps/api/app/db/auth_http.py:182-186 | rereading the live session and writing the whole row back is the protocol's write-back step |
| `AuditContract.ContractMeansPolicyIff` | apps/api/app/audit/schema.py:25-38 | for any policy table: the generated contract is TRUE exactly where the Python policy check accepts and FALSE elsewhere, on every row with a type and a result, if and only if every policy allows the absent reason and no name or result holds a quote; a name whose quote ends its literal early is read as an unknown comparison |
| `AuditContract.MeaningNeedsQuoteFree` | apps/api/app/audit/schema.py:32 | a contract that means the policy check was made from names and results without a quote, because they go into their literals as they are; a literal ended early by a quote is read as an unknown comparison, where its text would be parsed as other SQL |
| `AuditContract.DemandedReasonIsNotEnforced` | apps/api/app/audit/schema.py:28-30 | a table that fails the condition: SQL stores an event without its demanded reason, the validator refuses it |
| `AuditContract.ContractMeaning` | apps/api/app/audit/schema.py:25-38 | without quotes in its names, the generated contract is TRUE or FALSE, never NULL, on every row with a type and a result, and TRUE iff the row's own policy passes it |
| `AuditContract.ReasonMeaning` | apps/api/app/audit/schema.py:27-30 | the reason check, with or without its list, is decided for every row |
| `AuditContract.BuildEventChecks` | apps/api/app/audit/schema.py:25-33 | the loop over the table appends one check per policy, in its order |
| `AuditContract.AnyOfDecided` | apps/api/app/audit/schema.py:38 | joining decided checks by OR is the disjunction |
| `AuditContract.UuidGroups` | apps/api/app/audit/schema.py:35-44 | a well formed identifier, group by group as the table's patterns read it |
| `AuditCatalogue.ValidatorAndChecksAgree` | apps/api/app/audit/contracts.py:273-334 | an event's row passes the casts into its columns and all twelve checks exactly when the validator accepts the event and the two identifiers are well formed |
| `AuditCatalogue.ChecksDecided` | apps/api/app/audit/schema.py:35-74 | once type and result are non-null no check is ever NULL |
| `AuditCatalogue.ChecksMeaning` | apps/api/app/audit/schema.py:35-74 | the conjunction of all checks is TRUE exactly for the rows that conform to the catalogue |
| `AuditCatalogue.CatalogueCovered` | apps/api/app/audit/contracts.py:118-187 | the policy table covers exactly the 22 event types, every policy allows the absent reason, and every named reason and result is catalogued |
| `AuditCatalogue.PolicyMeaning` | apps/api/app/audit/contracts.py:282-284 | on the real table the contract check is the validator's policy lookup |
| `AuditCatalogue.IdentityShapeMeaning` | apps/api/app/audit/schema.py:45-49 | what the identity check means on a typed row |
| `AuditCatalogue.RoleShapeMeaning` | apps/api/app/audit/schema.py:50-53 | what the role and target-membership checks mean on a typed row |
| `AuditCatalogue.PermissionMeaning` | apps/api/app/audit/schema.py:54-60 | what the two permission checks mean on a typed row |
| `AuditCatalogue.SubjectShapeMeaning` | apps/api/app/audit/schema.py:61-66 | what the subject check means, NULL columns included |
| `AuditCatalogue.AffectedCountMeaning` | apps/api/app/audit/schema.py:67-73 | what the affected-count check means on a typed row |
| `SqlLiterals.ReadValues` | apps/api/app/audit/schema.py:18-19 | reading a rendered list by section 5.3 of ISO/IEC 9075-2 gives exactly the sorted strings, quotes included, and the text is empty only for the empty list |
| `SqlLiterals.SortedOrders` | apps/api/app/audit/schema.py:19 | the sorted list is ordered and holds each string as often as the input |
| `SqlLiterals.ScanDoubled` | apps/api/app/audit/schema.py:19 | whatever scans as a literal is its value with quotes doubled, its closing quote and the rest, so scanning has no other preimage |
| `SqlLiterals.ValuesInjective` | apps/api/app/audit/schema.py:18-19 | two collections with the same text hold the same strings equally often |
| `RoleEventRows.RoleEventsValidate` | apps/api/app/audit/contracts.py:273-334 | the validator accepts a role event exactly when it has a target or permission just where its kind needs one and the permission is catalogued |
| `RoleEventRows.CallEventsPass` | apps/api/app/services/role_administration.py:294-312 | the event of each of the seven calls, for every actor and argument, passes the casts and all twelve checks of the audit table exactly when its two identifiers are well formed |
| `AuditMigration.PoliciesAreFrozen` | migrations/versions/0015_security_event_wiring.py:25 | the policy table accepts an event's result and reason exactly when a disjunct of the event contract frozen in the database does, for every event, result and reason |
| `ModelEventRows.SessionEventsValid` | apps/api/app/auth/sessions.py:152-297 | every event a session operation writes is one the validator accepts |
| `ModelEventRows.CredentialEventsValid` | apps/api/app/auth/password_authentication.py:112-209 | so is every event a step of the credential protocol writes |
| `ModelEventRows.ThrottleEventsValid` | apps/api/app/auth/controls.py:98-113 | so is the denial of every throttle scope, and the failure it causes |
| `ModelEventRows.PruningEventsValid` | migrations/versions/0016_security_audit_retention.py:23 | so is the report of every retention batch |
| `Throttle.FirstCallsAdmitted` | migrations/versions/0009_auth_security_controls.py:109-119 | a call is allowed exactly when it is among the first limit calls of its window |
| `Throttle.CountersCountCalls` | migrations/versions/0009_auth_security_controls.py:112-118 | each counter is the number of calls its window has seen |
| `Throttle.BurstBound` | apps/api/app/auth/controls.py:38-45 | any interval of one window length holds at most twice the limit of allowed calls for a subject |
| `Throttle.RetryAfterReachesNextWindow` | migrations/versions/0009_auth_security_controls.py:118-119 | the advised wait is between one second and the window, waiting it out reaches a later window, and a whole second less would not have had to |
| `Throttle.LoginSpendsAllThree` | apps/api/app/auth/password_authentication.py:94-101 | a login attempt advances by one the counters of its user name and of address and user name together in their fifteen-minute windows and of its address in its minute, whatever the verdicts, and no other |
| `Throttle.ScopesAdmit` | apps/api/app/auth/controls.py:38-45 | the limit and window of each of the six scopes in figures, as the number of like calls in the same window |
| `Throttle.ThrottleStore.Consume` | apps/api/app/auth/controls.py:77-113 | the upsert, the verdict and the denial event of one call |
| `Throttle.ThrottleStore.ConsumeLogin` | apps/api/app/auth/password_authentication.py:90-111 | the login's first transaction spends all three quotas, writes one denial for each refused and one failure if any was |
| `Retention.QuietTotals` | apps/api/app/maintenance/security_audit_retention.py:114-141 | E expired rows, batch b, limit m, fixed backlog: E <= b*m drains E rows in max(1, ceil(E/b)) batches, otherwise b*m rows go in m batches and the run is incomplete |
| `Retention.QuietSurvivors` | migrations/versions/0016_security_audit_retention.py:23 | the survivors are exactly the rows not among the b*m oldest expired ones, unchanged, plus the run's own events |
| `Retention.QuietReports` | migrations/versions/0016_security_audit_retention.py:23 | one event per nonempty batch, ceil(deleted / b) of them |
| `Retention.RunConserves` | apps/api/app/maintenance/security_audit_retention.py:114-141 | whatever the locks, clocks, failures and rows other writers insert between batches, the reported total is the sum of the run's events' counts, and the rows left plus that sum are the rows before plus those that arrived plus one event a nonempty batch |
| `Retention.DrainedMeansEmpty` | apps/api/app/maintenance/security_audit_retention.py:134-138 | drained is never reported while a row over ninety days old at the last batch, locked or not, is left |
| `Retention.PruneFits` | migrations/versions/0016_security_audit_retention.py:23 | a batch deletes no more than asked, only unlocked rows more than ninety days older than the transaction time, so the runner's response check never fires |
| `Retention.OldRowsGo` | migrations/versions/0016_security_audit_retention.py:23 | a row of ninety days or more that nobody holds is gone after a committed batch unless a full batch of rows older still went instead |
| `Retention.BatchFailsIff` | migrations/versions/0016_security_audit_retention.py:23 | a batch fails exactly on a size outside 1 to 1000, a lost transaction, or a used identifier for a report it has to write |
| `Retention.PruneTells` | migrations/versions/0016_security_audit_retention.py:23 | remaining is reported exactly when a row over ninety days old is left, locked or not |
| `Retention.YoungRowsSurvive` | apps/api/app/maintenance/security_audit_retention.py:114-141 | a row under ninety days old at every batch of a run is there, unchanged, when the run ends |
| `Retention.AuditDatabase.PruneSecurityEvents` | migrations/versions/0016_security_audit_retention.py:23 | one batch deletes the oldest expired unlocked rows and records itself, or changes nothing; rows under ninety days old stay as they are in any case |
| `Retention.RunBatches` | apps/api/app/maintenance/security_audit_retention.py:114-141 | the loop computes the specified run |
| `SettingsTickets.TicketsHold` | apps/web/src/ui-customization/UiCustomizationProvider.tsx:46-114 | in any order of load results, store results and notices, while mounted: settings shown as ready are what the load of the newest ticket brought, busy is saving with the newest ticket in flight, loading has the newest ticket in flight, and a store request was built on the load just before it |
| `SettingsTickets.EditsStore` | apps/web/src/ui-customization/UiCustomizationProvider.tsx:92-127 | an edit is accepted exactly on shown, editable settings that are not being saved; it stores the whole loaded layer with that one key set or cleared at the version loaded, removes a layer left empty, and only loads again when there was none |
| `SettingsTickets.FailuresShown` | apps/web/src/ui-customization/UiCustomizationProvider.tsx:19-28 | which status each failure shows |
| `SettingsTickets.NeverStuck` | apps/web/src/ui-customization/UiCustomizationProvider.tsx:53-114 | with nothing in flight the page is neither loading nor saving nor busy |
| `SettingsTickets.StaleSettles` | apps/web/src/ui-customization/UiCustomizationProvider.tsx:59-65 | a request that lost the newest ticket changes nothing visible when it settles |
| `SettingsTickets.NewestSettles` | apps/web/src/ui-customization/UiCustomizationProvider.tsx:92-114 | when the newest request settles, loading or saving ends at once, and a failed store keeps no optimistic value |
| `SettingsTickets.NothingLandsUnmounted` | apps/web/src/ui-customization/UiCustomizationProvider.tsx:69-86 | after unmounting nothing lands until the next mount |
| `SettingsTickets.StepKeepsGood` | apps/web/src/ui-customization/UiCustomizationProvider.tsx:46-114 | every step keeps tickets distinct and issued and the status consistent with them |
| `SettingsTickets.UiCustomizationProvider.Reload` | apps/web/src/ui-customization/UiCustomizationProvider.tsx:53-57 | takes a new ticket, shows the stand-in and puts one load in flight |
| `SettingsTickets.UiCustomizationProvider.LoadSettled` | apps/web/src/ui-customization/UiCustomizationProvider.tsx:58-66 | the code after the await is the protocol's settlement step |
| `SettingsTickets.UiCustomizationProvider.Persist` | apps/web/src/ui-customization/UiCustomizationProvider.tsx:92-102 | ignored unless editable; otherwise one store request with the shown layer's version, or straight to a reload |
| `SettingsTickets.UiCustomizationProvider.PersistSettled` | apps/web/src/ui-customization/UiCustomizationProvider.tsx:103-111 | the code after the await, with its finally, is the protocol's settlement step |
| `SettingsTickets.UiCustomizationProvider.Notify` | apps/web/src/ui-customization/UiCustomizationProvider.tsx:74-80 | an authentication notice voids everything in flight |
| `SettingsTickets.UiCustomizationProvider.Unmount` | apps/web/src/ui-customization/UiCustomizationProvider.tsx:69-72 | takes a ticket and withdraws availability, and leaves busy as it is |
| `SettingsResolution.SearchIsCleanedOverlay` | apps/web/src/ui-customization/resolution/resolveUiSettings.ts:47-75 | for all layers the browser's result is the server's resolution of the layers with their invalid entries removed |
| `SettingsResolution.ResolutionsAgreeIff` | apps/web/src/ui-customization/resolution/resolveUiSettings.ts:56-72 | the two resolutions agree, values and origins, exactly when for each key the highest layer holding it holds a valid value or only the built-in default is in play |
| `SettingsResolution.ValidLayersAgree` | apps/api/app/ui_settings/service.py:81-90 | so they agree on all layers whose every entry is valid |
| `SettingsResolution.OverlayTakesHighest` | apps/api/app/ui_settings/service.py:81-90 | overwriting upwards leaves each key with the value and name of the highest layer that holds it |
| `SettingsResolution.ResolveOnServer` | apps/api/app/ui_settings/service.py:81-90 | the loops compute the overlay, in whatever order a layer's items come |
| `SettingsResolution.ResolveInBrowser` | apps/web/src/ui-customization/resolution/resolveUiSettings.ts:47-75 | the nested loops with their break compute the search |

## Left out

- FastAPI routes, cookies, Origin and CSRF header checks, membership selection over HTTP, error envelopes, logging and configuration: request plumbing with single-branch claims.
- Argon2, HMAC, SHA-256, base64 and UUID generation: digests are injective, tokens and identifiers are fresh values supplied by the caller; password verification is a verdict supplied by the caller.
- Row locks, advisory locks, MVCC and enforcement of row-level security: a database function or locked transaction is one step, except in `RoleConcurrency`, where a write waits for transactions that changed the same row or key and sees committed rows; row-level security is a tenant filter on the tables.
- RoleAdministration.LogRebuildsTables: is, like its interleaved form, about runs of the service and unpruned logs, because with no intent armed the trigger lets a change by other SQL pass; tenant, key and display name are not rebuilt, because the events do not carry them.
- Integer widths of version columns and of the throttle counter: they are unbounded here, where the database would raise at 2^31 or 2^63.
- The dictionary's iteration order in the memory store: the list of active sessions is sorted before it is used, or used for revocations that commute.
- Failures of a session-store statement other than its constraints, such as a lost connection; a refused statement rolls the whole call back.
- In the credential protocol a rotation to another user's membership goes through, where the table would refuse it: `Credentials` has no memberships, and its theorems hold with these extra steps.
- Pre-authentication CSRF states: issue and one-time consumption, which share nothing with the session invariants.
- Lookup of an account by email address: the account found, if any, is a parameter of the login and reset steps.
- The throttling of a login inside the credential protocol: it is its own transaction before the snapshot and is modelled in `Throttle` alone.
- Cleanup of expired throttle buckets and reset tokens, and cascades from deleted tenants, users and memberships.
- Python's dynamic checks of argument types in the writer and the validator: the types of the model settle them.
- A name or result whose quotes end its literal early: the comparison is unknown in the model, where the text would no longer be one comparison.
- RoleAdministrationService.RoleDatabase.AppendSecurityEvent: checks an identifier for use and takes its version 7 format as given; with that format the row checks always pass, by `RoleEventRows.CallEventsPass`.
- The pg_roles privilege test, grants, index creation and downgrades of the migrations: catalogue administration.
- Response-shape checks of the retention runner other than the count bound: the function returns one row of two typed columns.
- Unicode whitespace in role display names: blank means space, tab, line feed or carriage return.
- SettingsTickets.TicketsHold: leaves React scheduling out, so a state setter and the ref it mirrors change together, and consumers call the provider only while it is mounted.
- Stored UI-settings versions as an identity of content: deleting and recreating a layer starts again at version 1.
- Status-transition tables, slug and email patterns, health probes, translations and the design system: finite or one-branch facts.
