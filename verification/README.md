# EnvVault: a verified model

EnvVault is a multi-tenant secret store: FastAPI services over PostgreSQL with row level
security. This project models its services, its policies and its constraints, and proves what
they promise together. `dafny verify dfyconfig.toml` checks all of it.

The tables are maps from row id to row (`Schema`). A query or a write goes through a `Gate`: the
two settings `app.current_user_id` and `app.current_org_id`, and whether the database role is
subject to policies (`Policies`, `Repositories`). Each service call is specified as a function of
the state (`Services`) and carried out step by step by a class over a unit of work
(`SecretService`, `EnvironmentService`, `ProjectService`, `MembershipService`,
`OrganizationService`, `UnitOfWork`). `Calls` makes calls data, so that a run is a sequence, and
`Requests.Serve` proves that the classes serving a list of requests perform exactly that run.
Everything drawn at random (ids, IVs, DEKs, nonces, raw tokens) and every clock reading is an input.
The one unit of work class serves the tenant tables and the token tables, which have no policies and
share only the accounts.

What is proved, by part:

- **The vault.** The tables, keys and ciphertexts refine a map from secret to the list of its
  plaintexts (`Vault`, `VaultRuns`, `Writes`). Version allocation stays correct when any number of
  writers interleave their reads and commits (`Allocation`). The audit table accounts for every
  reveal (`Audit`). The cipher is any authenticated cipher in the sense of sections 7.1 and 7.2 of
  NIST SP 800-38D (`Envelope`).
- **Policies against services.** The nested policies have a closed form (`Policies`); enforcing them
  changes nothing the services do, with one exception (`Agreement`); and a call depends on and
  touches its own organization only, up to collisions of drawn ids (`Isolation`, `Interference`).
- **Ownership.** No run leaves an organization without an owner, and only owners enlarge the
  privileged set (`Ownership`, `Grants`).
- **Every call.** Each call's answers, exceptions and changes are given exactly over the rows, with
  policies and without (`Reads`, `Writes`, `Creations`, `Changes`, `Grants`, `Credentials`), so no
  run ends in an unexpected exception (`Answers`).
- **Refresh tokens.** The scheme of section 4.14.2 of RFC 9700: the small mutable table agrees with a
  predicate over the whole history, and reuse ends every session of the user (`Tokens`,
  `AuthService`, `TokenHistory`, `Rotation`).
- **Context and rate limits.** Units of work sharing pooled connections never see each other's
  context (`ConnectionPool`). The two limiters agree, and the window has an exact bound (`Limiter`,
  `FixedWindow`).

Where the code and its documentation, or an expectation one may have of it, disagree, the model
follows the code:

- An admin removing its own membership passes the service, but the DELETE policy hides the row, so
  the call succeeds and nothing changes (`Agreement.SelfRemovalDiffers`).
- Creating a secret under the name of a deleted one passes the pre-check and fails on the unique
  constraint, as an internal error (`Writes.CreateSecretAnswers`).
- `environment.py` raises its own `ProjectNotFoundError`, which the status map does not list, so it is
  reported as 500 instead of 404.
- `create_organization_with_owner` reports a missing user with the code of a foreign key violation,
  which the service then reports as a taken slug.
- A fixed window forgets the hits of the one before: "denied only after exactly the limit in the
  last window length" is false (`FixedWindow.WindowsForgetTheirPast`), and
  `FixedWindow.DeniedAfterExactlyLimitIff` says when it holds.
- A refresh whose new token collides with a stored one commits nothing, so the token presented stays
  valid, and presenting it once more is no reuse (`Rotation.TwoPresentationsInARow`).
- Organizations share the id space of each table, so a drawn id can collide with a row of another
  organization, and the collision shows. That is the only way one organization's calls depend on
  another's rows (`Interference.InterferesIffCollisionsDiffer`, `Interference.CollisionsShow`).
- The migrations are the schema. `ddl.sql` still has the narrow membership policy and no `deleted_at`.

## Model

| member | source | states |
|---|---|---|
| Envelope.UnwrapInvertsWrap | backend/app/core/security/kms/local.py:41-73 | unwrapping accepts a byte string and yields a DEK if and only if it is a wrapping of that DEK under some 12-byte nonce, so the length-28 guard rejects nothing honest |
| Envelope.WrappedDekIsUsable | backend/app/services/crypto.py:18-28 | a created wrapped DEK is 60 bytes and unwraps to the 256-bit DEK it was made from |
| Envelope.EnvelopeRoundTrip | backend/app/services/crypto.py:30-72 | under a usable wrapped key every text encrypts with every IV, and decrypting undoes it |
| Envelope.OnlyCiphertextsDecrypt | backend/app/services/crypto.py:53-72 | whatever decrypts was encrypted, byte for byte, under that DEK and IV |
| Envelope.ToySuiteIsAuthenticated | backend/app/services/crypto.py:8-16 | the assumption made of the cipher and the encoding can be met |
| Policies.BelongsClosedForm | backend/alembic/versions/d4a1b72e9c08_safe_uuid_casting_for_rls_guc_settings.py:40-53 | the restrictive guard holds exactly when both settings are present and name a membership |
| Policies.NestedPoliciesClosedForm | backend/alembic/versions/d4a1b72e9c08_safe_uuid_casting_for_rls_guc_settings.py:226-510 | a project, environment, secret, version or key row is visible under the nested policies if and only if its parent chain reaches the context organization and the context user is a member there |
| Policies.EmptyContextSeesNothing | backend/alembic/versions/412ab868f224_initial_schema.py:500-558 | with either setting empty no row of a tenant table can be read or written |
| Policies.MembershipSelectClosedForm | backend/alembic/versions/a1f2b3c4d5e6_widen_memberships_select_for_org_peers.py:30-65 | the widened policy shows the user its own memberships and, when the context reaches the organization, all of that organization, and nothing else |
| Policies.RolePoliciesClosedForm | backend/alembic/versions/d4a1b72e9c08_safe_uuid_casting_for_rls_guc_settings.py:65-210 | the INSERT, UPDATE and DELETE policies of memberships and the SELECT and UPDATE policies of organizations, in terms of the context user's true role, both directions; without a user they let nothing through |
| Policies.AuditPolicyClosedForm | backend/alembic/versions/d4a1b72e9c08_safe_uuid_casting_for_rls_guc_settings.py:565-605 | an audit entry is readable and writable if and only if the context reaches its organization |
| Integrity.StepKeepsConstraints | backend/alembic/versions/412ab868f224_initial_schema.py:100-240 | every call keeps every unique and foreign key constraint, the one-active-key index and the current-version trigger |
| Integrity.ReachableKeepsConstraints | backend/alembic/versions/412ab868f224_initial_schema.py:327-384 | so they hold after any run |
| Reachable.RunIsWellFormed | backend/app/services/secret.py:88-122 | after any run every version was written under a key of its own secret's environment, which no constraint demands |
| Frames.Frame | backend/app/services/secret.py:66-249 | each family of calls changes only its own tables |
| UnitOfWork.SqlAlchemyUnitOfWork.Commit | backend/app/core/uow.py:109-114 | publishes the whole view and sets the context again, or, when a deferred check fails, publishes nothing and leaves an empty context |
| UnitOfWork.SqlAlchemyUnitOfWork.FlushAndCommit | backend/app/core/uow.py:109-118 | a pending change is flushed and everything published, or nothing of it |
| UnitOfWork.TriggerAgrees | backend/alembic/versions/412ab868f224_initial_schema.py:327-345 | the deferred trigger, whose query is filtered by policies, passes if and only if the check of all pointers without policies does |
| UnitOfWork.WrittenSecretIsSeen | backend/app/services/secret.py:116-122 | a pointer is only written on a secret the context sees, which is what that agreement rests on |
| UnitOfWork.SqlAlchemyUnitOfWork.Exit | backend/app/core/uow.py:99-107 | leaving the block drops whatever was not committed, and the context |
| UnitOfWork.SqlAlchemyUnitOfWork.SetRlsContext | backend/app/core/database.py:19-37 | both settings become the unit's own |
| Rbac.RequireOrgRole | backend/app/services/rbac.py:26-54 | the role check on the unit's view: the visible membership of sufficient rank, or which of the two errors |
| Vault.RoleMeans | backend/app/services/rbac.py:26-54 | the check passes if and only if the actor has the role or a higher one; otherwise it raises MembershipRequired for an outsider and InsufficientRole for a member |
| Grants.RoleNames | backend/app/services/rbac.py:6-11 | each role name means its role and no other name means any; the ranks are in order |
| SecretService.SecretService.CreateSecret | backend/app/services/secret.py:66-123 | commits exactly the state of the specification and answers as it does, or raises its exception with the committed state unchanged |
| SecretService.SecretService.AddNewVersion | backend/app/services/secret.py:125-166 | the same for a new version, numbered from the latest |
| SecretService.SecretService.FinishVersion | backend/app/services/secret.py:106-123 | the shared end: insert the version, move the pointer, commit, or nothing |
| SecretService.SecretService.ListSecrets | backend/app/services/secret.py:168-181 | answers with the visible, not deleted secrets of the environment and changes nothing |
| SecretService.SecretService.GetDecryptedValue | backend/app/services/secret.py:183-222 | commits one audit entry and returns the decrypted text, or raises and commits nothing |
| SecretService.SecretService.DeleteSecret | backend/app/services/secret.py:224-249 | commits the secret marked deleted, or raises and commits nothing |
| EnvironmentService.EnvironmentService.Create | backend/app/services/environment.py:34-75 | environment and active key are committed together or not at all; only a violation at commit is turned into the name conflict |
| EnvironmentService.EnvironmentService.List | backend/app/services/environment.py:77-89 | the visible environments of a project of the organization, or the error |
| EnvironmentService.EnvironmentService.Get | backend/app/services/environment.py:91-107 | the environment when its project belongs to the organization, or the error |
| ProjectService.ProjectService.Create | backend/app/services/project.py:21-54 | commits one project, with the slug conflict found by the pre-check or by the constraint |
| ProjectService.ProjectService.Update | backend/app/services/project.py:80-118 | commits the changed row, or nothing when the row is unchanged or the slug is taken |
| MembershipService.MembershipService.Invite | backend/app/services/membership.py:56-96 | commits one membership of the invited role, or raises and commits nothing |
| MembershipService.MembershipService.UpdateRole | backend/app/services/membership.py:98-137 | commits one changed role in the order of the checks, or raises and commits nothing |
| MembershipService.MembershipService.Remove | backend/app/services/membership.py:139-163 | commits one removal, silently none when the policy hides the row from DELETE |
| OrganizationService.OrganizationService.CreateWithOwner | backend/alembic/versions/c3f8a91d2e47_add_create_organization_with_owner.py:54-92 | the two guards and two inserts, run without policies |
| OrganizationService.OrganizationService.Create | backend/app/services/organization.py:25-45 | commits an organization with its owner, or reports the slug as taken and commits nothing |
| OrganizationService.OrganizationService.Update | backend/app/services/organization.py:59-88 | commits the changed row, with the slug conflict found by the pre-check or by the constraint |
| Requests.Handle | backend/app/core/uow.py:79-114 | a request (enter, call, exit) on the classes does what one step of the model does, whatever the call |
| Requests.Serve | backend/app/core/uow.py:61-122 | serving any list of requests one by one reaches the state and the responses of the model's run |
| Vault.StepRefines | backend/app/services/secret.py:66-249 | every call, with policies in force or not, is a step of the map from secret to list of plaintexts |
| Vault.RepresentationIsUnique | backend/app/services/secret.py:147-164 | the tables determine that map |
| Vault.RevealReadsLastWrite | backend/app/services/secret.py:183-222 | a reveal succeeds if and only if the actor is a member or above and the secret is live in the organization; it returns the last plaintext, and the branches for a missing version or key are unreachable |
| VaultRuns.RunRefines | backend/app/services/secret.py:22-249 | after any run from the empty database the tables represent the map the answers describe |
| VaultRuns.RevealReturnsLastWrite | backend/app/services/secret.py:209-222 | in any run a successful reveal returns the plaintext of the last successful write before it |
| VaultRuns.LiveSecretsCanBeRevealed | backend/app/services/secret.py:183-222 | in any run a secret created and not deleted since can be revealed by every member or above |
| VaultRuns.NamesAreUsedOnce | backend/app/services/secret.py:83-102 | in any run at most one creation succeeds per environment and name, also after deletion |
| VaultRuns.EntryHistory | backend/app/repositories/secret.py:41-51 | a secret is in the map with a name exactly when it was created with it, and deleted exactly when it was deleted |
| VaultRuns.ListingShowsLiveSecrets | backend/app/services/secret.py:168-181 | in any run a listing is given to every viewer or above of the environment's organization, and to nobody else, and shows exactly the secrets created there and not deleted |
| Writes.CreateSecretAnswers | backend/app/models/secret.py:62-69 | each answer of create_secret and exactly when it is given: a live name is refused by the pre-check, a deleted one by the constraint, and no other branch is reachable |
| Writes.AddNewVersionAnswers | backend/app/services/secret.py:125-166 | add_new_version fails only on the role, the secret, or a collision of the drawn id or IV |
| Writes.DeleteSecretAnswers | backend/app/services/secret.py:224-249 | delete succeeds if and only if the actor may use the secret, and otherwise raises exactly the exception of the check that fails |
| Writes.RevealAnswers | backend/app/services/secret.py:183-222 | the answer of every reveal: the last value written, or exactly the exception of the check that fails |
| Writes.RefusalIsExact | backend/app/services/secret.py:54-64 | whoever may not use a secret changes nothing by adding a version, revealing or deleting, and gets that one exception, with policies and without |
| Creations.CreateEnvironmentAnswers | backend/app/services/environment.py:34-75 | each answer of environment creation, exactly when it is given, and the two rows added; a colliding key id is reported as a name conflict, a colliding environment id is not |
| Creations.CreateOrganizationAnswers | backend/app/services/organization.py:25-45 | the same for organizations: every collision, and an unknown user, is reported as a taken slug |
| Creations.Bootstrap | backend/alembic/versions/c3f8a91d2e47_add_create_organization_with_owner.py:54-92 | the SQL function from any context: refused unless the context user is the owner named; every other fault is a constraint violation; otherwise exactly the two rows |
| Creations.CreateProjectAnswers | backend/app/services/project.py:21-54 | the same for projects: who may create one, when the slug or the drawn id is taken, and the one row added |
| Creations.RegistersExactly | backend/app/services/auth.py:44-71 | registration is refused if and only if the email or the drawn id is taken, and otherwise adds one active account with the password's hash |
| Changes.UpdateProjectAnswers | backend/app/services/project.py:80-118 | each answer of a project update and exactly when it is given; each field of the row is the new value if one was given and the old one if not, and nothing else changes |
| Changes.UpdateOrganizationAnswers | backend/app/services/organization.py:59-88 | the same for organizations, where a slug another organization has is refused whether the caller sees that organization or not |
| Reads.ReadsShowExactly | backend/app/services/environment.py:77-107 | every listing and lookup of secrets, environments, projects and members changes nothing and answers every viewer or above with exactly the rows asked for, and everybody else with exactly its exception |
| Answers.OnlyExpectedErrors | backend/app/api/exception_handlers.py:34-55 | in any run a call fails only with an exception of the status map, with that status, or as an internal error with a constraint violation or the environment service's project error; no policy refusal, stale row, trigger error, missing key or version, or cipher failure occurs |
| Allocation.EventKeepsInv | backend/app/services/secret.py:147-164 | reads, commits and whole calls of any number of writers, interleaved, keep the refinement |
| Allocation.InterleavedVersionsStayContiguous | backend/app/models/secret.py:106 | in every committed state each secret has versions 1..n with the pointer on n, n counting the committed writes |
| Allocation.CommitsIffNoneSince | backend/app/models/secret.py:103-111 | a waiting writer commits if and only if its number is still the next, its drawn id and IV are unused, and under policies its actor is still a member |
| Allocation.WriterCommitsIffNoneBetween | backend/app/services/secret.py:147-164 | in any interleaved run, a writer that reads at one event and finishes at a later one commits if and only if no version of its secret was committed in between, its draws are unused by then, and under policies its actor is then a member |
| Audit.RevealIsRecorded | backend/app/services/secret.py:209-222 | a successful reveal appends one entry naming actor, secret and the version whose value was returned |
| Audit.OneEntryPerReveal | backend/app/repositories/audit.py:12-31 | every other call, and every failed one, leaves the audit table alone |
| Audit.AuditAccounts | backend/app/services/secret.py:209-222 | after any run the entries of a secret number its successful reveals |
| Audit.AuditOnlyGrows | backend/alembic/versions/412ab868f224_initial_schema.py:384-407 | over any run the audit table is only extended |
| Audit.RunExtends | backend/app/models/secret.py:13-60 | no call alters a stored version or the wrapped DEK of a stored key |
| Audit.WrittenVersionsDecrypt | backend/app/services/secret.py:88-122 | whatever follows a successful write, switches of the active key included, the version it made decrypts under the key it names to the very text that was written |
| Audit.StoredVersionsStayReadable | backend/app/models/secret.py:103-111 | a stored version never changes, nor what it decrypts to, and shares its key and IV with no other |
| Audit.KeyAndIvDetermine | backend/app/models/secret.py:107-111 | no two stored versions share a key and an IV |
| Agreement.StepAgrees | backend/alembic/versions/d4a1b72e9c08_safe_uuid_casting_for_rls_guc_settings.py:55-155 | from a reachable state a call gives the same state, value and HTTP status with policies as without, if and only if it is not an admin removing itself; that one succeeds and changes nothing under policies |
| Agreement.RunsAgree | backend/app/services/rbac.py:46-54 | over a whole run without such a removal the two layers agree on state and answers |
| Agreement.SelfRemovalDiffers | backend/alembic/versions/d4a1b72e9c08_safe_uuid_casting_for_rls_guc_settings.py:133-155 | what an admin's removal of itself does with and without policies |
| Agreement.SameResponseSameStatus | backend/app/api/exception_handlers.py:34-55 | the two 404 errors that may differ are one status |
| Agreement.CreateOrganizationAgrees | backend/alembic/versions/c3f8a91d2e47_add_create_organization_with_owner.py:54-92 | bootstrap through the SECURITY DEFINER function is the same with policies as without |
| Isolation.NonInterference | backend/app/services/secret.py:34-64 | two states with the same rows of the organization, and the drawn ids equally free, give equal responses and again the same rows |
| Isolation.OnlyOccupancyShows | backend/app/services/environment.py:43-75 | a call that succeeds in one of two such states succeeds in the other if and only if its drawn ids are free there |
| Interference.InterferesIffCollisionsDiffer | backend/app/services/secret.py:34-164 | between two states with the same rows of the organization, every secret or environment call gets the same answer and leaves the same rows if and only if it is refused before it draws ids or its draws run into the same error in both; with policies or without |
| Interference.AnswerIsDecided | backend/app/services/environment.py:43-75 | with policies in force a writing call is refused whatever it draws, or answers its draws' collision, or succeeds, and which of these is read off the state before it |
| Interference.CollisionsShow | backend/app/services/environment.py:56-75 | two such states in which one environment creation fails with different statuses, because the neighbours hold its id in one and its key's id in the other |
| Isolation.OtherOrganizationsUntouched | backend/app/services/environment.py:34-107 | a secret or environment call changes no row of another organization |
| Ownership.OwnerCountIsTrue | backend/app/repositories/membership.py:42-52 | a member's owner count under the widened policy is the number of owners |
| Ownership.EveryOrganizationHasAnOwner | backend/app/services/membership.py:126-163 | after any run every organization has an owner |
| Ownership.LastOwnerRefusal | backend/app/services/membership.py:126-160 | an owner is refused the demotion or removal of an owner if and only if there is no other |
| Ownership.OnlyOwnersGrantPrivilege | backend/app/services/membership.py:65-135 | over any stretch without a call by an owner the owners stay the same and owners and admins only become fewer |
| Grants.InviteAddsExactly | backend/app/services/membership.py:56-96 | each answer of an invitation and exactly when it is given, an unknown email included, and the one row added |
| Grants.UpdateRoleChangesExactly | backend/app/services/membership.py:98-137 | each answer of a role change and exactly when it is given; a change changes that one role and answers the row as stored |
| Grants.RemoveTakesExactly | backend/app/services/membership.py:139-163 | each answer of a removal and exactly when it is given, and what is taken away |
| AuthService.AuthService.Login | backend/app/services/auth.py:73-99 | an unrevoked token for an active account with the right password, or the error with nothing committed |
| AuthService.AuthService.IssueTokenPair | backend/app/services/auth.py:161-175 | one new token, committed with the revocations before it, or nothing of either |
| AuthService.AuthService.Refresh | backend/app/services/auth.py:101-136 | the five branches in order, with the state each commits |
| AuthService.AuthService.Logout | backend/app/services/auth.py:138-150 | revokes the one token; unknown or revoked ones change nothing |
| AuthService.AuthService.LogoutAll | backend/app/services/auth.py:152-159 | revokes every token of the user and of nobody else |
| Credentials.LoginChecksThePassword | backend/app/services/auth.py:73-99 | a login succeeds if and only if the password is that of the account with the email, the account is active and the drawn token is new; it adds exactly one row; each failure has its exception and changes nothing |
| Credentials.LogoutRevokesTheToken | backend/app/services/auth.py:138-150 | a logout always answers the same, revokes the token presented and no other, and changes nothing for an unknown or revoked one |
| Credentials.LogoutAllRevokesTheUsersTokens | backend/app/services/auth.py:152-159 | every unrevoked token of the user is revoked at that time, and no other row changes |
| Credentials.RefreshTradesRows | backend/app/services/auth.py:134-136 | a successful refresh revokes exactly the token presented and adds exactly one row, for the same user, living for the configured time |
| Credentials.AuthErrorsHaveTheirStatus | backend/app/api/exception_handlers.py:34-38 | which exceptions login and refresh can end in, and the status of each |
| AuthService.Serve | backend/app/services/auth.py:37-175 | serving any list of events on the classes is a run of the model |
| Tokens.RunKeepsConstraints | backend/alembic/versions/412ab868f224_initial_schema.py:272-283 | token hashes stay unique and belong to accounts over any run |
| TokenHistory.TableHoldsHistory | backend/app/repositories/user.py:31-59 | after any run the token table holds exactly what the history says of every raw token: its user, its expiry, and whether it was ended |
| TokenHistory.GrantMeans | backend/app/services/auth.py:161-175 | a token was granted if and only if some answer handed it out, to that user at that time |
| TokenHistory.EndedMeans | backend/app/services/auth.py:117-136 | a token is ended if and only if some event of the history ends it |
| Rotation.RefreshIsDecidedByHistory | backend/app/services/auth.py:101-136 | each answer of refresh, and when it is given, in terms of the history alone |
| Rotation.AcceptedIffGrantedAndNotEnded | backend/app/services/auth.py:101-175 | refresh accepts a token if and only if it was issued less than the lifetime ago, its user is active and no later event ended it |
| Rotation.RevocationIsFinal | backend/app/repositories/user.py:45-59 | over any run rows stay and revoked_at never changes once set |
| Rotation.RefreshConservesLive | backend/app/services/auth.py:134-136 | a successful refresh conserves every user's number of unrevoked tokens, a failing one adds none |
| Rotation.LoginAddsOneLive | backend/app/services/auth.py:98-99 | a login adds one unrevoked token to its user and nothing to others |
| Rotation.SweepLeavesNone | backend/app/services/auth.py:117-132 | reuse and an unusable account leave the user without an unrevoked token |
| Rotation.SecondPresentationRevokesEverything | backend/app/services/auth.py:117-136 | presenting a stored token to refresh twice, at any distance, leaves its user without an unrevoked token, unless the first presentation got as far as its new token and that collided |
| Rotation.TwoPresentationsInARow | backend/app/services/auth.py:117-136 | of two presentations in a row, the second in time and with free draws, the user is left without an unrevoked token if and only if the first did not collide; if it did, it changed nothing and the second is accepted |
| Rotation.FirstLoginIsValid | backend/app/services/auth.py:161-175 | a concrete history after which a refresh collides |
| Rotation.OnlyThreeFailuresCommit | backend/app/services/auth.py:117-132 | a call that raises changes nothing, except three branches of refresh, which change exactly the revocations named |
| Rotation.OnlyTheNewestIsInUse | backend/app/services/auth.py:134-175 | in the chain of tokens from a login only the newest can be in use |
| Rotation.OneLiveRowPerLogin | backend/app/services/auth.py:134-175 | two unrevoked rows descended from one login are one row |
| ConnectionPool.QueriesSeeTheirOwnContext | backend/app/core/database.py:19-37 | however units share pooled connections, a query sees its unit's own user and organization, or neither from a rollback to the next commit |
| ConnectionPool.ContextIsSetOnEntryAndCommit | backend/app/core/uow.py:79-114 | after entry and after every successful commit both settings are the unit's own |
| ConnectionPool.ConnectionsAreExclusive | backend/app/core/uow.py:79-122 | no two open transactions hold one connection |
| ConnectionPool.PoolInvariant | backend/app/core/database.py:30-37 | a free connection carries no setting, a held one only its holder's |
| Limiter.MemoryRateLimiter.Hit | backend/app/core/rate_limit.py:49-57 | one hit on the dictionary of windows, which changes the one key |
| Limiter.ServeInMemory | backend/app/core/rate_limit.py:39-57 | on every sequence of hits over any keys the verdicts are those of each key's own history |
| Limiter.RedisRateLimiter.Hit | backend/app/core/rate_limit.py:75-80 | a counter with a deadline stands for a window before and after, with the same verdict |
| Limiter.ServeOnRedis | backend/app/core/rate_limit.py:69-80 | on every timed sequence the Redis limiter gives those same verdicts |
| FixedWindow.DeniedIffWindowIsFull | backend/app/core/rate_limit.py:49-57 | a hit is denied if and only if its window, opened less than the window length ago, has already let exactly the limit through |
| FixedWindow.DeniedAfterExactlyLimitIff | backend/app/core/rate_limit.py:49-57 | of a denied hit, the last window length holds exactly the limit if and only if no earlier window let a hit through in that time |
| FixedWindow.WindowsForgetTheirPast | backend/app/core/rate_limit.py:52-55 | concrete histories in which the limit was reached in the last window length without a denial, and exceeded with one |
| FixedWindow.FixedWindowBound | backend/app/core/rate_limit.py:49-57 | in any closed interval of length L at most limit * (ceil(L/W) + 1) hits are allowed |
| FixedWindow.BoundIsAttained | backend/app/core/rate_limit.py:49-57 | for every limit, window and number of windows some history attains the bound |

## Left out

- Serialised calls: token rotation and ownership are proved for calls that run one after another, because the code takes no row locks there; only version allocation is proved for interleaved transactions. Lock waiting and isolation levels are not modelled; a commit is one atomic check and apply.
- Switching the active key: no service does it. `Services.SwitchActiveKey` is the change the schema is made for, included so that stored versions are shown to survive it.
- Isolation.NonInterference: assumes that the drawn ids are equally free in both states, which is enough but not needed; `Interference.InterferesIffCollisionsDiffer` has the exact condition.
- Isolation.OtherOrganizationsUntouched: covers secret and environment calls, not projects, memberships or the organization row itself.
- Limiter.RedisRateLimiter.Hit: INCR and EXPIRE are one atomic step; a failure between the two, which leaves a key without a deadline, is not modelled.
- Limiter.ServeOnRedis: the same, and both limiters read the same real-valued clock, and it is non-negative and never goes back; `reset`, `aclose` and the fallback limiter are not modelled.
- Requests.Handle: requests enter at the service; the routers' own membership gate, schemas, middleware and status codes other than those of the exception map are not modelled.
- Commit failures that no constraint causes (connection loss, serialization failures).
- Hard deletes of organizations, projects and environments: their effect depends on trigger and cascade order in PostgreSQL. User deletion: no service performs it.
- `OrganizationService.get` and `list_for_user`, the audit listing and its paging: they read what policies show and add nothing.
- The order of listings: a listing is the map of the rows it shows.
- Timestamps, `created_by`, `invited_by`, API tokens, TOTP and OAuth columns, grants and database roles: no service decision depends on them. The membership INSERT policy's bootstrap branch is modelled, but reached only through the SECURITY DEFINER function, which is taken to bypass policies as its migration intends.
- The derivation of the master key from the settings, and the drawing of DEKs and nonces: inputs.
- Case-insensitive email (CITEXT): an email is a plain string.
- AES-GCM, SHA-256, Argon2, JWT and UTF-8 themselves: an authenticated cipher, injective hashes and an injective encoding that covers every string, lone surrogates included.
- Refresh tokens drawn with too little entropy, and probabilities of collision: a collision is an input like any other, and leads to the constraint.
