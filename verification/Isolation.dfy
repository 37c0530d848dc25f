/**
 Isolation between organizations as a two-state property: what a secret or environment
 call in one organization answers and does depends on that organization's rows alone,
 and touches no row of any other.
 */
module Isolation {
  import opened Prelude
  import opened Envelope
  import opened Schema
  import opened Policies
  import opened Repositories
  import opened Services
  import opened Reachable
  import opened Agreement
  import Effects
  import C = Calls

  function EntriesOf(entries: seq<AuditEntry>, org: Id): seq<AuditEntry> {
    if entries == [] then []
    else
      EntriesOf(entries[..|entries| - 1], org)
      + if entries[|entries| - 1].org == org then [entries[|entries| - 1]] else []
  }

  /** The rows of the database whose parent chain ends in the organization. */
  datatype Slice = Slice(
    memberships: map<Id, Membership>,
    projects: map<Id, Project>,
    environments: map<Id, Environment>,
    keys: map<Id, EncryptionKey>,
    secrets: map<Id, Secret>,
    versions: map<Id, SecretVersion>,
    audit: seq<AuditEntry>)

  function MembershipSlice(memberships: map<Id, Membership>, org: Id): map<Id, Membership> {
    map i | i in memberships && memberships[i].org == org :: memberships[i]
  }

  function ProjectSlice(projects: map<Id, Project>, org: Id): map<Id, Project> {
    map i | i in projects && projects[i].org == org :: projects[i]
  }

  function EnvironmentSlice(environments: map<Id, Environment>, projects: set<Id>): map<Id, Environment> {
    map i | i in environments && environments[i].project in projects :: environments[i]
  }

  function KeySlice(keys: map<Id, EncryptionKey>, environments: set<Id>): map<Id, EncryptionKey> {
    map i | i in keys && keys[i].env in environments :: keys[i]
  }

  function SecretSlice(secrets: map<Id, Secret>, environments: set<Id>): map<Id, Secret> {
    map i | i in secrets && secrets[i].env in environments :: secrets[i]
  }

  function VersionSlice(versions: map<Id, SecretVersion>, secrets: set<Id>): map<Id, SecretVersion> {
    map i | i in versions && versions[i].secret in secrets :: versions[i]
  }

  function SliceOf(db: Db, org: Id): Slice {
    var projects := ProjectSlice(db.projects, org);
    var environments := EnvironmentSlice(db.environments, projects.Keys);
    var secrets := SecretSlice(db.secrets, environments.Keys);
    Slice(MembershipSlice(db.memberships, org), projects, environments, KeySlice(db.keys, environments.Keys),
          secrets, VersionSlice(db.versions, secrets.Keys), EntriesOf(db.audit, org))
  }

  ghost predicate AgreeOn(a: Db, b: Db, org: Id) {
    SliceOf(a, org) == SliceOf(b, org)
  }

  /** The same, row by row. */
  ghost predicate RowsAgree(a: Db, b: Db, org: Id) {
    && (forall i :: MembershipIn(a, i, org) <==> MembershipIn(b, i, org))
    && (forall i | MembershipIn(a, i, org) :: a.memberships[i] == b.memberships[i])
    && AgreeOnProjects(a, b, org)
    && AgreeOnVault(a, b, org)
  }

  lemma AgreeRowByRow(a: Db, b: Db, org: Id)
    requires AgreeOn(a, b, org)
    ensures RowsAgree(a, b, org)
  {
    var (x, y) := (SliceOf(a, org), SliceOf(b, org));
    assert forall i :: MembershipIn(a, i, org) <==> i in x.memberships;
    assert forall i :: MembershipIn(b, i, org) <==> i in y.memberships;
    assert forall i | i in x.memberships ::
             x.memberships[i] == a.memberships[i] && y.memberships[i] == b.memberships[i];
    ProjectsAgree(a, b, org);
    VaultAgrees(a, b, org);
  }

  lemma ProjectsAgree(a: Db, b: Db, org: Id)
    requires AgreeOn(a, b, org)
    ensures AgreeOnProjects(a, b, org)
  {
    hide ProjectIn, EnvironmentIn;
    var (x, y) := (SliceOf(a, org), SliceOf(b, org));
    InMeansInSlice(a, org);
    InMeansInSlice(b, org);
    assert forall i | i in x.projects :: x.projects[i] == a.projects[i] && y.projects[i] == b.projects[i];
    assert forall i | i in x.environments ::
             x.environments[i] == a.environments[i] && y.environments[i] == b.environments[i];
  }

  lemma VaultAgrees(a: Db, b: Db, org: Id)
    requires AgreeOn(a, b, org)
    ensures AgreeOnVault(a, b, org)
  {
    hide KeyIn, SecretIn, VersionIn, ProjectIn, EnvironmentIn, SliceOf;
    SliceHoldsRows(a, org);
    SliceHoldsRows(b, org);
    InMeansInSlice(a, org);
    InMeansInSlice(b, org);
  }

  lemma SliceHoldsRows(db: Db, org: Id)
    ensures var x := SliceOf(db, org);
            && (forall i | i in x.keys :: i in db.keys && x.keys[i] == db.keys[i])
            && (forall i | i in x.secrets :: i in db.secrets && x.secrets[i] == db.secrets[i])
            && (forall i | i in x.versions :: i in db.versions && x.versions[i] == db.versions[i])
  {
  }

  lemma InMeansInSlice(db: Db, org: Id)
    ensures var x := SliceOf(db, org);
            && (forall i :: ProjectIn(db, i, org) <==> i in x.projects)
            && (forall i :: EnvironmentIn(db, i, org) <==> i in x.environments)
            && (forall i :: KeyIn(db, i, org) <==> i in x.keys)
            && (forall i :: SecretIn(db, i, org) <==> i in x.secrets)
            && (forall i :: VersionIn(db, i, org) <==> i in x.versions)
  {
  }

  ghost predicate AgreeOnProjects(a: Db, b: Db, org: Id) {
    && (forall i :: ProjectIn(a, i, org) <==> ProjectIn(b, i, org))
    && (forall i | ProjectIn(a, i, org) :: a.projects[i] == b.projects[i])
    && (forall i :: EnvironmentIn(a, i, org) <==> EnvironmentIn(b, i, org))
    && (forall i | EnvironmentIn(a, i, org) :: a.environments[i] == b.environments[i])
  }

  ghost predicate AgreeOnVault(a: Db, b: Db, org: Id) {
    && (forall i :: KeyIn(a, i, org) <==> KeyIn(b, i, org))
    && (forall i | KeyIn(a, i, org) :: a.keys[i] == b.keys[i])
    && (forall i :: SecretIn(a, i, org) <==> SecretIn(b, i, org))
    && (forall i | SecretIn(a, i, org) :: a.secrets[i] == b.secrets[i])
    && (forall i :: VersionIn(a, i, org) <==> VersionIn(b, i, org))
    && (forall i | VersionIn(a, i, org) :: a.versions[i] == b.versions[i])
  }

  /** The ids the server draws are equally free in both states: enough for equal answers, but not
      needed. Interference.dfy has the exact condition. */
  ghost predicate SameOccupancy(a: Db, b: Db, op: C.Op) {
    match op
    case CreateSecret(_, _, _, _, id, versionId) =>
      (id in a.secrets <==> id in b.secrets) && (versionId in a.versions <==> versionId in b.versions)
    case AddNewVersion(_, _, _, versionId) => versionId in a.versions <==> versionId in b.versions
    case CreateEnvironment(_, _, id, keyId, _, _) =>
      (id in a.environments <==> id in b.environments) && (keyId in a.keys <==> keyId in b.keys)
    case _ => true
  }

  /** Equal failures, or equal answers in states that again agree. */
  ghost predicate SameFor(r: Outcome, q: Outcome, org: Id) {
    if r.Failure? then r == q else q.Success? && r.value.1 == q.value.1 && AgreeOn(r.value.0, q.value.0, org)
  }

  // -- Reads -----------------------------------------------------------------

  lemma SameRole(a: Db, b: Db, actor: Id, org: Id, minimum: Role)
    requires RowsAgree(a, b, org)
    ensures RequireOrgRole(a, In(true, actor, org), org, actor, minimum)
         == RequireOrgRole(b, In(true, actor, org), org, actor, minimum)
    ensures RequireOrgRole(a, In(true, actor, org), org, actor, minimum).Success? ==>
              MemberSees(a, actor, org) && MemberSees(b, actor, org)
  {
    hide AgreeOnProjects, AgreeOnVault, MemberSees;
    var g := In(true, actor, org);
    assert forall i | MembershipIn(a, i, org) :: MembershipIn(b, i, org) && a.memberships[i] == b.memberships[i];
    assert forall i | MembershipIn(b, i, org) :: MembershipIn(a, i, org);
    assert MembershipsOf(a, g, actor, org) == MembershipsOf(b, g, actor, org);
    if MembershipsOf(a, g, actor, org) != {} {
      var i :| i in MembershipsOf(a, g, actor, org);
      assert MembershipIn(a, i, org);
      assert IsMember(a, actor, org) && IsMember(b, actor, org);
      MemberView(a, a, actor, org);
      MemberView(b, b, actor, org);
    }
  }

  lemma SameResolve(a: Db, b: Db, actor: Id, org: Id, env: Id)
    requires AgreeOnProjects(a, b, org) && MemberSees(a, actor, org) && MemberSees(b, actor, org)
    ensures ResolveEnvironmentOrg(a, In(true, actor, org), env, org)
         == ResolveEnvironmentOrg(b, In(true, actor, org), env, org)
    ensures ResolveEnvironmentOrg(a, In(true, actor, org), env, org).Success? <==> EnvironmentIn(a, env, org)
  {
    hide ProjectPolicy, EnvironmentPolicy, SecretPolicy, KeyPolicy, VersionPolicy, AuditPolicy, MembershipSelect;
    if EnvironmentIn(a, env, org) {
      assert EnvironmentIn(b, env, org) && ProjectIn(b, b.environments[env].project, org);
    } else {
      assert !EnvironmentIn(b, env, org);
    }
  }

  lemma SameOwned(a: Db, b: Db, actor: Id, org: Id, secret: Id)
    requires RowsAgree(a, b, org) && MemberSees(a, actor, org) && MemberSees(b, actor, org)
    ensures GetOwnedSecret(a, In(true, actor, org), secret, org) == GetOwnedSecret(b, In(true, actor, org), secret, org)
    ensures GetOwnedSecret(a, In(true, actor, org), secret, org).Success? ==>
              SecretIn(a, secret, org) && SecretIn(b, secret, org) && a.secrets[secret] == b.secrets[secret]
  {
    hide ProjectPolicy, EnvironmentPolicy, SecretPolicy, KeyPolicy, VersionPolicy, AuditPolicy, MembershipSelect;
    hide ResolveEnvironmentOrg;
    assert SecretIn(a, secret, org) <==> SecretIn(b, secret, org);
    if SecretIn(a, secret, org) {
      SameResolve(a, b, actor, org, a.secrets[secret].env);
    }
  }

  lemma SameRows(a: Db, b: Db, actor: Id, org: Id, env: Id, name: string)
    requires RowsAgree(a, b, org) && MemberSees(a, actor, org) && MemberSees(b, actor, org)
    requires EnvironmentIn(a, env, org)
    ensures var g := In(true, actor, org);
            && LiveSecretsByName(a, g, env, name) == LiveSecretsByName(b, g, env, name)
            && LiveSecrets(a, g, env) == LiveSecrets(b, g, env)
            && ActiveKeys(a, g, env) == ActiveKeys(b, g, env)
            && (forall k | k in ActiveKeys(a, g, env) :: KeyIn(a, k, org) && a.keys[k] == b.keys[k])
            && (SecretNameTaken(a, env, name) <==> SecretNameTaken(b, env, name))
  {
    hide ProjectPolicy, EnvironmentPolicy, SecretPolicy, KeyPolicy, VersionPolicy, AuditPolicy, MembershipSelect;
    var g := In(true, actor, org);
    assert EnvironmentIn(b, env, org);
    SameSecretRows(a, b, org, env);
    SameKeyRows(a, b, org, env);
    hide RowsAgree, EnvironmentIn, ProjectIn, SecretIn;
    assert LiveSecretsByName(a, g, env, name) == LiveSecretsByName(b, g, env, name);
    assert LiveSecrets(a, g, env) == LiveSecrets(b, g, env);
    assert ActiveKeys(a, g, env) == ActiveKeys(b, g, env);
  }

  lemma SameSecretRows(a: Db, b: Db, org: Id, env: Id)
    requires RowsAgree(a, b, org) && EnvironmentIn(a, env, org)
    ensures forall i :: (i in a.secrets && a.secrets[i].env == env) <==> (i in b.secrets && b.secrets[i].env == env)
    ensures forall i | i in a.secrets && a.secrets[i].env == env :: a.secrets[i] == b.secrets[i]
  {
    assert EnvironmentIn(b, env, org);
    hide EnvironmentIn, KeyIn, VersionIn, MembershipIn, ProjectIn;
    assert forall i | i in a.secrets && a.secrets[i].env == env :: SecretIn(a, i, org);
    assert forall i | i in b.secrets && b.secrets[i].env == env :: SecretIn(b, i, org);
  }

  lemma SameKeyRows(a: Db, b: Db, org: Id, env: Id)
    requires RowsAgree(a, b, org) && EnvironmentIn(a, env, org)
    ensures forall k :: (k in a.keys && a.keys[k].env == env) <==> (k in b.keys && b.keys[k].env == env)
    ensures forall k | k in a.keys && a.keys[k].env == env :: KeyIn(a, k, org) && a.keys[k] == b.keys[k]
  {
    assert EnvironmentIn(b, env, org);
    hide EnvironmentIn, SecretIn, VersionIn, MembershipIn, ProjectIn;
    assert forall k | k in a.keys && a.keys[k].env == env :: KeyIn(a, k, org);
    assert forall k | k in b.keys && b.keys[k].env == env :: KeyIn(b, k, org);
  }

  // -- Writes ----------------------------------------------------------------

  /** No row hangs below one that does not exist. */
  ghost predicate Rooted(db: Db) {
    && (forall v | v in db.versions :: db.versions[v].secret in db.secrets && db.versions[v].key in db.keys)
    && (forall s | s in db.secrets :: db.secrets[s].env in db.environments)
    && (forall k | k in db.keys :: db.keys[k].env in db.environments)
    && KeysFollowSecrets(db.keys, db.secrets, db.versions)
  }

  lemma WellFormedIsRooted(db: Db)
    requires WellFormed(db)
    ensures Rooted(db)
  {
  }

  /** Writing a secret row writes it in the slice of its organization and in no other. */
  lemma PutSecretSlice(db: Db, org: Id, id: Id, row: Secret)
    requires Rooted(db) && (id in db.secrets ==> db.secrets[id].env == row.env)
    ensures SliceOf(db.(secrets := db.secrets[id := row]), org)
         == (if EnvironmentIn(db, row.env, org) then SliceOf(db, org).(secrets := SliceOf(db, org).secrets[id := row])
             else SliceOf(db, org))
  {
    var x := SliceOf(db, org);
    InMeansInSlice(db, org);
    hide ProjectSlice, EnvironmentSlice, EnvironmentIn, SecretIn, VersionIn, KeyIn, ProjectIn;
    var secrets := SecretSlice(db.secrets[id := row], x.environments.Keys);
    assert secrets == if row.env in x.environments then x.secrets[id := row] else x.secrets;
    assert VersionSlice(db.versions, secrets.Keys) == x.versions;
  }

  lemma PutVersionSlice(db: Db, org: Id, id: Id, row: SecretVersion)
    requires id !in db.versions
    ensures SliceOf(db.(versions := db.versions[id := row]), org)
         == (if SecretIn(db, row.secret, org) then SliceOf(db, org).(versions := SliceOf(db, org).versions[id := row])
             else SliceOf(db, org))
  {
    var x := SliceOf(db, org);
    InMeansInSlice(db, org);
    hide ProjectSlice, EnvironmentSlice, SecretSlice, EnvironmentIn, SecretIn, VersionIn, KeyIn, ProjectIn;
    assert VersionSlice(db.versions[id := row], x.secrets.Keys)
        == if row.secret in x.secrets then x.versions[id := row] else x.versions;
  }

  lemma SameVersionConflicts(a: Db, b: Db, org: Id, secret: Id, number: int, key: Id, iv: Nonce)
    requires RowsAgree(a, b, org) && Rooted(a) && Rooted(b) && SecretIn(a, secret, org) && KeyIn(a, key, org)
    ensures VersionNumberTaken(a, secret, number) <==> VersionNumberTaken(b, secret, number)
    ensures KeyIvTaken(a, key, iv) <==> KeyIvTaken(b, key, iv)
  {
    assert KeyIn(b, key, org);
    VersionsAtHome(a, org, secret, key);
    VersionsAtHome(b, org, secret, key);
    hide Rooted, MembershipIn, EnvironmentIn, ProjectIn, SecretIn, KeyIn, VersionIn;
  }

  lemma VersionsAtHome(db: Db, org: Id, secret: Id, key: Id)
    requires Rooted(db) && SecretIn(db, secret, org) && KeyIn(db, key, org)
    ensures forall v | v in db.versions && (db.versions[v].secret == secret || db.versions[v].key == key) ::
              VersionIn(db, v, org)
  {
  }

  /** Equal failures, or states that again agree. */
  ghost predicate SameCommit(r: Result<Db, Error>, q: Result<Db, Error>, org: Id) {
    if r.Failure? then r == q else q.Success? && AgreeOn(r.value, q.value, org)
  }

  lemma FinishedSlice(db: Db, g: Gate, org: Id, versionId: Id, row: SecretVersion)
    requires Rooted(db) && FinishVersion(g, db, versionId, row).Success? && SecretIn(db, row.secret, org)
    ensures var (x, db') := (SliceOf(db, org), FinishVersion(g, db, versionId, row).value);
            && row.secret in x.secrets
            && SliceOf(db', org)
               == x.(secrets := x.secrets[row.secret := x.secrets[row.secret].(current := Some(versionId))],
                     versions := x.versions[versionId := row])
  {
    hide FinishVersion, SliceOf, VersionNumberTaken, KeyIvTaken, EnvironmentIn;
    Effects.FinishVersionEffect(g, db, versionId, row);
    var pointed := db.secrets[row.secret].(current := Some(versionId));
    var db1 := db.(secrets := db.secrets[row.secret := pointed]);
    InMeansInSlice(db, org);
    SliceRows(db, org);
    PutSecretSlice(db, org, row.secret, pointed);
    assert SecretIn(db1, row.secret, org) by { StillIn(db, db1, org, row.secret); }
    PutVersionSlice(db1, org, versionId, row);
  }

  lemma SliceRows(db: Db, org: Id)
    ensures forall i | i in SliceOf(db, org).secrets :: SliceOf(db, org).secrets[i] == db.secrets[i]
  {
  }

  lemma StillIn(db: Db, db1: Db, org: Id, secret: Id)
    requires SecretIn(db, secret, org) && db1.projects == db.projects && db1.environments == db.environments
    requires secret in db1.secrets && db1.secrets[secret].env == db.secrets[secret].env
    ensures SecretIn(db1, secret, org)
  {
  }

  lemma SameFinish(a: Db, b: Db, actor: Id, org: Id, versionId: Id, row: SecretVersion)
    requires AgreeOn(a, b, org) && Rooted(a) && Rooted(b) && IsMember(a, actor, org) && IsMember(b, actor, org)
    requires SecretIn(a, row.secret, org) && KeyIn(a, row.key, org)
    requires row.createdBy in a.users && row.createdBy in b.users
    requires CurrentPointersValid(a.secrets, a.versions) && CurrentPointersValid(b.secrets, b.versions)
    requires versionId in a.versions <==> versionId in b.versions
    ensures SameCommit(FinishVersion(In(true, actor, org), a, versionId, row),
                       FinishVersion(In(true, actor, org), b, versionId, row), org)
  {
    var g := In(true, actor, org);
    AgreeRowByRow(a, b, org);
    SameVersionConflicts(a, b, org, row.secret, row.number, row.key, row.iv);
    assert SecretIn(b, row.secret, org) && KeyIn(b, row.key, org);
    VersionPolicyMeans(a, true, actor, org, row);
    VersionPolicyMeans(b, true, actor, org, row);
    var (r, q) := (FinishVersion(g, a, versionId, row), FinishVersion(g, b, versionId, row));
    InsertOrFail(a, actor, org, versionId, row);
    InsertOrFail(b, actor, org, versionId, row);
    hide FinishVersion, VersionPolicy, IsMember, VersionNumberTaken, KeyIvTaken, RowsAgree, Rooted;
    hide CurrentPointersValid;
    if r.Success? && q.Success? {
      FinishedSlice(a, g, org, versionId, row);
      FinishedSlice(b, g, org, versionId, row);
    }
  }

  lemma InsertOrFail(db: Db, actor: Id, org: Id, versionId: Id, row: SecretVersion)
    requires CurrentPointersValid(db.secrets, db.versions) && IsMember(db, actor, org) && SecretIn(db, row.secret, org)
    ensures var (r, i) := (FinishVersion(In(true, actor, org), db, versionId, row),
                           InsertVersion(db, In(true, actor, org), versionId, row));
            if i.Failure? then r == Failure(i.error) else r.Success?
  {
    hide VersionPolicy, SecretPolicy, IsMember, VersionNumberTaken, KeyIvTaken, CurrentPointersValid, SecretIn;
    if InsertVersion(db, In(true, actor, org), versionId, row).Success? {
      InsertDecides(db, true, actor, org, versionId, row);
    }
  }

  // -- Calls -----------------------------------------------------------------

  /** Both states are well formed, agree on the organization, and the role check passed in both. */
  ghost predicate Paired(a: Db, b: Db, actor: Id, org: Id) {
    && AgreeOn(a, b, org) && RowsAgree(a, b, org)
    && Rooted(a) && Rooted(b)
    && CurrentPointersValid(a.secrets, a.versions) && CurrentPointersValid(b.secrets, b.versions)
    && IsMember(a, actor, org) && IsMember(b, actor, org)
    && MemberSees(a, actor, org) && MemberSees(b, actor, org)
    && actor in a.users && actor in b.users && org in a.orgs && org in b.orgs
  }

  lemma CheckPairs(a: Db, b: Db, actor: Id, org: Id, minimum: Role)
    requires WellFormed(a) && WellFormed(b) && AgreeOn(a, b, org)
    ensures var g := In(true, actor, org);
            && RequireOrgRole(a, g, org, actor, minimum) == RequireOrgRole(b, g, org, actor, minimum)
            && (RequireOrgRole(a, g, org, actor, minimum).Success? ==> Paired(a, b, actor, org))
  {
    hide MemberSees, AgreeOn, RowsAgree, Rooted;
    AgreeRowByRow(a, b, org);
    WellFormedIsRooted(a);
    WellFormedIsRooted(b);
    SameRole(a, b, actor, org, minimum);
    if RequireOrgRole(a, In(true, actor, org), org, actor, minimum).Success? {
      RoleAgrees(a, actor, org, minimum);
      RoleAgrees(b, actor, org, minimum);
      MemberIsKnown(a, actor, org);
      MemberIsKnown(b, actor, org);
    }
  }

  lemma MemberIsKnown(db: Db, actor: Id, org: Id)
    requires Constraints(db) && IsMember(db, actor, org)
    ensures actor in db.users && org in db.orgs
  {
  }

  lemma SameVersions(a: Db, b: Db, actor: Id, org: Id, secret: Id)
    requires AgreeOnVault(a, b, org) && MemberSees(a, actor, org) && MemberSees(b, actor, org)
    requires SecretIn(a, secret, org)
    ensures VersionsOf(a, In(true, actor, org), secret) == VersionsOf(b, In(true, actor, org), secret)
    ensures forall v | v in VersionsOf(a, In(true, actor, org), secret) :: a.versions[v] == b.versions[v]
  {
    hide VersionPolicy, SecretIn;
    var g := In(true, actor, org);
    assert SecretIn(b, secret, org);
    assert forall v | v in a.versions && a.versions[v].secret == secret :: VersionIn(a, v, org);
    assert forall v | v in b.versions && b.versions[v].secret == secret :: VersionIn(b, v, org);
    assert VersionsOf(a, g, secret) == VersionsOf(b, g, secret);
  }

  lemma SameNextNumber(a: Db, b: Db, actor: Id, org: Id, secret: Id)
    requires Paired(a, b, actor, org) && SecretIn(a, secret, org)
    ensures NextVersionNumber(a, In(true, actor, org), secret) == NextVersionNumber(b, In(true, actor, org), secret)
  {
    var g := In(true, actor, org);
    hide MemberSees, IsMember, AgreeOn, Rooted, CurrentPointersValid, SecretIn;
    SameVersions(a, b, actor, org, secret);
    hide VersionsOf, RowsAgree;
    assert LatestVersions(a, g, secret) == LatestVersions(b, g, secret);
  }

  lemma SamePrepare(s: Suite, a: Db, b: Db, org: Id, actor: Id, secret: Id, plain: string, iv: Nonce)
    requires WellFormed(a) && WellFormed(b) && AgreeOn(a, b, org)
    ensures var (r, q) := (PrepareVersion(s, In(true, actor, org), a, org, actor, secret, plain, iv),
                           PrepareVersion(s, In(true, actor, org), b, org, actor, secret, plain, iv));
            && r == q
            && (r.Success? ==> Paired(a, b, actor, org) && SecretIn(a, secret, org) && KeyIn(a, r.value.key, org)
                               && r.value.secret == secret && r.value.createdBy == actor)
  {
    hide WellFormed, AgreeOn, RowsAgree, MemberSees, Rooted, RequireOrgRole, GetOwnedSecret, NextVersionNumber;
    hide KeyPolicy;
    hide CurrentPointersValid, IsMember;
    CheckPairs(a, b, actor, org, Member);
    if RequireOrgRole(a, In(true, actor, org), org, actor, Member).Success? {
      SameOwned(a, b, actor, org, secret);
      if GetOwnedSecret(a, In(true, actor, org), secret, org).Success? {
        OwnedRow(a, In(true, actor, org), secret, org);
        SameRows(a, b, actor, org, a.secrets[secret].env, "");
        SameNextNumber(a, b, actor, org, secret);
      }
    }
  }

  lemma OwnedRow(db: Db, g: Gate, secret: Id, org: Id)
    requires GetOwnedSecret(db, g, secret, org).Success?
    ensures secret in db.secrets && GetOwnedSecret(db, g, secret, org).value == db.secrets[secret]
  {
  }

  lemma AddNewVersionIsolated(s: Suite, a: Db, b: Db, org: Id, actor: Id, secret: Id, plain: string, iv: Nonce,
                              versionId: Id)
    requires WellFormed(a) && WellFormed(b) && AgreeOn(a, b, org)
    requires (versionId in a.versions <==> versionId in b.versions)
    ensures SameFor(AddNewVersion(s, In(true, actor, org), a, org, actor, secret, plain, iv, versionId),
                    AddNewVersion(s, In(true, actor, org), b, org, actor, secret, plain, iv, versionId), org)
  {
    hide PrepareVersion, FinishVersion, WellFormed, AgreeOn, RowsAgree, MemberSees, Rooted, CurrentPointersValid;
    hide IsMember;
    SamePrepare(s, a, b, org, actor, secret, plain, iv);
    var row := PrepareVersion(s, In(true, actor, org), a, org, actor, secret, plain, iv);
    if row.Success? {
      SameFinish(a, b, actor, org, versionId, row.value);
    }
  }

  lemma DeleteSecretIsolated(a: Db, b: Db, org: Id, actor: Id, secret: Id)
    requires WellFormed(a) && WellFormed(b) && AgreeOn(a, b, org)
    ensures SameFor(DeleteSecret(In(true, actor, org), a, org, actor, secret),
                    DeleteSecret(In(true, actor, org), b, org, actor, secret), org)
  {
    hide WellFormed, AgreeOn, RowsAgree, MemberSees, Rooted, RequireOrgRole, GetOwnedSecret, IsMember;
    hide CurrentPointersValid;
    hide SoftDelete;
    CheckPairs(a, b, actor, org, Member);
    if RequireOrgRole(a, In(true, actor, org), org, actor, Member).Success? {
      SameOwned(a, b, actor, org, secret);
      if GetOwnedSecret(a, In(true, actor, org), secret, org).Success? {
        OwnedRow(a, In(true, actor, org), secret, org);
        SoftDeleted(a, actor, org, secret);
        SoftDeleted(b, actor, org, secret);
        SamePut(a, b, org, secret, a.secrets[secret].(deleted := true));
      }
    }
  }

  lemma SoftDeleted(db: Db, actor: Id, org: Id, secret: Id)
    requires MemberSees(db, actor, org) && SecretIn(db, secret, org) && CurrentPointersValid(db.secrets, db.versions)
    ensures SoftDelete(db, In(true, actor, org), secret)
         == Success(db.(secrets := db.secrets[secret := db.secrets[secret].(deleted := true)]))
    ensures Commit(db.(secrets := db.secrets[secret := db.secrets[secret].(deleted := true)])).Success?
  {
    hide SecretPolicy;
  }

  lemma SamePut(a: Db, b: Db, org: Id, secret: Id, row: Secret)
    requires AgreeOn(a, b, org) && Rooted(a) && Rooted(b) && SecretIn(a, secret, org) && SecretIn(b, secret, org)
    requires row.env == a.secrets[secret].env == b.secrets[secret].env
    ensures AgreeOn(a.(secrets := a.secrets[secret := row]), b.(secrets := b.secrets[secret := row]), org)
  {
    hide SliceOf, Rooted;
    PutSecretSlice(a, org, secret, row);
    PutSecretSlice(b, org, secret, row);
  }

  lemma ListSecretsIsolated(a: Db, b: Db, org: Id, actor: Id, env: Id)
    requires WellFormed(a) && WellFormed(b) && AgreeOn(a, b, org)
    ensures SameFor(ListSecrets(In(true, actor, org), a, org, actor, env),
                    ListSecrets(In(true, actor, org), b, org, actor, env), org)
  {
    hide WellFormed, AgreeOn, RowsAgree, MemberSees, Rooted, RequireOrgRole, ResolveEnvironmentOrg, IsMember;
    hide LiveSecrets;
    CheckPairs(a, b, actor, org, Viewer);
    if RequireOrgRole(a, In(true, actor, org), org, actor, Viewer).Success? {
      assert AgreeOnProjects(a, b, org) by { RowsAgreeOnProjects(a, b, org); }
      SameResolve(a, b, actor, org, env);
      if EnvironmentIn(a, env, org) {
        SameRows(a, b, actor, org, env, "");
      }
    }
  }

  lemma RowsAgreeOnProjects(a: Db, b: Db, org: Id)
    requires RowsAgree(a, b, org)
    ensures AgreeOnProjects(a, b, org)
  {
  }

  lemma CreateSecretIsolated(s: Suite, a: Db, b: Db, org: Id, actor: Id, env: Id, name: string, plain: string,
                             iv: Nonce, id: Id, versionId: Id)
    requires WellFormed(a) && WellFormed(b) && AgreeOn(a, b, org)
    requires (id in a.secrets <==> id in b.secrets) && (versionId in a.versions <==> versionId in b.versions)
    ensures SameFor(CreateSecret(s, In(true, actor, org), a, org, actor, env, name, plain, iv, id, versionId),
                    CreateSecret(s, In(true, actor, org), b, org, actor, env, name, plain, iv, id, versionId), org)
  {
    hide WellFormed, AgreeOn, RowsAgree, MemberSees, Rooted, RequireOrgRole, ResolveEnvironmentOrg, IsMember;
    hide InsertSecret, FinishVersion, LiveSecretsByName, KeyPolicy, CurrentPointersValid;
    var g := In(true, actor, org);
    CheckPairs(a, b, actor, org, Member);
    if RequireOrgRole(a, g, org, actor, Member).Success? {
      assert AgreeOnProjects(a, b, org) by { RowsAgreeOnProjects(a, b, org); }
      SameResolve(a, b, actor, org, env);
      if EnvironmentIn(a, env, org) {
        SameRows(a, b, actor, org, env, name);
        var row := Secret(env, name, None, false);
        assert EnvironmentIn(b, env, org);
        SameInsertSecret(a, b, actor, org, id, row);
        var key := Pick(ActiveKeys(a, g, env));
        if key.Some? && Encrypted(s, plain, iv, a.keys[key.value].wrapped).Success?
           && InsertSecret(a, g, id, row).Success? {
          var value := Encrypted(s, plain, iv, a.keys[key.value].wrapped).value;
          SameFinish(InsertSecret(a, g, id, row).value, InsertSecret(b, g, id, row).value, actor, org, versionId,
                     SecretVersion(id, key.value, value, iv, 1, actor));
        }
      }
    }
  }

  /** What the second half of create_secret needs of the state in which the secret row is in. */
  lemma InsertedSecret(db: Db, actor: Id, org: Id, id: Id, row: Secret)
    requires MemberSees(db, actor, org) && IsMember(db, actor, org) && EnvironmentIn(db, row.env, org)
    requires row.current.None?
    requires Rooted(db) && CurrentPointersValid(db.secrets, db.versions)
    ensures var (r, db') := (InsertSecret(db, In(true, actor, org), id, row), db.(secrets := db.secrets[id := row]));
            if id in db.secrets || SecretNameTaken(db, row.env, row.name) then r == Failure(IntegrityError)
            else
              && r == Success(db') && Rooted(db') && IsMember(db', actor, org) && SecretIn(db', id, org)
              && CurrentPointersValid(db'.secrets, db'.versions)
              && SliceOf(db', org) == SliceOf(db, org).(secrets := SliceOf(db, org).secrets[id := row])
  {
    hide IsMember, SliceOf, SecretPolicy, EnvironmentPolicy, ProjectPolicy, KeyPolicy, VersionPolicy, MembershipSelect;
    hide AuditPolicy;
    hide SecretNameTaken;
    if id !in db.secrets { PutSecretSlice(db, org, id, row); }
    SameMember(db, db.(secrets := db.secrets[id := row]), actor, org);
  }

  lemma SameInsertSecret(a: Db, b: Db, actor: Id, org: Id, id: Id, row: Secret)
    requires Paired(a, b, actor, org) && row.current.None?
    requires EnvironmentIn(a, row.env, org) && EnvironmentIn(b, row.env, org)
    requires id in a.secrets <==> id in b.secrets
    requires SecretNameTaken(a, row.env, row.name) <==> SecretNameTaken(b, row.env, row.name)
    ensures var (r, q) := (InsertSecret(a, In(true, actor, org), id, row),
                           InsertSecret(b, In(true, actor, org), id, row));
            && SameCommit(r, q, org)
            && (r.Success? ==>
                  ReadyForVersion(a, r.value, actor, org, id, row) && ReadyForVersion(b, q.value, actor, org, id, row))
  {
    hide RowsAgree, IsMember, SliceOf, InsertSecret, SecretNameTaken, MemberSees, Rooted, CurrentPointersValid;
    hide EnvironmentIn, SecretIn;
    InsertedSecret(a, actor, org, id, row);
    InsertedSecret(b, actor, org, id, row);
  }

  ghost predicate ReadyForVersion(db: Db, db': Db, actor: Id, org: Id, id: Id, row: Secret) {
    && db' == db.(secrets := db.secrets[id := row]) && Rooted(db') && IsMember(db', actor, org)
    && SecretIn(db', id, org)
    && CurrentPointersValid(db'.secrets, db'.versions)
  }

  /** What is left of a reveal once the secret is known to be the caller's. */
  lemma RevealTail(s: Suite, db: Db, actor: Id, org: Id, secret: Id)
    requires RequireOrgRole(db, In(true, actor, org), org, actor, Member).Success?
    requires MemberSees(db, actor, org) && actor in db.users && org in db.orgs
    requires SecretIn(db, secret, org)
    requires GetOwnedSecret(db, In(true, actor, org), secret, org) == Success(db.secrets[secret])
    requires SecretPointsHome(db, secret) && CurrentPointersValid(db.secrets, db.versions)
    ensures var (row, r) := (db.secrets[secret], GetDecryptedValue(s, In(true, actor, org), db, org, actor, secret));
            match row.current
            case None => r == Failure(NoActiveVersion)
            case Some(vid) =>
              var v := db.versions[vid];
              match Decrypted(s, v.value, v.iv, db.keys[v.key].wrapped)
              case Failure(e) => r == Failure(e)
              case Success(plain) =>
                r == Success((db.(audit := db.audit + [AuditEntry(org, actor, secret, row.name, vid)]),
                              Plaintext(plain)))
  {
    hide RequireOrgRole, GetOwnedSecret, DecryptSecret, CurrentPointersValid;
    hide VersionPolicy, KeyPolicy, SecretPolicy, EnvironmentPolicy, ProjectPolicy, MembershipSelect, AuditPolicy;
  }

  lemma GetDecryptedValueIsolated(s: Suite, a: Db, b: Db, org: Id, actor: Id, secret: Id)
    requires WellFormed(a) && WellFormed(b) && AgreeOn(a, b, org)
    ensures SameFor(GetDecryptedValue(s, In(true, actor, org), a, org, actor, secret),
                    GetDecryptedValue(s, In(true, actor, org), b, org, actor, secret), org)
  {
    hide WellFormed, AgreeOn, RowsAgree, MemberSees, Rooted, RequireOrgRole, GetOwnedSecret, IsMember;
    hide CurrentPointersValid;
    hide GetDecryptedValue, DecryptSecret;
    WellFormedPointsHome(a, secret);
    WellFormedPointsHome(b, secret);
    var g := In(true, actor, org);
    CheckPairs(a, b, actor, org, Member);
    if RequireOrgRole(a, g, org, actor, Member).Failure? || GetOwnedSecret(a, g, secret, org).Failure? {
      if RequireOrgRole(a, g, org, actor, Member).Success? { SameOwned(a, b, actor, org, secret); }
      RefusedReveal(s, g, a, org, actor, secret);
      RefusedReveal(s, g, b, org, actor, secret);
    } else {
      SameOwned(a, b, actor, org, secret);
      OwnedRow(a, g, secret, org);
      RevealTail(s, a, actor, org, secret);
      RevealTail(s, b, actor, org, secret);
      if a.secrets[secret].current.Some? {
        var vid := a.secrets[secret].current.value;
        SameStored(a, b, actor, org, secret, vid);
        SameAppend(a, b, org, AuditEntry(org, actor, secret, a.secrets[secret].name, vid));
      }
    }
  }

  lemma RefusedReveal(s: Suite, g: Gate, db: Db, org: Id, actor: Id, secret: Id)
    requires RequireOrgRole(db, g, org, actor, Member).Failure? || GetOwnedSecret(db, g, secret, org).Failure?
    ensures GetDecryptedValue(s, g, db, org, actor, secret)
         == Failure(if RequireOrgRole(db, g, org, actor, Member).Failure?
                    then RequireOrgRole(db, g, org, actor, Member).error
                    else GetOwnedSecret(db, g, secret, org).error)
  {
    hide RequireOrgRole, GetOwnedSecret;
  }

  lemma SameStored(a: Db, b: Db, actor: Id, org: Id, secret: Id, vid: Id)
    requires RowsAgree(a, b, org) && SecretIn(a, secret, org) && SecretIn(b, secret, org)
    requires a.secrets[secret] == b.secrets[secret]
    requires vid in a.versions && a.versions[vid].secret == secret && a.versions[vid].key in a.keys
    requires a.keys[a.versions[vid].key].env == a.secrets[secret].env
    ensures vid in b.versions && a.versions[vid] == b.versions[vid]
    ensures a.versions[vid].key in b.keys && a.keys[a.versions[vid].key] == b.keys[a.versions[vid].key]
  {
    assert VersionIn(a, vid, org);
    assert KeyIn(a, a.versions[vid].key, org);
  }

  lemma SameAppend(a: Db, b: Db, org: Id, entry: AuditEntry)
    requires AgreeOn(a, b, org)
    ensures AgreeOn(a.(audit := a.audit + [entry]), b.(audit := b.audit + [entry]), org)
  {
    AppendedEntry(a.audit, org, entry);
    AppendedEntry(b.audit, org, entry);
  }

  lemma AppendedEntry(entries: seq<AuditEntry>, org: Id, entry: AuditEntry)
    ensures EntriesOf(entries + [entry], org) == EntriesOf(entries, org) + if entry.org == org then [entry] else []
  {
    assert (entries + [entry])[..|entries|] == entries;
  }

  // -- Environments ----------------------------------------------------------

  lemma SameProject(a: Db, b: Db, actor: Id, org: Id, project: Id)
    requires AgreeOnProjects(a, b, org) && MemberSees(a, actor, org) && MemberSees(b, actor, org)
    ensures GetProject(a, In(true, actor, org), project) == GetProject(b, In(true, actor, org), project)
    ensures GetProject(a, In(true, actor, org), project).Some? <==> ProjectIn(a, project, org)
    ensures ProjectIn(a, project, org) ==>
              && (EnvironmentsByProject(a, In(true, actor, org), project)
                  == EnvironmentsByProject(b, In(true, actor, org), project))
              && forall name :: EnvironmentNameTaken(a, project, name) <==> EnvironmentNameTaken(b, project, name)
  {
    hide EnvironmentPolicy, ProjectPolicy, SecretPolicy, KeyPolicy, VersionPolicy, MembershipSelect, AuditPolicy;
    assert ProjectIn(a, project, org) <==> ProjectIn(b, project, org);
    if ProjectIn(a, project, org) {
      assert forall i | i in a.environments && a.environments[i].project == project :: EnvironmentIn(a, i, org);
      assert forall i | i in b.environments && b.environments[i].project == project :: EnvironmentIn(b, i, org);
      assert EnvironmentsByProject(a, In(true, actor, org), project)
          == EnvironmentsByProject(b, In(true, actor, org), project);
    }
  }

  lemma SameNames(a: Db, b: Db, actor: Id, org: Id, project: Id, name: string)
    requires EnvironmentsByProject(a, In(true, actor, org), project)
          == EnvironmentsByProject(b, In(true, actor, org), project)
    ensures EnvironmentsByName(a, In(true, actor, org), project, name)
         == EnvironmentsByName(b, In(true, actor, org), project, name)
  {
    var g := In(true, actor, org);
    NamesFromRows(a, g, project, name);
    NamesFromRows(b, g, project, name);
  }

  lemma NamesFromRows(db: Db, g: Gate, project: Id, name: string)
    ensures var rows := EnvironmentsByProject(db, g, project);
            EnvironmentsByName(db, g, project, name) == set i | i in rows && rows[i].name == name
  {
    hide EnvironmentPolicy;
  }

  lemma EnvironmentReadsIsolated(a: Db, b: Db, org: Id, actor: Id, project: Id, env: Id)
    requires WellFormed(a) && WellFormed(b) && AgreeOn(a, b, org)
    ensures SameFor(ListEnvironments(In(true, actor, org), a, org, actor, project),
                    ListEnvironments(In(true, actor, org), b, org, actor, project), org)
    ensures SameFor(GetEnvironmentFor(In(true, actor, org), a, org, actor, env),
                    GetEnvironmentFor(In(true, actor, org), b, org, actor, env), org)
  {
    hide WellFormed, AgreeOn, RowsAgree, Rooted, RequireOrgRole, IsMember, GetProject, EnvironmentsByProject;
    hide EnvironmentPolicy;
    hide CurrentPointersValid, ProjectPolicy, SecretPolicy, KeyPolicy, VersionPolicy, MembershipSelect, AuditPolicy;
    CheckPairs(a, b, actor, org, Viewer);
    if RequireOrgRole(a, In(true, actor, org), org, actor, Viewer).Success? {
      assert AgreeOnProjects(a, b, org) by { RowsAgreeOnProjects(a, b, org); }
      SameProject(a, b, actor, org, project);
      if EnvironmentIn(a, env, org) {
        assert EnvironmentIn(b, env, org);
        SameProject(a, b, actor, org, a.environments[env].project);
      } else {
        assert !EnvironmentIn(b, env, org);
      }
    }
  }

  lemma EnvironmentTables(environments: map<Id, Environment>, keys: map<Id, EncryptionKey>, secrets: map<Id, Secret>,
                          projects: set<Id>, id: Id, row: Environment, keyId: Id, key: EncryptionKey)
    requires id !in environments && keyId !in keys && key.env == id
    requires forall k | k in keys :: keys[k].env != id
    requires forall s | s in secrets :: secrets[s].env != id
    ensures var (x, y) := (EnvironmentSlice(environments, projects),
                           EnvironmentSlice(environments[id := row], projects));
            && y == (if row.project in projects then x[id := row] else x)
            && KeySlice(keys[keyId := key], y.Keys)
               == (if row.project in projects then KeySlice(keys, x.Keys)[keyId := key] else KeySlice(keys, x.Keys))
            && SecretSlice(secrets, y.Keys) == SecretSlice(secrets, x.Keys)
  {
    var (x, y) := (EnvironmentSlice(environments, projects), EnvironmentSlice(environments[id := row], projects));
    assert y == (if row.project in projects then x[id := row] else x);
    assert id !in x;
  }

  lemma PutEnvironmentSlice(db: Db, org: Id, id: Id, row: Environment, keyId: Id, key: EncryptionKey)
    requires Rooted(db) && id !in db.environments && keyId !in db.keys && key.env == id
    ensures SliceOf(db.(environments := db.environments[id := row], keys := db.keys[keyId := key]), org)
         == (if ProjectIn(db, row.project, org)
             then SliceOf(db, org).(environments := SliceOf(db, org).environments[id := row],
                                    keys := SliceOf(db, org).keys[keyId := key])
             else SliceOf(db, org))
  {
    EnvironmentTables(db.environments, db.keys, db.secrets, ProjectSlice(db.projects, org).Keys, id, row, keyId, key);
    InMeansInSlice(db, org);
    hide EnvironmentSlice, SecretSlice, KeySlice, VersionSlice, EnvironmentIn, SecretIn, VersionIn, KeyIn, ProjectIn;
    hide Rooted;
  }

  /** create_environment once the project is known to be the caller's. */
  lemma EnvironmentTail(s: Suite, db: Db, actor: Id, org: Id, row: Environment, id: Id, keyId: Id, dek: Key,
                        nonce: Nonce)
    requires MemberSees(db, actor, org) && IsMember(db, actor, org) && ProjectIn(db, row.project, org)
    requires Rooted(db) && CurrentPointersValid(db.secrets, db.versions)
    ensures var (g, key) := (In(true, actor, org), EncryptionKey(id, CreateWrappedDek(s, dek, nonce), 1, true));
            var r := InsertEnvironment(db, g, id, row);
            if id in db.environments || EnvironmentNameTaken(db, row.project, row.name)
            then r == Failure(IntegrityError)
            else
              && r.Success?
              && CommitEnvironmentKey(s, g, r.value, id, keyId, dek, nonce)
                 == if keyId in db.keys then Failure(IntegrityError)
                    else Success(db.(environments := db.environments[id := row], keys := db.keys[keyId := key]))
  {
    var db1 := db.(environments := db.environments[id := row]);
    MemberView(db, db1, actor, org);
    assert forall k | k in db.keys && db.keys[k].env == id :: id in db.environments;
    hide IsMember, EnvironmentNameTaken, CreateWrappedDek, CurrentPointersValid;
    hide SecretPolicy, EnvironmentPolicy, ProjectPolicy, KeyPolicy, VersionPolicy, MembershipSelect, AuditPolicy;
  }

  lemma CreateEnvironmentIsolated(s: Suite, a: Db, b: Db, org: Id, actor: Id, project: Id, name: string,
                                  id: Id, keyId: Id, dek: Key, nonce: Nonce)
    requires WellFormed(a) && WellFormed(b) && AgreeOn(a, b, org)
    requires (id in a.environments <==> id in b.environments) && (keyId in a.keys <==> keyId in b.keys)
    ensures SameFor(CreateEnvironment(s, In(true, actor, org), a, org, actor, project, name, id, keyId, dek, nonce),
                    CreateEnvironment(s, In(true, actor, org), b, org, actor, project, name, id, keyId, dek,
                                      nonce), org)
  {
    hide WellFormed, AgreeOn, RowsAgree, Rooted, RequireOrgRole, IsMember, GetProject, EnvironmentsByName, MemberSees;
    hide CurrentPointersValid, InsertEnvironment, CommitEnvironmentKey, EnvironmentsByProject, EnvironmentNameTaken;
    CheckPairs(a, b, actor, org, Member);
    if RequireOrgRole(a, In(true, actor, org), org, actor, Member).Success? {
      assert AgreeOnProjects(a, b, org) by { RowsAgreeOnProjects(a, b, org); }
      SameProject(a, b, actor, org, project);
      if ProjectIn(a, project, org) {
        SameNames(a, b, actor, org, project, name);
        EnvironmentTail(s, a, actor, org, Environment(project, name), id, keyId, dek, nonce);
        EnvironmentTail(s, b, actor, org, Environment(project, name), id, keyId, dek, nonce);
        if id !in a.environments && keyId !in a.keys {
          SamePutEnvironment(a, b, org, id, Environment(project, name), keyId,
                             EncryptionKey(id, CreateWrappedDek(s, dek, nonce), 1, true));
        }
      }
    }
  }

  lemma SamePutEnvironment(a: Db, b: Db, org: Id, id: Id, row: Environment, keyId: Id, key: EncryptionKey)
    requires AgreeOn(a, b, org) && Rooted(a) && Rooted(b) && ProjectIn(a, row.project, org)
    requires ProjectIn(b, row.project, org)
    requires id !in a.environments && id !in b.environments && keyId !in a.keys && keyId !in b.keys && key.env == id
    ensures AgreeOn(a.(environments := a.environments[id := row], keys := a.keys[keyId := key]),
                    b.(environments := b.environments[id := row], keys := b.keys[keyId := key]), org)
  {
    hide SliceOf, Rooted;
    PutEnvironmentSlice(a, org, id, row, keyId, key);
    PutEnvironmentSlice(b, org, id, row, keyId, key);
  }

  // -- Main results ----------------------------------------------------------

  /** The secret and environment calls the services offer. */
  predicate Scoped(op: C.Op) {
    (C.OnSecrets(op) || C.OnEnvironments(op)) && !op.SwitchActiveKey?
  }

  lemma OutcomesIsolated(s: Suite, a: Db, b: Db, call: C.Call)
    requires WellFormed(a) && WellFormed(b) && AgreeOn(a, b, call.org)
    requires Scoped(call.op) && SameOccupancy(a, b, call.op)
    ensures SameFor(C.OutcomeOf(s, C.ContextOf(true, call), a, call),
                    C.OutcomeOf(s, C.ContextOf(true, call), b, call), call.org)
  {
    hide WellFormed, AgreeOn, CreateSecret, AddNewVersion, ListSecrets, GetDecryptedValue, DeleteSecret;
    hide CreateEnvironment;
    hide ListEnvironments, GetEnvironmentFor, SwitchActiveKey, C.ProjectOutcome, C.MemberOutcome, C.AccountOutcome;
    var (org, actor) := (call.org, call.actor);
    match call.op
    case CreateSecret(env, name, plain, iv, id, versionId) =>
      CreateSecretIsolated(s, a, b, org, actor, env, name, plain, iv, id, versionId);
    case AddNewVersion(secret, plain, iv, versionId) =>
      AddNewVersionIsolated(s, a, b, org, actor, secret, plain, iv, versionId);
    case ListSecrets(env) => ListSecretsIsolated(a, b, org, actor, env);
    case Reveal(secret) => GetDecryptedValueIsolated(s, a, b, org, actor, secret);
    case DeleteSecret(secret) => DeleteSecretIsolated(a, b, org, actor, secret);
    case CreateEnvironment(project, name, id, keyId, dek, nonce) =>
      CreateEnvironmentIsolated(s, a, b, org, actor, project, name, id, keyId, dek, nonce);
    case ListEnvironments(project) => EnvironmentReadsIsolated(a, b, org, actor, project, 0);
    case GetEnvironment(env) => EnvironmentReadsIsolated(a, b, org, actor, 0, env);
  }

  /** Two well-formed states with the same rows of the caller's organization, in which the drawn
      ids are equally free, give the same response and again have the same rows. Without
      policies the same holds up to which of the two 404 errors a foreign secret gets. */
  lemma NonInterference(s: Suite, a: Db, b: Db, call: C.Call)
    requires WellFormed(a) && WellFormed(b) && AgreeOn(a, b, call.org)
    requires Scoped(call.op) && SameOccupancy(a, b, call.op)
    ensures C.Step(s, true, a, call).1 == C.Step(s, true, b, call).1
    ensures AgreeOn(C.Step(s, true, a, call).0, C.Step(s, true, b, call).0, call.org)
    ensures var (r, q) := (C.Step(s, false, a, call), C.Step(s, false, b, call));
            && AgreeOn(r.0, q.0, call.org)
            && (r.1.Success? ==> r.1 == q.1)
            && (r.1.Failure? ==> q.1.Failure? && Status(r.1.error) == Status(q.1.error))
  {
    StepsAgree(s, a, call);
    StepsAgree(s, b, call);
    hide WellFormed, AgreeOn, C.OutcomeOf;
    OutcomesIsolated(s, a, b, call);
  }

  /** No row of any organization has an id the call draws. */
  predicate DrawsFree(db: Db, op: C.Op) {
    match op
    case CreateSecret(_, _, _, _, id, versionId) => id !in db.secrets && versionId !in db.versions
    case AddNewVersion(_, _, _, versionId) => versionId !in db.versions
    case CreateEnvironment(_, _, id, keyId, _, _) => id !in db.environments && keyId !in db.keys
    case _ => true
  }

  lemma SuccessDrawsFree(s: Suite, g: Gate, db: Db, call: C.Call)
    requires Scoped(call.op) && C.OutcomeOf(s, g, db, call).Success?
    ensures DrawsFree(db, call.op)
  {
    hide CreateSecret, AddNewVersion, CreateEnvironment, RequireOrgRole, ResolveEnvironmentOrg, PrepareVersion;
    var (org, actor) := (call.org, call.actor);
    match call.op
    case CreateSecret(env, name, plain, iv, id, versionId) =>
      var _, _ := Effects.CreateSecretEffect(s, g, db, org, actor, env, name, plain, iv, id, versionId);
    case AddNewVersion(secret, plain, iv, versionId) =>
      Effects.AddNewVersionEffect(s, g, db, org, actor, secret, plain, iv, versionId);
    case CreateEnvironment(project, name, id, keyId, dek, nonce) =>
      Effects.CreateEnvironmentEffect(s, g, db, org, actor, project, name, id, keyId, dek, nonce);
    case _ =>
  }

  /** A call that succeeds in one of two states agreeing on its organization succeeds in the other
      if and only if no row there, of any organization, has an id it draws. */
  lemma OnlyOccupancyShows(s: Suite, a: Db, b: Db, call: C.Call)
    requires WellFormed(a) && WellFormed(b) && AgreeOn(a, b, call.org) && Scoped(call.op)
    requires C.Step(s, true, a, call).1.Success?
    ensures C.Step(s, true, b, call).1.Success? <==> DrawsFree(b, call.op)
  {
    hide WellFormed, AgreeOn, C.OutcomeOf;
    SuccessDrawsFree(s, C.ContextOf(true, call), a, call);
    if C.OutcomeOf(s, C.ContextOf(true, call), b, call).Success? {
      SuccessDrawsFree(s, C.ContextOf(true, call), b, call);
    } else if DrawsFree(b, call.op) {
      NonInterference(s, a, b, call);
    }
  }

  lemma StepsAgree(s: Suite, db: Db, call: C.Call)
    requires WellFormed(db) && Scoped(call.op)
    ensures var (on, off) := (C.Step(s, true, db, call), C.Step(s, false, db, call));
            && on.0 == off.0
            && (on.1.Success? ==> on.1 == off.1)
            && (on.1.Failure? ==> off.1.Failure? && Status(on.1.error) == Status(off.1.error))
  {
    hide C.Step, WellFormed;
    StepAgrees(s, db, call);
    SameResponseSameStatus(C.Step(s, true, db, call).1, C.Step(s, false, db, call).1);
  }

  /** The call may read and write only where it resolved the caller's organization. */
  lemma ResolvedIn(db: Db, g: Gate, env: Id, org: Id)
    requires ResolveEnvironmentOrg(db, g, env, org).Success?
    ensures EnvironmentIn(db, env, org)
  {
  }

  lemma OwnedIn(db: Db, g: Gate, secret: Id, org: Id)
    requires GetOwnedSecret(db, g, secret, org).Success?
    ensures SecretIn(db, secret, org)
  {
  }

  lemma ApartFrom(db: Db, org: Id, other: Id)
    requires org != other
    ensures forall i :: ProjectIn(db, i, org) ==> !ProjectIn(db, i, other)
    ensures forall i :: EnvironmentIn(db, i, org) ==> !EnvironmentIn(db, i, other)
    ensures forall i :: SecretIn(db, i, org) ==> !SecretIn(db, i, other)
  {
  }

  lemma SecretCallStaysHome(s: Suite, g: Gate, db: Db, org: Id, actor: Id, op: C.Op, other: Id)
    requires Rooted(db) && C.OnSecrets(op) && other != org
    ensures var r := C.SecretOutcome(s, g, db, org, actor, op);
            r.Success? ==> SliceOf(r.value.0, other) == SliceOf(db, other)
  {
    hide CreateSecret, AddNewVersion, GetDecryptedValue, DeleteSecret, SliceOf, EnvironmentIn, SecretIn, ProjectIn;
    hide Rooted;
    hide RequireOrgRole, ResolveEnvironmentOrg, GetOwnedSecret, PrepareVersion, KeyPolicy, DecryptSecret, EncryptSecret;
    ApartFrom(db, org, other);
    match op
    case CreateSecret(env, name, plain, iv, id, versionId) =>
      if CreateSecret(s, g, db, org, actor, env, name, plain, iv, id, versionId).Success? {
        var key, value := Effects.CreateSecretEffect(s, g, db, org, actor, env, name, plain, iv, id, versionId);
        ResolvedIn(db, g, env, org);
        WroteVersion(db, id, Secret(env, name, Some(versionId), false), versionId,
                     SecretVersion(id, key, value, iv, 1, actor), other);
      }
    case AddNewVersion(secret, plain, iv, versionId) =>
      if AddNewVersion(s, g, db, org, actor, secret, plain, iv, versionId).Success? {
        Effects.AddNewVersionEffect(s, g, db, org, actor, secret, plain, iv, versionId);
        Effects.PrepareVersionEffect(s, g, db, org, actor, secret, plain, iv);
        OwnedIn(db, g, secret, org);
        SecretEnvironment(db, secret, org);
        WroteVersion(db, secret, db.secrets[secret].(current := Some(versionId)), versionId,
                     PrepareVersion(s, g, db, org, actor, secret, plain, iv).value, other);
      }
    case DeleteSecret(secret) =>
      if DeleteSecret(g, db, org, actor, secret).Success? {
        Effects.DeleteSecretEffect(g, db, org, actor, secret);
        OwnedIn(db, g, secret, org);
        SecretEnvironment(db, secret, org);
        PutSecretSlice(db, other, secret, db.secrets[secret].(deleted := true));
      }
    case Reveal(secret) =>
      if GetDecryptedValue(s, g, db, org, actor, secret).Success? {
        Effects.GetDecryptedValueEffect(s, g, db, org, actor, secret);
        var entry := AuditEntry(org, actor, secret, db.secrets[secret].name, db.secrets[secret].current.value);
        AppendElsewhere(db, entry, other);
      }
    case ListSecrets(_) => Effects.ListSecretsEffect(g, db, org, actor, op.env);
  }

  lemma SecretEnvironment(db: Db, secret: Id, org: Id)
    requires SecretIn(db, secret, org)
    ensures EnvironmentIn(db, db.secrets[secret].env, org)
  {
  }

  lemma WroteVersion(db: Db, id: Id, row: Secret, versionId: Id, version: SecretVersion, other: Id)
    requires Rooted(db) && !EnvironmentIn(db, row.env, other) && (id in db.secrets ==> db.secrets[id].env == row.env)
    requires version.secret == id && versionId !in db.versions
    ensures SliceOf(db.(secrets := db.secrets[id := row], versions := db.versions[versionId := version]), other)
         == SliceOf(db, other)
  {
    PutSecretSlice(db, other, id, row);
    var db1 := db.(secrets := db.secrets[id := row]);
    assert !SecretIn(db1, id, other);
    hide SliceOf, Rooted, SecretIn, EnvironmentIn;
    PutVersionSlice(db1, other, versionId, version);
  }

  lemma AppendElsewhere(db: Db, entry: AuditEntry, other: Id)
    requires entry.org != other
    ensures SliceOf(db.(audit := db.audit + [entry]), other) == SliceOf(db, other)
  {
    AppendedEntry(db.audit, other, entry);
  }

  lemma EnvironmentCallStaysHome(s: Suite, g: Gate, db: Db, org: Id, actor: Id, op: C.Op, other: Id)
    requires Rooted(db) && C.OnEnvironments(op) && !op.SwitchActiveKey? && other != org
    ensures var r := C.EnvironmentOutcome(s, g, db, org, actor, op);
            r.Success? ==> SliceOf(r.value.0, other) == SliceOf(db, other)
  {
    hide CreateEnvironment, SliceOf, ProjectIn, Rooted, RequireOrgRole, SwitchActiveKey, EnvironmentIn, SecretIn;
    ApartFrom(db, org, other);
    match op
    case CreateEnvironment(project, name, id, keyId, dek, nonce) =>
      if CreateEnvironment(s, g, db, org, actor, project, name, id, keyId, dek, nonce).Success? {
        Effects.CreateEnvironmentEffect(s, g, db, org, actor, project, name, id, keyId, dek, nonce);
        PutEnvironmentSlice(db, other, id, Environment(project, name), keyId,
                            EncryptionKey(id, CreateWrappedDek(s, dek, nonce), 1, true));
      }
    case _ =>
  }

  /** A secret or environment call leaves every row of every other organization as it was. */
  lemma OtherOrganizationsUntouched(s: Suite, enforced: bool, db: Db, call: C.Call, other: Id)
    requires WellFormed(db) && Scoped(call.op) && other != call.org
    ensures AgreeOn(C.Step(s, enforced, db, call).0, db, other)
  {
    hide SliceOf, Rooted, C.SecretOutcome, C.EnvironmentOutcome, C.ProjectOutcome, C.MemberOutcome, C.AccountOutcome;
    WellFormedIsRooted(db);
    var g := C.ContextOf(enforced, call);
    if C.OnSecrets(call.op) {
      SecretCallStaysHome(s, g, db, call.org, call.actor, call.op, other);
    } else {
      EnvironmentCallStaysHome(s, g, db, call.org, call.actor, call.op, other);
    }
  }
}
