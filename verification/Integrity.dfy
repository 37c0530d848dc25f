/** The schema's constraints hold in every state a run of calls reaches, under every gate. */
module Integrity {
  import opened Prelude
  import opened Schema
  import opened Envelope
  import opened Policies
  import opened Repositories
  import Services
  import opened Calls

  // -- One row at a time -----------------------------------------------------

  lemma UserRow(db: Db, id: Id, row: User)
    requires TableConstraints(db) && id !in db.users && UsersByEmail(db.users, row.email) == {}
    ensures TableConstraints(db.(users := db.users[id := row]))
  {
    assert forall i | i in db.users :: i !in UsersByEmail(db.users, row.email);
  }

  lemma KeyRow(db: Db, id: Id, row: EncryptionKey)
    requires TableConstraints(db) && id !in db.keys && row.env in db.environments && !KeyConflict(db, row)
    ensures TableConstraints(db.(keys := db.keys[id := row]))
  {
    hide UniqueEmails, UniqueSlugs, MembershipConstraints, ProjectConstraints, EnvironmentConstraints;
    hide SecretConstraints;
    MoreKeys(db.versions, db.secrets.Keys, db.keys.Keys, db.users.Keys, id);
    KeyTable(db.keys, db.environments.Keys, id, row);
    hide KeyConstraints, VersionConstraints;
    assert db.keys[id := row].Keys == db.keys.Keys + {id};
  }

  lemma KeyTable(keys: map<Id, EncryptionKey>, environments: set<Id>, id: Id, row: EncryptionKey)
    requires KeyConstraints(keys, environments) && id !in keys && row.env in environments
    requires forall i | i in keys :: keys[i].env == row.env ==>
               keys[i].keyVersion != row.keyVersion && !(keys[i].active && row.active)
    ensures KeyConstraints(keys[id := row], environments)
  {
  }

  lemma MoreKeys(versions: map<Id, SecretVersion>, secrets: set<Id>, keys: set<Id>, users: set<Id>, id: Id)
    requires VersionConstraints(versions, secrets, keys, users)
    ensures VersionConstraints(versions, secrets, keys + {id}, users)
  {
  }

  lemma SecretRow(db: Db, id: Id, row: Secret)
    requires TableConstraints(db) && id !in db.secrets && row.env in db.environments
    requires !SecretNameTaken(db, row.env, row.name)
    ensures TableConstraints(db.(secrets := db.secrets[id := row]))
  {
  }

  lemma VersionRow(db: Db, id: Id, row: SecretVersion)
    requires TableConstraints(db) && id !in db.versions
    requires row.secret in db.secrets && row.key in db.keys && row.createdBy in db.users
    requires !VersionNumberTaken(db, row.secret, row.number) && !KeyIvTaken(db, row.key, row.iv)
    ensures TableConstraints(db.(versions := db.versions[id := row]))
  {
    var versions := db.versions[id := row];
    assert forall i | i in db.versions && db.versions[i].secret == row.secret :: db.versions[i].number != row.number;
    assert forall i | i in db.versions && db.versions[i].key == row.key :: db.versions[i].iv != row.iv;
    VersionTable(db.versions, db.secrets.Keys, db.keys.Keys, db.users.Keys, id, row);
  }

  lemma VersionTable(versions: map<Id, SecretVersion>, secrets: set<Id>, keys: set<Id>, users: set<Id>, id: Id,
                     row: SecretVersion)
    requires VersionConstraints(versions, secrets, keys, users) && id !in versions
    requires row.secret in secrets && row.key in keys && row.createdBy in users
    requires forall i | i in versions && versions[i].secret == row.secret :: versions[i].number != row.number
    requires forall i | i in versions && versions[i].key == row.key :: versions[i].iv != row.iv
    ensures VersionConstraints(versions[id := row], secrets, keys, users)
  {
  }

  lemma MembershipRow(db: Db, id: Id, row: Membership)
    requires TableConstraints(db) && id !in db.memberships && row.user in db.users && row.org in db.orgs
    requires !IsMember(db, row.user, row.org)
    ensures TableConstraints(db.(memberships := db.memberships[id := row]))
  {
    assert forall i | i in db.memberships && db.memberships[i].user == row.user :: db.memberships[i].org != row.org;
    MembershipTable(db.memberships, db.users.Keys, db.orgs.Keys, id, row);
  }

  lemma MembershipTable(memberships: map<Id, Membership>, users: set<Id>, orgs: set<Id>, id: Id, row: Membership)
    requires MembershipConstraints(memberships, users, orgs) && id !in memberships
    requires row.user in users && row.org in orgs
    requires forall i | i in memberships && memberships[i].user == row.user :: memberships[i].org != row.org
    ensures MembershipConstraints(memberships[id := row], users, orgs)
  {
  }

  lemma ProjectRow(db: Db, id: Id, row: Project)
    requires TableConstraints(db) && row.org in db.orgs && !ProjectSlugTaken(db, row.org, row.slug, Some(id))
    ensures TableConstraints(db.(projects := db.projects[id := row]))
  {
    assert db.projects.Keys <= db.projects[id := row].Keys;
  }

  lemma EnvironmentRow(db: Db, id: Id, row: Environment)
    requires TableConstraints(db) && id !in db.environments && row.project in db.projects
    requires !EnvironmentNameTaken(db, row.project, row.name)
    ensures TableConstraints(db.(environments := db.environments[id := row]))
  {
    hide UniqueEmails, UniqueSlugs, MembershipConstraints, ProjectConstraints, VersionConstraints;
    MoreEnvironments(db.keys, db.secrets, db.environments.Keys, id);
    EnvironmentTable(db.environments, db.projects.Keys, id, row);
    hide EnvironmentConstraints, KeyConstraints, SecretConstraints;
    assert db.environments[id := row].Keys == db.environments.Keys + {id};
  }

  lemma EnvironmentTable(environments: map<Id, Environment>, projects: set<Id>, id: Id, row: Environment)
    requires EnvironmentConstraints(environments, projects) && id !in environments && row.project in projects
    requires forall i | i in environments ::
               !(environments[i].project == row.project && environments[i].name == row.name)
    ensures EnvironmentConstraints(environments[id := row], projects)
  {
  }

  lemma MoreEnvironments(keys: map<Id, EncryptionKey>, secrets: map<Id, Secret>, environments: set<Id>, id: Id)
    requires KeyConstraints(keys, environments) && SecretConstraints(secrets, environments)
    ensures KeyConstraints(keys, environments + {id}) && SecretConstraints(secrets, environments + {id})
  {
  }

  lemma OrganizationRow(db: Db, id: Id, row: Organization)
    requires TableConstraints(db) && !OrgSlugTaken(db, row.slug, Some(id))
    ensures TableConstraints(db.(orgs := db.orgs[id := row]))
  {
  }

  /** A change of role, and the removal of a row, touch neither key of the memberships table. */
  lemma MembershipChange(db: Db, id: Id, role: Role)
    requires TableConstraints(db) && id in db.memberships
    ensures TableConstraints(db.(memberships := db.memberships[id := db.memberships[id].(role := role)]))
    ensures TableConstraints(db.(memberships := db.memberships - {id}))
  {
  }

  lemma SecretChange(db: Db, id: Id, row: Secret)
    requires TableConstraints(db) && id in db.secrets
    requires row.env == db.secrets[id].env && row.name == db.secrets[id].name
    ensures TableConstraints(db.(secrets := db.secrets[id := row]))
  {
    hide UniqueEmails, UniqueSlugs, MembershipConstraints, ProjectConstraints, EnvironmentConstraints, KeyConstraints;
    hide VersionConstraints;
    assert db.secrets[id := row].Keys == db.secrets.Keys;
  }

  lemma AuditRows(db: Db, audit: seq<AuditEntry>)
    requires TableConstraints(db)
    ensures TableConstraints(db.(audit := audit))
  {
  }

  lemma RetireKeys(db: Db, env: Id, keys: map<Id, EncryptionKey>)
    requires TableConstraints(db) && keys.Keys == db.keys.Keys
    requires forall i | i in keys :: keys[i] == db.keys[i] || keys[i] == db.keys[i].(active := false)
    ensures TableConstraints(db.(keys := keys))
  {
    hide UniqueEmails, UniqueSlugs, MembershipConstraints, ProjectConstraints, EnvironmentConstraints;
    hide SecretConstraints;
    hide VersionConstraints;
  }

  // -- One call at a time ----------------------------------------------------

  /** A successful call commits a state that meets the constraints. */
  ghost predicate Committed(outcome: Services.Outcome) {
    outcome.Success? ==> Constraints(outcome.value.0)
  }

  lemma RegisterKeeps(db: Db, email: string, password: string, id: Id)
    requires Constraints(db)
    ensures Committed(Services.Register(db, email, password, id))
  {
    hide TableConstraints, CurrentPointersValid, SecretPolicy, VersionPolicy, KeyPolicy;
    if Services.Register(db, email, password, id).Success? {
      UserRow(db, id, User(email, Some(Argon2(password)), true));
    }
  }

  lemma InviteKeeps(g: Gate, db: Db, org: Id, actor: Id, email: string, role: string, id: Id)
    requires Constraints(db)
    ensures Committed(Services.Invite(g, db, org, actor, email, role, id))
  {
    hide TableConstraints, CurrentPointersValid, SecretPolicy, VersionPolicy, KeyPolicy;
    if Services.Invite(g, db, org, actor, email, role, id).Success? {
      MembershipRow(db, id, Membership(Pick(UsersByEmail(db.users, email)).value, org, ParseRole(role).value));
    }
  }

  lemma UpdateRoleKeeps(g: Gate, db: Db, org: Id, actor: Id, membership: Id, role: string)
    requires Constraints(db)
    ensures Committed(Services.UpdateRole(g, db, org, actor, membership, role))
  {
    hide TableConstraints, CurrentPointersValid, SecretPolicy, VersionPolicy, KeyPolicy;
    if Services.UpdateRole(g, db, org, actor, membership, role).Success? {
      MembershipChange(db, membership, ParseRole(role).value);
    }
  }

  lemma RemoveKeeps(g: Gate, db: Db, org: Id, actor: Id, membership: Id)
    requires Constraints(db)
    ensures Committed(Services.Remove(g, db, org, actor, membership))
  {
    hide TableConstraints, CurrentPointersValid, SecretPolicy, VersionPolicy, KeyPolicy;
    if membership in db.memberships {
      MembershipChange(db, membership, Owner);
    }
  }

  lemma CreateOrganizationKeeps(g: Gate, db: Db, name: string, slug: string, user: Id, id: Id, membershipId: Id)
    requires Constraints(db)
    ensures Committed(Services.CreateOrganization(g, db, name, slug, user, id, membershipId))
  {
    hide TableConstraints, CurrentPointersValid, SecretPolicy, VersionPolicy, KeyPolicy;
    if Services.CreateOrganization(g, db, name, slug, user, id, membershipId).Success? {
      OrganizationRow(db, id, Organization(name, slug));
      MembershipRow(db.(orgs := db.orgs[id := Organization(name, slug)]), membershipId, Membership(user, id, Owner));
    }
  }

  lemma UpdateOrganizationKeeps(g: Gate, db: Db, org: Id, actor: Id, name: Option<string>, slug: Option<string>)
    requires Constraints(db)
    ensures Committed(Services.UpdateOrganization(g, db, org, actor, name, slug))
  {
    hide TableConstraints, CurrentPointersValid, SecretPolicy, VersionPolicy, KeyPolicy;
    var r := Services.UpdateOrganization(g, db, org, actor, name, slug);
    if r.Success? && r.value.0 != db {
      OrganizationRow(db, org, r.value.1.organization);
    }
  }

  lemma CreateProjectKeeps(g: Gate, db: Db, org: Id, actor: Id, name: string, slug: string,
                           description: Option<string>, id: Id)
    requires Constraints(db)
    ensures Committed(Services.CreateProject(g, db, org, actor, name, slug, description, id))
  {
    hide TableConstraints, CurrentPointersValid, SecretPolicy, VersionPolicy, KeyPolicy;
    if Services.CreateProject(g, db, org, actor, name, slug, description, id).Success? {
      assert !ProjectSlugTaken(db, org, slug, Some(id));
      ProjectRow(db, id, Project(org, name, slug, description));
    }
  }

  lemma UpdateProjectKeeps(g: Gate, db: Db, org: Id, actor: Id, project: Id, name: Option<string>,
                           slug: Option<string>, description: Option<string>)
    requires Constraints(db)
    ensures Committed(Services.UpdateProject(g, db, org, actor, project, name, slug, description))
  {
    assert project in db.projects ==> db.projects[project].org in db.orgs;
    hide TableConstraints, CurrentPointersValid, SecretPolicy, VersionPolicy, KeyPolicy;
    var r := Services.UpdateProject(g, db, org, actor, project, name, slug, description);
    if r.Success? && r.value.0 != db {
      ProjectRow(db, project, r.value.1.project);
    }
  }

  lemma CreateEnvironmentKeeps(s: Suite, g: Gate, db: Db, org: Id, actor: Id, project: Id, name: string,
                               id: Id, keyId: Id, dek: Key, nonce: Nonce)
    requires Constraints(db)
    ensures Committed(Services.CreateEnvironment(s, g, db, org, actor, project, name, id, keyId, dek, nonce))
  {
    hide TableConstraints, CurrentPointersValid, SecretPolicy, VersionPolicy, KeyPolicy;
    if Services.CreateEnvironment(s, g, db, org, actor, project, name, id, keyId, dek, nonce).Success? {
      EnvironmentRow(db, id, Environment(project, name));
      var db1 := db.(environments := db.environments[id := Environment(project, name)]);
      KeyRow(db1, keyId, EncryptionKey(id, CreateWrappedDek(s, dek, nonce), 1, true));
    }
  }

  lemma SwitchActiveKeyKeeps(s: Suite, db: Db, env: Id, keyId: Id, keyVersion: int, dek: Key, nonce: Nonce)
    requires Constraints(db)
    ensures Committed(Services.SwitchActiveKey(s, db, env, keyId, keyVersion, dek, nonce))
  {
    hide TableConstraints, CurrentPointersValid, SecretPolicy, VersionPolicy, KeyPolicy;
    var r := Services.SwitchActiveKey(s, db, env, keyId, keyVersion, dek, nonce);
    if r.Success? {
      var retired := map i | i in db.keys ::
        if db.keys[i].env == env then db.keys[i].(active := false) else db.keys[i];
      RetireKeys(db, env, retired);
      KeyRow(db.(keys := retired), keyId, EncryptionKey(env, CreateWrappedDek(s, dek, nonce), keyVersion, true));
    }
  }

  lemma CreateSecretKeeps(s: Suite, g: Gate, db: Db, org: Id, actor: Id, env: Id, name: string, plain: string,
                          iv: Nonce, id: Id, versionId: Id)
    requires Constraints(db)
    ensures Committed(Services.CreateSecret(s, g, db, org, actor, env, name, plain, iv, id, versionId))
  {
    hide TableConstraints, CurrentPointersValid, SecretPolicy, VersionPolicy, KeyPolicy;
    if Services.CreateSecret(s, g, db, org, actor, env, name, plain, iv, id, versionId).Success? {
      var key := Pick(ActiveKeys(db, g, env)).value;
      var value := Services.Encrypted(s, plain, iv, db.keys[key].wrapped).value;
      SecretRow(db, id, Secret(env, name, None, false));
      var db1 := db.(secrets := db.secrets[id := Secret(env, name, None, false)]);
      VersionKeeps(g, db1, versionId, SecretVersion(id, key, value, iv, 1, actor));
    }
  }

  lemma VersionKeeps(g: Gate, db: Db, versionId: Id, row: SecretVersion)
    requires TableConstraints(db)
    ensures Services.FinishVersion(g, db, versionId, row).Success? ==>
              Constraints(Services.FinishVersion(g, db, versionId, row).value)
  {
    hide TableConstraints, CurrentPointersValid, SecretPolicy, VersionPolicy, KeyPolicy;
    if Services.FinishVersion(g, db, versionId, row).Success? {
      VersionRow(db, versionId, row);
      var db1 := db.(versions := db.versions[versionId := row]);
      SecretChange(db1, row.secret, db1.secrets[row.secret].(current := Some(versionId)));
    }
  }

  lemma AddNewVersionKeeps(s: Suite, g: Gate, db: Db, org: Id, actor: Id, secret: Id, plain: string, iv: Nonce,
                           versionId: Id)
    requires Constraints(db)
    ensures Committed(Services.AddNewVersion(s, g, db, org, actor, secret, plain, iv, versionId))
  {
    hide TableConstraints, CurrentPointersValid, SecretPolicy, VersionPolicy, KeyPolicy;
    var row := Services.PrepareVersion(s, g, db, org, actor, secret, plain, iv);
    if row.Success? {
      VersionKeeps(g, db, versionId, row.value);
    }
  }

  lemma DeleteSecretKeeps(g: Gate, db: Db, org: Id, actor: Id, secret: Id)
    requires Constraints(db)
    ensures Committed(Services.DeleteSecret(g, db, org, actor, secret))
  {
    hide TableConstraints, CurrentPointersValid, SecretPolicy, VersionPolicy, KeyPolicy;
    if secret in db.secrets {
      SecretChange(db, secret, db.secrets[secret].(deleted := true));
    }
  }

  lemma GetDecryptedValueKeeps(s: Suite, g: Gate, db: Db, org: Id, actor: Id, secret: Id)
    requires Constraints(db)
    ensures Committed(Services.GetDecryptedValue(s, g, db, org, actor, secret))
  {
    hide TableConstraints, CurrentPointersValid, SecretPolicy, VersionPolicy, KeyPolicy;
    var r := Services.GetDecryptedValue(s, g, db, org, actor, secret);
    if r.Success? {
      AuditRows(db, r.value.0.audit);
    }
  }

  /** Every call, with or without policies in force, takes a state that meets the constraints
      to one that does. */
  lemma StepKeepsConstraints(s: Suite, enforced: bool, db: Db, call: Call)
    requires Constraints(db)
    ensures Constraints(Step(s, enforced, db, call).0)
  {
    hide Constraints, SecretPolicy, VersionPolicy, KeyPolicy;
    var g := ContextOf(enforced, call);
    var org, actor := call.org, call.actor;
    match call.op
    case Register(email, password, id) => RegisterKeeps(db, email, password, id);
    case CreateOrganization(name, slug, id, ownerId) => CreateOrganizationKeeps(g, db, name, slug, actor, id, ownerId);
    case UpdateOrganization(name, slug) => UpdateOrganizationKeeps(g, db, org, actor, name, slug);
    case ListMembers =>
    case Invite(email, role, id) => InviteKeeps(g, db, org, actor, email, role, id);
    case UpdateRole(membership, role) => UpdateRoleKeeps(g, db, org, actor, membership, role);
    case Remove(membership) => RemoveKeeps(g, db, org, actor, membership);
    case CreateProject(name, slug, description, id) =>
      CreateProjectKeeps(g, db, org, actor, name, slug, description, id);
    case ListProjects =>
    case GetProject(project) =>
    case UpdateProject(project, name, slug, description) =>
      UpdateProjectKeeps(g, db, org, actor, project, name, slug, description);
    case CreateEnvironment(project, name, id, keyId, dek, nonce) =>
      CreateEnvironmentKeeps(s, g, db, org, actor, project, name, id, keyId, dek, nonce);
    case ListEnvironments(project) =>
    case GetEnvironment(env) =>
    case SwitchActiveKey(env, keyId, keyVersion, dek, nonce) =>
      SwitchActiveKeyKeeps(s, db, env, keyId, keyVersion, dek, nonce);
    case CreateSecret(env, name, plain, iv, id, versionId) =>
      CreateSecretKeeps(s, g, db, org, actor, env, name, plain, iv, id, versionId);
    case AddNewVersion(secret, plain, iv, versionId) =>
      AddNewVersionKeeps(s, g, db, org, actor, secret, plain, iv, versionId);
    case ListSecrets(env) =>
    case Reveal(secret) => GetDecryptedValueKeeps(s, g, db, org, actor, secret);
    case DeleteSecret(secret) => DeleteSecretKeeps(g, db, org, actor, secret);
  }

  lemma {:induction false} ReachableKeepsConstraints(s: Suite, enforced: bool, calls: seq<Call>)
    ensures Constraints(Run(s, enforced, calls))
  {
    if calls != [] {
      ReachableKeepsConstraints(s, enforced, calls[..|calls| - 1]);
      StepKeepsConstraints(s, enforced, Run(s, enforced, calls[..|calls| - 1]), calls[|calls| - 1]);
    }
  }
}
