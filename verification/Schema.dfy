/**
 The tenant tables as maps from row id to row, and the constraints PostgreSQL keeps
 on them. Columns no service decision depends on (timestamps, TOTP, OAuth) are absent.
 */
module Schema {
  import opened Prelude
  import opened Envelope

  type Id = nat

  datatype Role = Viewer | Member | Admin | Owner

  function Rank(r: Role): nat {
    match r
    case Viewer => 0
    case Member => 1
    case Admin => 2
    case Owner => 3
  }

  function ParseRole(name: string): Option<Role> {
    if name == "viewer" then Some(Viewer)
    else if name == "member" then Some(Member)
    else if name == "admin" then Some(Admin)
    else if name == "owner" then Some(Owner)
    else None
  }

  /** Argon2, taken to be injective. */
  datatype PasswordHash = Argon2(password: string)

  datatype User = User(email: string, password: Option<PasswordHash>, active: bool)
  datatype Organization = Organization(name: string, slug: string)
  datatype Membership = Membership(user: Id, org: Id, role: Role)
  datatype Project = Project(org: Id, name: string, slug: string, description: Option<string>)
  datatype Environment = Environment(project: Id, name: string)
  datatype EncryptionKey = EncryptionKey(env: Id, wrapped: Bytes, keyVersion: int, active: bool)
  datatype Secret = Secret(env: Id, name: string, current: Option<Id>, deleted: bool)
  datatype SecretVersion = SecretVersion(
    secret: Id, key: Id, value: Bytes, iv: Nonce, number: int, createdBy: Id)

  /** The one kind of audit entry the services write: the reveal of a secret's value. */
  datatype AuditEntry = AuditEntry(org: Id, user: Id, secret: Id, name: string, version: Id)

  datatype Db = Db(
    users: map<Id, User>,
    orgs: map<Id, Organization>,
    memberships: map<Id, Membership>,
    projects: map<Id, Project>,
    environments: map<Id, Environment>,
    keys: map<Id, EncryptionKey>,
    secrets: map<Id, Secret>,
    versions: map<Id, SecretVersion>,
    audit: seq<AuditEntry>)

  // -- Constraints, table by table -------------------------------------------

  ghost predicate UniqueEmails(users: map<Id, User>) {
    forall i, j | i in users && j in users && users[i].email == users[j].email :: i == j
  }

  ghost predicate UniqueSlugs(orgs: map<Id, Organization>) {
    forall i, j | i in orgs && j in orgs && orgs[i].slug == orgs[j].slug :: i == j
  }

  ghost predicate MembershipConstraints(memberships: map<Id, Membership>, users: set<Id>, orgs: set<Id>) {
    && (forall i | i in memberships :: memberships[i].user in users && memberships[i].org in orgs)
    && (forall i, j | i in memberships && j in memberships
          && memberships[i].user == memberships[j].user && memberships[i].org == memberships[j].org :: i == j)
  }

  ghost predicate ProjectConstraints(projects: map<Id, Project>, orgs: set<Id>) {
    && (forall i | i in projects :: projects[i].org in orgs)
    && (forall i, j | i in projects && j in projects
          && projects[i].org == projects[j].org && projects[i].slug == projects[j].slug :: i == j)
  }

  ghost predicate EnvironmentConstraints(environments: map<Id, Environment>, projects: set<Id>) {
    && (forall i | i in environments :: environments[i].project in projects)
    && (forall i, j | i in environments && j in environments
          && environments[i].project == environments[j].project && environments[i].name == environments[j].name ::
          i == j)
  }

  ghost predicate KeyConstraints(keys: map<Id, EncryptionKey>, environments: set<Id>) {
    && (forall i | i in keys :: keys[i].env in environments)
    && (forall i, j | i in keys && j in keys
          && keys[i].env == keys[j].env && keys[i].keyVersion == keys[j].keyVersion :: i == j)
    && (forall i, j | i in keys && j in keys
          && keys[i].env == keys[j].env && keys[i].active && keys[j].active :: i == j)
  }

  ghost predicate SecretConstraints(secrets: map<Id, Secret>, environments: set<Id>) {
    && (forall i | i in secrets :: secrets[i].env in environments)
    && (forall i, j | i in secrets && j in secrets
          && secrets[i].env == secrets[j].env && secrets[i].name == secrets[j].name :: i == j)
  }

  ghost predicate VersionConstraints(versions: map<Id, SecretVersion>, secrets: set<Id>, keys: set<Id>,
                                     users: set<Id>) {
    && (forall i | i in versions ::
          versions[i].secret in secrets && versions[i].key in keys && versions[i].createdBy in users)
    && (forall i, j | i in versions && j in versions
          && versions[i].secret == versions[j].secret && versions[i].number == versions[j].number :: i == j)
    && (forall i, j | i in versions && j in versions
          && versions[i].key == versions[j].key && versions[i].iv == versions[j].iv :: i == j)
  }

  /** The deferred foreign key and trigger on secrets.current_version_id, checked at commit. */
  predicate CurrentPointersValid(secrets: map<Id, Secret>, versions: map<Id, SecretVersion>) {
    forall i | i in secrets && secrets[i].current.Some? ::
      secrets[i].current.value in versions && versions[secrets[i].current.value].secret == i
  }

  /** What PostgreSQL keeps after every statement. */
  ghost predicate TableConstraints(db: Db) {
    && UniqueEmails(db.users)
    && UniqueSlugs(db.orgs)
    && MembershipConstraints(db.memberships, db.users.Keys, db.orgs.Keys)
    && ProjectConstraints(db.projects, db.orgs.Keys)
    && EnvironmentConstraints(db.environments, db.projects.Keys)
    && KeyConstraints(db.keys, db.environments.Keys)
    && SecretConstraints(db.secrets, db.environments.Keys)
    && VersionConstraints(db.versions, db.secrets.Keys, db.keys.Keys, db.users.Keys)
  }

  /** What it keeps in every committed state. */
  ghost predicate Constraints(db: Db) {
    TableConstraints(db) && CurrentPointersValid(db.secrets, db.versions)
  }

  // -- The parent chain of a row ---------------------------------------------

  predicate ProjectIn(db: Db, project: Id, org: Id) {
    project in db.projects && db.projects[project].org == org
  }

  predicate EnvironmentIn(db: Db, env: Id, org: Id) {
    env in db.environments && ProjectIn(db, db.environments[env].project, org)
  }

  predicate SecretIn(db: Db, secret: Id, org: Id) {
    secret in db.secrets && EnvironmentIn(db, db.secrets[secret].env, org)
  }

  predicate KeyIn(db: Db, key: Id, org: Id) {
    key in db.keys && EnvironmentIn(db, db.keys[key].env, org)
  }

  predicate VersionIn(db: Db, version: Id, org: Id) {
    version in db.versions && SecretIn(db, db.versions[version].secret, org)
  }

  predicate MembershipIn(db: Db, membership: Id, org: Id) {
    membership in db.memberships && db.memberships[membership].org == org
  }

  predicate IsMember(db: Db, user: Id, org: Id) {
    exists i | i in db.memberships :: db.memberships[i].user == user && db.memberships[i].org == org
  }

  predicate HasRole(db: Db, user: Id, org: Id, minimum: Role) {
    exists i | i in db.memberships ::
      && db.memberships[i].user == user
      && db.memberships[i].org == org
      && Rank(db.memberships[i].role) >= Rank(minimum)
  }
}
