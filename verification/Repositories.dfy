/**
 The repositories: reads filtered by the SELECT policies, and writes checked first
 against the policies and then against the constraints of their table. A lookup is
 the choice of an element of the set of matching visible rows, so it depends on
 nothing but that set.
 */
module Repositories {
  import opened Prelude
  import opened Envelope
  import opened Schema
  import opened Policies

  /** Why a refresh token is turned down; the messages tell, the exception is one. */
  datatype TokenFault = Unknown | Reused | Expired | Unusable

  datatype Error =
    | EmailAlreadyRegistered
    | InvalidCredentials
    | InactiveUser
    | InvalidRefreshToken(fault: TokenFault)
    | MembershipRequired
    | InsufficientRole
    | InvalidMembershipRole
    | UserNotFound
    | MembershipNotFound
    | MembershipAlreadyExists
    | LastOwner
    | OrganizationNotFound
    | OrganizationAlreadyExists
    | ProjectNotFound
    | ProjectAlreadyExists
    | EnvironmentProjectNotFound
    | EnvironmentNotFound
    | EnvironmentAlreadyExists
    | SecretNotFound
    | SecretAlreadyExists
    | EncryptionKeyNotFound
    | NoActiveVersion
    | VersionRecordMissing
    | Crypto(cause: CryptoError)
    | IntegrityError
    | PolicyViolation
    | StaleData
    | TriggerError
    | NotVisibleAfterCreate

  /** The HTTP status of an exception; what the map does not list is an internal error. */
  function Status(e: Error): nat {
    match e
    case InvalidCredentials => 401
    case InvalidRefreshToken(_) => 401
    case InactiveUser => 403
    case MembershipRequired => 403
    case InsufficientRole => 403
    case LastOwner => 403
    case EmailAlreadyRegistered => 409
    case OrganizationAlreadyExists => 409
    case MembershipAlreadyExists => 409
    case ProjectAlreadyExists => 409
    case EnvironmentAlreadyExists => 409
    case SecretAlreadyExists => 409
    case OrganizationNotFound => 404
    case MembershipNotFound => 404
    case UserNotFound => 404
    case ProjectNotFound => 404
    case EnvironmentNotFound => 404
    case SecretNotFound => 404
    case EncryptionKeyNotFound => 404
    case InvalidMembershipRole => 422
    case _ => 500
  }

  /** How an actor without the role a call asks for is turned away. */
  function RoleError(db: Db, actor: Id, org: Id): Error {
    if IsMember(db, actor, org) then InsufficientRole else MembershipRequired
  }

  /** scalar_one_or_none over the ids of the matching rows. */
  ghost function Pick(ids: set<Id>): (r: Option<Id>)
    ensures r.None? <==> ids == {}
    ensures r.Some? ==> r.value in ids
  {
    if ids == {} then None else (var i :| i in ids; Some(i))
  }

  ghost predicate AtMostOne(ids: set<Id>) {
    forall i, j | i in ids && j in ids :: i == j
  }

  // -- Reads -----------------------------------------------------------------

  function UsersByEmail(users: map<Id, User>, email: string): set<Id> {
    set i | i in users && users[i].email == email
  }

  function MembershipsOf(db: Db, g: Gate, user: Id, org: Id): set<Id> {
    set i | i in db.memberships && MembershipSelect(db, g, db.memberships[i])
            && db.memberships[i].user == user && db.memberships[i].org == org
  }

  function GetMembership(db: Db, g: Gate, id: Id): Option<Membership> {
    if id in db.memberships && MembershipSelect(db, g, db.memberships[id])
    then Some(db.memberships[id]) else None
  }

  function MembershipsByOrganization(db: Db, g: Gate, org: Id): map<Id, Membership> {
    map i | i in db.memberships && MembershipSelect(db, g, db.memberships[i]) && db.memberships[i].org == org
      :: db.memberships[i]
  }

  function OwnerRows(db: Db, g: Gate, org: Id): set<Id> {
    set i | i in db.memberships && MembershipSelect(db, g, db.memberships[i])
            && db.memberships[i].org == org && db.memberships[i].role == Owner
  }

  function CountOwners(db: Db, g: Gate, org: Id): nat {
    |OwnerRows(db, g, org)|
  }

  function GetOrganization(db: Db, g: Gate, id: Id): Option<Organization> {
    if id in db.orgs && OrganizationSelect(db, g, id) then Some(db.orgs[id]) else None
  }

  function OrganizationsBySlug(db: Db, g: Gate, slug: string): set<Id> {
    set i | i in db.orgs && OrganizationSelect(db, g, i) && db.orgs[i].slug == slug
  }

  function GetProject(db: Db, g: Gate, id: Id): Option<Project> {
    if id in db.projects && ProjectPolicy(db, g, db.projects[id]) then Some(db.projects[id]) else None
  }

  function ProjectsByOrganization(db: Db, g: Gate, org: Id): map<Id, Project> {
    map i | i in db.projects && ProjectPolicy(db, g, db.projects[i]) && db.projects[i].org == org
      :: db.projects[i]
  }

  function ProjectsBySlug(db: Db, g: Gate, org: Id, slug: string): set<Id> {
    set i | i in db.projects && ProjectPolicy(db, g, db.projects[i])
            && db.projects[i].org == org && db.projects[i].slug == slug
  }

  function GetEnvironment(db: Db, g: Gate, id: Id): Option<Environment> {
    if id in db.environments && EnvironmentPolicy(db, g, db.environments[id])
    then Some(db.environments[id]) else None
  }

  function EnvironmentsByProject(db: Db, g: Gate, project: Id): map<Id, Environment> {
    map i | i in db.environments && EnvironmentPolicy(db, g, db.environments[i])
            && db.environments[i].project == project
      :: db.environments[i]
  }

  function EnvironmentsByName(db: Db, g: Gate, project: Id, name: string): set<Id> {
    set i | i in db.environments && EnvironmentPolicy(db, g, db.environments[i])
            && db.environments[i].project == project && db.environments[i].name == name
  }

  function GetSecret(db: Db, g: Gate, id: Id): Option<Secret> {
    if id in db.secrets && SecretPolicy(db, g, db.secrets[id]) then Some(db.secrets[id]) else None
  }

  function LiveSecretsByName(db: Db, g: Gate, env: Id, name: string): set<Id> {
    set i | i in db.secrets && SecretPolicy(db, g, db.secrets[i])
            && db.secrets[i].env == env && db.secrets[i].name == name && !db.secrets[i].deleted
  }

  function LiveSecrets(db: Db, g: Gate, env: Id): map<Id, Secret> {
    map i | i in db.secrets && SecretPolicy(db, g, db.secrets[i]) && db.secrets[i].env == env && !db.secrets[i].deleted
      :: db.secrets[i]
  }

  function GetVersion(db: Db, g: Gate, id: Id): Option<SecretVersion> {
    if id in db.versions && VersionPolicy(db, g, db.versions[id]) then Some(db.versions[id]) else None
  }

  function VersionsOf(db: Db, g: Gate, secret: Id): set<Id> {
    set i | i in db.versions && VersionPolicy(db, g, db.versions[i]) && db.versions[i].secret == secret
  }

  /** ORDER BY version_number DESC LIMIT 1. */
  function LatestVersions(db: Db, g: Gate, secret: Id): (r: set<Id>)
    ensures r <= db.versions.Keys
  {
    set i | i in VersionsOf(db, g, secret)
            && (forall j | j in VersionsOf(db, g, secret) :: db.versions[j].number <= db.versions[i].number)
  }

  function GetKey(db: Db, g: Gate, id: Id): Option<EncryptionKey> {
    if id in db.keys && KeyPolicy(db, g, db.keys[id]) then Some(db.keys[id]) else None
  }

  function ActiveKeys(db: Db, g: Gate, env: Id): set<Id> {
    set i | i in db.keys && KeyPolicy(db, g, db.keys[i]) && db.keys[i].env == env && db.keys[i].active
  }

  // -- Inserts. The id PostgreSQL generates is an input. ---------------------

  function InsertUser(users: map<Id, User>, id: Id, row: User): Result<map<Id, User>, Error> {
    if id in users || UsersByEmail(users, row.email) != {} then Failure(IntegrityError)
    else Success(users[id := row])
  }

  function InsertMembership(db: Db, g: Gate, id: Id, row: Membership): Result<Db, Error> {
    if !MembershipInsert(db, g, row) || !MembershipSelect(db, g, row) then Failure(PolicyViolation)
    else if id in db.memberships || row.user !in db.users || row.org !in db.orgs || IsMember(db, row.user, row.org)
    then Failure(IntegrityError)
    else Success(db.(memberships := db.memberships[id := row]))
  }

  predicate ProjectSlugTaken(db: Db, org: Id, slug: string, except: Option<Id>) {
    exists i | i in db.projects ::
      db.projects[i].org == org && db.projects[i].slug == slug && Some(i) != except
  }

  function InsertProject(db: Db, g: Gate, id: Id, row: Project): Result<Db, Error> {
    if !ProjectPolicy(db, g, row) then Failure(PolicyViolation)
    else if id in db.projects || row.org !in db.orgs || ProjectSlugTaken(db, row.org, row.slug, None)
    then Failure(IntegrityError)
    else Success(db.(projects := db.projects[id := row]))
  }

  predicate EnvironmentNameTaken(db: Db, project: Id, name: string) {
    exists i | i in db.environments :: db.environments[i].project == project && db.environments[i].name == name
  }

  function InsertEnvironment(db: Db, g: Gate, id: Id, row: Environment): Result<Db, Error> {
    if !EnvironmentPolicy(db, g, row) then Failure(PolicyViolation)
    else if id in db.environments || row.project !in db.projects || EnvironmentNameTaken(db, row.project, row.name)
    then Failure(IntegrityError)
    else Success(db.(environments := db.environments[id := row]))
  }

  predicate KeyConflict(db: Db, row: EncryptionKey) {
    exists i | i in db.keys ::
      && db.keys[i].env == row.env
      && (db.keys[i].keyVersion == row.keyVersion || (db.keys[i].active && row.active))
  }

  function InsertKey(db: Db, g: Gate, id: Id, row: EncryptionKey): Result<Db, Error> {
    if !KeyPolicy(db, g, row) then Failure(PolicyViolation)
    else if id in db.keys || row.env !in db.environments || KeyConflict(db, row)
    then Failure(IntegrityError)
    else Success(db.(keys := db.keys[id := row]))
  }

  /** uq_secret_key_per_env counts soft-deleted secrets too. */
  predicate SecretNameTaken(db: Db, env: Id, name: string) {
    exists i | i in db.secrets :: db.secrets[i].env == env && db.secrets[i].name == name
  }

  function InsertSecret(db: Db, g: Gate, id: Id, row: Secret): Result<Db, Error> {
    if !SecretPolicy(db, g, row) then Failure(PolicyViolation)
    else if id in db.secrets || row.env !in db.environments || SecretNameTaken(db, row.env, row.name)
    then Failure(IntegrityError)
    else Success(db.(secrets := db.secrets[id := row]))
  }

  predicate VersionNumberTaken(db: Db, secret: Id, number: int) {
    exists i | i in db.versions :: db.versions[i].secret == secret && db.versions[i].number == number
  }

  predicate KeyIvTaken(db: Db, key: Id, iv: Nonce) {
    exists i | i in db.versions :: db.versions[i].key == key && db.versions[i].iv == iv
  }

  function InsertVersion(db: Db, g: Gate, id: Id, row: SecretVersion): Result<Db, Error> {
    if !VersionPolicy(db, g, row) then Failure(PolicyViolation)
    else if id in db.versions || row.secret !in db.secrets || row.key !in db.keys || row.createdBy !in db.users
         || VersionNumberTaken(db, row.secret, row.number) || KeyIvTaken(db, row.key, row.iv)
    then Failure(IntegrityError)
    else Success(db.(versions := db.versions[id := row]))
  }

  function InsertAudit(db: Db, g: Gate, row: AuditEntry): Result<Db, Error> {
    if !AuditPolicy(db, g, row) then Failure(PolicyViolation)
    else if row.org !in db.orgs || row.user !in db.users then Failure(IntegrityError)
    else Success(db.(audit := db.audit + [row]))
  }

  // -- Updates and deletes ---------------------------------------------------

  /** Flush of a changed ORM row: no row matched under RLS is a stale-data error. */
  function PointSecret(db: Db, g: Gate, id: Id, version: Id): Result<Db, Error> {
    if GetSecret(db, g, id).None? then Failure(StaleData)
    else
      var row := db.secrets[id].(current := Some(version));
      if !SecretPolicy(db, g, row) then Failure(PolicyViolation)
      else Success(db.(secrets := db.secrets[id := row]))
  }

  /** A bulk UPDATE: rows hidden by RLS are silently skipped. */
  function SoftDelete(db: Db, g: Gate, id: Id): Result<Db, Error> {
    if GetSecret(db, g, id).None? then Success(db)
    else
      var row := db.secrets[id].(deleted := true);
      if !SecretPolicy(db, g, row) then Failure(PolicyViolation)
      else Success(db.(secrets := db.secrets[id := row]))
  }

  function SetRole(db: Db, g: Gate, id: Id, role: Role): Result<Db, Error> {
    if GetMembership(db, g, id).None? || !MembershipUpdateUsing(db, g, db.memberships[id]) then Failure(StaleData)
    else
      var row := db.memberships[id].(role := role);
      if !MembershipUpdateCheck(db, g, row) || !MembershipSelect(db, g, row) then Failure(PolicyViolation)
      else Success(db.(memberships := db.memberships[id := row]))
  }

  /** DELETE ... WHERE id: a row hidden by RLS stays, without an error. */
  function DeleteMembership(db: Db, g: Gate, id: Id): Db {
    if GetMembership(db, g, id).None? || !MembershipDelete(db, g, db.memberships[id]) then db
    else db.(memberships := db.memberships - {id})
  }

  predicate OrgSlugTaken(db: Db, slug: string, except: Option<Id>) {
    exists i | i in db.orgs :: db.orgs[i].slug == slug && Some(i) != except
  }

  function UpdateOrganizationRow(db: Db, g: Gate, id: Id, row: Organization): Result<Db, Error> {
    if GetOrganization(db, g, id).None? || !OrganizationUpdate(db, g, id) then Failure(StaleData)
    else if OrgSlugTaken(db, row.slug, Some(id)) then Failure(IntegrityError)
    else Success(db.(orgs := db.orgs[id := row]))
  }

  function UpdateProjectRow(db: Db, g: Gate, id: Id, row: Project): Result<Db, Error> {
    if GetProject(db, g, id).None? then Failure(StaleData)
    else if !ProjectPolicy(db, g, row) then Failure(PolicyViolation)
    else if ProjectSlugTaken(db, row.org, row.slug, Some(id)) then Failure(IntegrityError)
    else Success(db.(projects := db.projects[id := row]))
  }

  /** COMMIT runs the deferred checks. */
  function Commit(db: Db): Result<Db, Error> {
    if CurrentPointersValid(db.secrets, db.versions) then Success(db) else Failure(TriggerError)
  }
}
