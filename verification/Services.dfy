/**
 The tenant services, one function per call, as a sequence of repository steps on the
 transaction's view of the database. A failed call yields no new state: the unit of work
 rolls back. UnitOfWork.dfy carries the same calls out step by step and is proved to
 commit exactly what these functions say.
 */
module Services {
  import opened Prelude
  import opened Envelope
  import opened Schema
  import opened Policies
  import opened Repositories

  datatype Answer =
    | Done
    | Created(id: Id)
    | Plaintext(text: string)
    | SecretRows(secrets: map<Id, Secret>)
    | EnvironmentRows(environments: map<Id, Environment>)
    | EnvironmentRow(environment: Environment)
    | ProjectRows(projects: map<Id, Project>)
    | ProjectRow(project: Project)
    | MembershipRows(memberships: map<Id, Membership>)
    | MembershipRow(membership: Membership)
    | OrganizationRow(organization: Organization)

  /** The state a call commits and its answer, or the exception it raises. */
  type Outcome = Result<(Db, Answer), Error>

  // -- Role checks -----------------------------------------------------------

  ghost function RequireOrgRole(db: Db, g: Gate, org: Id, actor: Id, minimum: Role): (r: Result<Membership, Error>)
    ensures r.Failure? ==> r.error in {MembershipRequired, InsufficientRole}
  {
    match Pick(MembershipsOf(db, g, actor, org))
    case None => Failure(MembershipRequired)
    case Some(i) =>
      var m := db.memberships[i];
      if Rank(m.role) < Rank(minimum) then Failure(InsufficientRole) else Success(m)
  }

  // -- Secrets ---------------------------------------------------------------

  function ResolveEnvironmentOrg(db: Db, g: Gate, env: Id, org: Id): Result<(), Error> {
    match GetEnvironment(db, g, env)
    case None => Failure(EnvironmentNotFound)
    case Some(e) =>
      match GetProject(db, g, e.project)
      case None => Failure(EnvironmentNotFound)
      case Some(p) => if p.org != org then Failure(EnvironmentNotFound) else Success(())
  }

  function GetOwnedSecret(db: Db, g: Gate, secret: Id, org: Id): Result<Secret, Error> {
    match GetSecret(db, g, secret)
    case None => Failure(SecretNotFound)
    case Some(row) =>
      if row.deleted then Failure(SecretNotFound)
      else
        var _ :- ResolveEnvironmentOrg(db, g, row.env, org);
        Success(row)
  }

  function Encrypted(s: Suite, plain: string, iv: Nonce, wrapped: Bytes): Result<Bytes, Error> {
    match EncryptSecret(s, plain, iv, wrapped)
    case Failure(e) => Failure(Crypto(e))
    case Success(value) => Success(value)
  }

  function Decrypted(s: Suite, value: Bytes, iv: Nonce, wrapped: Bytes): Result<string, Error> {
    match DecryptSecret(s, value, iv, wrapped)
    case Failure(e) => Failure(Crypto(e))
    case Success(plain) => Success(plain)
  }

  ghost function CreateSecret(s: Suite, g: Gate, db: Db, org: Id, actor: Id, env: Id, name: string, plain: string,
                              iv: Nonce, id: Id, versionId: Id): Outcome
  {
    var _ :- RequireOrgRole(db, g, org, actor, Member);
    var _ :- ResolveEnvironmentOrg(db, g, env, org);
    if Pick(LiveSecretsByName(db, g, env, name)).Some? then Failure(SecretAlreadyExists)
    else
      match Pick(ActiveKeys(db, g, env))
      case None => Failure(EncryptionKeyNotFound)
      case Some(key) =>
        var value :- Encrypted(s, plain, iv, db.keys[key].wrapped);
        var db1 :- InsertSecret(db, g, id, Secret(env, name, None, false));
        var db2 :- FinishVersion(g, db1, versionId, SecretVersion(id, key, value, iv, 1, actor));
        Success((db2, Created(id)))
  }

  ghost function NextVersionNumber(db: Db, g: Gate, secret: Id): int {
    match Pick(LatestVersions(db, g, secret))
    case None => 1
    case Some(v) => db.versions[v].number + 1
  }

  /** add_new_version up to the row it is about to insert: only reads. */
  ghost function PrepareVersion(s: Suite, g: Gate, db: Db, org: Id, actor: Id, secret: Id, plain: string, iv: Nonce)
    : Result<SecretVersion, Error>
  {
    var _ :- RequireOrgRole(db, g, org, actor, Member);
    var row :- GetOwnedSecret(db, g, secret, org);
    match Pick(ActiveKeys(db, g, row.env))
    case None => Failure(EncryptionKeyNotFound)
    case Some(key) =>
      var value :- Encrypted(s, plain, iv, db.keys[key].wrapped);
      Success(SecretVersion(secret, key, value, iv, NextVersionNumber(db, g, secret), actor))
  }

  /** The end both writers share: insert the version row, move the pointer, commit. */
  function FinishVersion(g: Gate, db: Db, versionId: Id, row: SecretVersion): Result<Db, Error> {
    var db1 :- InsertVersion(db, g, versionId, row);
    var db2 :- PointSecret(db1, g, row.secret, versionId);
    Commit(db2)
  }

  ghost function AddNewVersion(s: Suite, g: Gate, db: Db, org: Id, actor: Id, secret: Id, plain: string,
                               iv: Nonce, versionId: Id): Outcome
  {
    var row :- PrepareVersion(s, g, db, org, actor, secret, plain, iv);
    var db' :- FinishVersion(g, db, versionId, row);
    Success((db', Created(versionId)))
  }

  ghost function ListSecrets(g: Gate, db: Db, org: Id, actor: Id, env: Id): Outcome {
    var _ :- RequireOrgRole(db, g, org, actor, Viewer);
    var _ :- ResolveEnvironmentOrg(db, g, env, org);
    Success((db, SecretRows(LiveSecrets(db, g, env))))
  }

  ghost function GetDecryptedValue(s: Suite, g: Gate, db: Db, org: Id, actor: Id, secret: Id): Outcome {
    var _ :- RequireOrgRole(db, g, org, actor, Member);
    var row :- GetOwnedSecret(db, g, secret, org);
    match row.current
    case None => Failure(NoActiveVersion)
    case Some(vid) =>
      match GetVersion(db, g, vid)
      case None => Failure(VersionRecordMissing)
      case Some(v) =>
        match GetKey(db, g, v.key)
        case None => Failure(EncryptionKeyNotFound)
        case Some(key) =>
          var plain :- Decrypted(s, v.value, v.iv, key.wrapped);
          var db1 :- InsertAudit(db, g, AuditEntry(org, actor, secret, row.name, vid));
          var db2 :- Commit(db1);
          Success((db2, Plaintext(plain)))
  }

  ghost function DeleteSecret(g: Gate, db: Db, org: Id, actor: Id, secret: Id): Outcome {
    var _ :- RequireOrgRole(db, g, org, actor, Member);
    var _ :- GetOwnedSecret(db, g, secret, org);
    var db1 :- SoftDelete(db, g, secret);
    var db2 :- Commit(db1);
    Success((db2, Done))
  }

  // -- Environments ----------------------------------------------------------

  ghost function CreateEnvironment(s: Suite, g: Gate, db: Db, org: Id, actor: Id, project: Id, name: string,
                                   id: Id, keyId: Id, dek: Key, nonce: Nonce): Outcome
  {
    var _ :- RequireOrgRole(db, g, org, actor, Member);
    match GetProject(db, g, project)
    case None => Failure(EnvironmentProjectNotFound)
    case Some(p) =>
      if p.org != org then Failure(EnvironmentProjectNotFound)
      else if Pick(EnvironmentsByName(db, g, project, name)).Some? then Failure(EnvironmentAlreadyExists)
      else
        var db1 :- InsertEnvironment(db, g, id, Environment(project, name));
        var committed := CommitEnvironmentKey(s, g, db1, id, keyId, dek, nonce);
        if committed == Failure(IntegrityError) then Failure(EnvironmentAlreadyExists)
        else
          var db2 :- committed;
          Success((db2, Created(id)))
  }

  function CommitEnvironmentKey(s: Suite, g: Gate, db: Db, env: Id, keyId: Id, dek: Key, nonce: Nonce)
    : Result<Db, Error>
  {
    var db1 :- InsertKey(db, g, keyId, EncryptionKey(env, CreateWrappedDek(s, dek, nonce), 1, true));
    Commit(db1)
  }

  ghost function ListEnvironments(g: Gate, db: Db, org: Id, actor: Id, project: Id)
    : Outcome
  {
    var _ :- RequireOrgRole(db, g, org, actor, Viewer);
    match GetProject(db, g, project)
    case None => Failure(EnvironmentProjectNotFound)
    case Some(p) =>
      if p.org != org then Failure(EnvironmentProjectNotFound)
      else Success((db, EnvironmentRows(EnvironmentsByProject(db, g, project))))
  }

  ghost function GetEnvironmentFor(g: Gate, db: Db, org: Id, actor: Id, env: Id): Outcome {
    var _ :- RequireOrgRole(db, g, org, actor, Viewer);
    match GetEnvironment(db, g, env)
    case None => Failure(EnvironmentNotFound)
    case Some(e) =>
      match GetProject(db, g, e.project)
      case None => Failure(EnvironmentNotFound)
      case Some(p) => if p.org != org then Failure(EnvironmentNotFound) else Success((db, EnvironmentRow(e)))
  }

  // -- Projects --------------------------------------------------------------

  ghost function CreateProject(g: Gate, db: Db, org: Id, actor: Id, name: string, slug: string,
                               description: Option<string>, id: Id): Outcome
  {
    var _ :- RequireOrgRole(db, g, org, actor, Member);
    if Pick(ProjectsBySlug(db, g, org, slug)).Some? then Failure(ProjectAlreadyExists)
    else
      var inserted := InsertProject(db, g, id, Project(org, name, slug, description));
      if inserted == Failure(IntegrityError) then Failure(ProjectAlreadyExists)
      else
        var db1 :- inserted;
        var db2 :- Commit(db1);
        Success((db2, Created(id)))
  }

  ghost function ListProjects(g: Gate, db: Db, org: Id, actor: Id): Outcome {
    var _ :- RequireOrgRole(db, g, org, actor, Viewer);
    Success((db, ProjectRows(ProjectsByOrganization(db, g, org))))
  }

  ghost function OwnProject(g: Gate, db: Db, org: Id, actor: Id, project: Id): Result<Project, Error> {
    var _ :- RequireOrgRole(db, g, org, actor, Viewer);
    match GetProject(db, g, project)
    case None => Failure(ProjectNotFound)
    case Some(p) => if p.org != org then Failure(ProjectNotFound) else Success(p)
  }

  ghost function GetProjectFor(g: Gate, db: Db, org: Id, actor: Id, project: Id): Outcome {
    var p :- OwnProject(g, db, org, actor, project);
    Success((db, ProjectRow(p)))
  }

  function Updated<T>(field: Option<T>, old': T): T {
    if field.Some? then field.value else old'
  }

  ghost function UpdateProject(g: Gate, db: Db, org: Id, actor: Id, project: Id, name: Option<string>,
                               slug: Option<string>, description: Option<string>): Outcome
  {
    var _ :- RequireOrgRole(db, g, org, actor, Member);
    var p :- OwnProject(g, db, org, actor, project);
    var conflict := if slug.Some? && slug.value != p.slug then Pick(ProjectsBySlug(db, g, org, slug.value)) else None;
    if conflict.Some? && conflict.value != project then Failure(ProjectAlreadyExists)
    else
      var row := p.(slug := Updated(slug, p.slug), name := Updated(name, p.name),
                    description := if description.Some? then description else p.description);
      if row == p then Success((db, ProjectRow(p)))
      else
        var updated := UpdateProjectRow(db, g, project, row);
        if updated == Failure(IntegrityError) then Failure(ProjectAlreadyExists)
        else
          var db1 :- updated;
          var db2 :- Commit(db1);
          Success((db2, ProjectRow(row)))
  }

  // -- Memberships -----------------------------------------------------------

  ghost function ListMembers(g: Gate, db: Db, org: Id, actor: Id): Outcome {
    var _ :- RequireOrgRole(db, g, org, actor, Viewer);
    Success((db, MembershipRows(MembershipsByOrganization(db, g, org))))
  }

  ghost function Invite(g: Gate, db: Db, org: Id, actor: Id, email: string, role: string, id: Id): Outcome {
    var parsed := ParseRole(role);
    if parsed.None? || parsed.value == Owner then Failure(InvalidMembershipRole)
    else
      var actorRow :- RequireOrgRole(db, g, org, actor, Admin);
      if parsed.value == Admin && actorRow.role != Owner then Failure(InsufficientRole)
      else
        match Pick(UsersByEmail(db.users, email))
        case None => Failure(UserNotFound)
        case Some(user) =>
          if Pick(MembershipsOf(db, g, user, org)).Some? then Failure(MembershipAlreadyExists)
          else
            var inserted := InsertMembership(db, g, id, Membership(user, org, parsed.value));
            if inserted == Failure(IntegrityError) then Failure(MembershipAlreadyExists)
            else
              var db1 :- inserted;
              var db2 :- Commit(db1);
              Success((db2, Created(id)))
  }

  ghost function UpdateRole(g: Gate, db: Db, org: Id, actor: Id, membership: Id, role: string): Outcome {
    match ParseRole(role)
    case None => Failure(InvalidMembershipRole)
    case Some(newRole) =>
      var actorRow :- RequireOrgRole(db, g, org, actor, Admin);
      match GetMembership(db, g, membership)
      case None => Failure(MembershipNotFound)
      case Some(m) =>
        if m.org != org then Failure(MembershipNotFound)
        else if m.role == newRole then Success((db, MembershipRow(m)))
        else if (newRole == Owner || m.role == Owner) && actorRow.role != Owner then Failure(InsufficientRole)
        else if m.role == Owner && CountOwners(db, g, org) <= 1 then Failure(LastOwner)
        else if newRole == Admin && actorRow.role != Owner then Failure(InsufficientRole)
        else
          var db1 :- SetRole(db, g, membership, newRole);
          var db2 :- Commit(db1);
          Success((db2, MembershipRow(m.(role := newRole))))
  }

  ghost function Remove(g: Gate, db: Db, org: Id, actor: Id, membership: Id): Outcome {
    var actorRow :- RequireOrgRole(db, g, org, actor, Admin);
    match GetMembership(db, g, membership)
    case None => Failure(MembershipNotFound)
    case Some(m) =>
      if m.org != org then Failure(MembershipNotFound)
      else if m.role == Owner && actorRow.role != Owner then Failure(InsufficientRole)
      else if m.role == Owner && CountOwners(db, g, org) <= 1 then Failure(LastOwner)
      else
        var db1 :- Commit(DeleteMembership(db, g, membership));
        Success((db1, Done))
  }

  // -- Organizations ---------------------------------------------------------

  /** The SQL function create_organization_with_owner: SECURITY DEFINER, so only its own
      guards and the constraints apply. A missing user is reported with the code of a
      foreign key violation. */
  function CreateOrganizationWithOwner(g: Gate, db: Db, name: string, slug: string, user: Id, id: Id, membershipId: Id)
    : Result<Db, Error>
  {
    if g.user != Some(user) then Failure(PolicyViolation)
    else if user !in db.users then Failure(IntegrityError)
    else if id in db.orgs || OrgSlugTaken(db, slug, None) then Failure(IntegrityError)
    else
      var db1 := db.(orgs := db.orgs[id := Organization(name, slug)]);
      InsertMembership(db1, g.(enforced := false), membershipId, Membership(user, id, Owner))
  }

  ghost function CreateOrganization(g: Gate, db: Db, name: string, slug: string, user: Id, id: Id, membershipId: Id)
    : Outcome
  {
    if Pick(OrganizationsBySlug(db, g, slug)).Some? then Failure(OrganizationAlreadyExists)
    else
      var created := CreateOrganizationWithOwner(g, db, name, slug, user, id, membershipId);
      if created == Failure(IntegrityError) then Failure(OrganizationAlreadyExists)
      else
        var db1 :- created;
        if GetOrganization(db1, g, id).None? then Failure(NotVisibleAfterCreate)
        else
          var db2 :- Commit(db1);
          Success((db2, Created(id)))
  }

  ghost function UpdateOrganization(g: Gate, db: Db, org: Id, actor: Id, name: Option<string>, slug: Option<string>)
    : Outcome
  {
    var _ :- RequireOrgRole(db, g, org, actor, Admin);
    match GetOrganization(db, g, org)
    case None => Failure(OrganizationNotFound)
    case Some(o) =>
      var conflict := if slug.Some? && slug.value != o.slug then Pick(OrganizationsBySlug(db, g, slug.value)) else None;
      if conflict.Some? && conflict.value != org then Failure(OrganizationAlreadyExists)
      else
        var row := Organization(Updated(name, o.name), Updated(slug, o.slug));
        if row == o then Success((db, OrganizationRow(o)))
        else
          var updated := UpdateOrganizationRow(db, g, org, row);
          if updated == Failure(IntegrityError) then Failure(OrganizationAlreadyExists)
          else
            var db1 :- updated;
            var db2 :- Commit(db1);
            Success((db2, OrganizationRow(row)))
  }

  // -- Accounts and keys -----------------------------------------------------

  /** Registration; users carry no policies. */
  ghost function Register(db: Db, email: string, password: string, id: Id): Outcome {
    if Pick(UsersByEmail(db.users, email)).Some? then Failure(EmailAlreadyRegistered)
    else
      var inserted := InsertUser(db.users, id, User(email, Some(Argon2(password)), true));
      if inserted == Failure(IntegrityError) then Failure(EmailAlreadyRegistered)
      else
        var users :- inserted;
        var db1 :- Commit(db.(users := users));
        Success((db1, Created(id)))
  }

  /** No service switches the active key; this is the change the schema is made for: in one
      transaction the active key is retired and a new one takes its place. */
  function SwitchActiveKey(s: Suite, db: Db, env: Id, keyId: Id, keyVersion: int, dek: Key, nonce: Nonce): Outcome {
    if env !in db.environments then Failure(IntegrityError)
    else
      var retired := map i | i in db.keys ::
        if db.keys[i].env == env then db.keys[i].(active := false) else db.keys[i];
      var row := EncryptionKey(env, CreateWrappedDek(s, dek, nonce), keyVersion, true);
      var db1 :- InsertKey(db.(keys := retired), Gate(false, None, None), keyId, row);
      var db2 :- Commit(db1);
      Success((db2, Created(keyId)))
  }
}
