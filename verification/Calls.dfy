/** Every tenant call as data, so that runs are sequences. Ids, IVs, DEKs and nonces the
    server would draw at random are part of the call. */
module Calls {
  import opened Prelude
  import opened Envelope
  import opened Schema
  import opened Policies
  import opened Repositories
  import Services

  datatype Op =
    | Register(email: string, password: string, userId: Id)
    | CreateOrganization(orgName: string, orgSlug: string, orgId: Id, ownerId: Id)
    | UpdateOrganization(newName: Option<string>, newSlug: Option<string>)
    | ListMembers
    | Invite(inviteEmail: string, role: string, membershipId: Id)
    | UpdateRole(membership: Id, newRole: string)
    | Remove(membership: Id)
    | CreateProject(projectName: string, projectSlug: string, description: Option<string>, projectId: Id)
    | ListProjects
    | GetProject(project: Id)
    | UpdateProject(project: Id, newName: Option<string>, newSlug: Option<string>, newDescription: Option<string>)
    | CreateEnvironment(project: Id, envName: string, envId: Id, keyId: Id, dek: Key, nonce: Nonce)
    | ListEnvironments(project: Id)
    | GetEnvironment(env: Id)
    | SwitchActiveKey(env: Id, keyId: Id, keyVersion: int, dek: Key, nonce: Nonce)
    | CreateSecret(env: Id, name: string, plain: string, iv: Nonce, secretId: Id, versionId: Id)
    | AddNewVersion(secret: Id, plain: string, iv: Nonce, versionId: Id)
    | ListSecrets(env: Id)
    | Reveal(secret: Id)
    | DeleteSecret(secret: Id)

  datatype Call = Call(org: Id, actor: Id, op: Op)

  type Outcome = Services.Outcome
  type Answer = Services.Answer
  type Response = Result<Answer, Error>

  /** The context the router opens the unit of work with: user and organization, or the user
      alone when an organization is being created. */
  function ContextOf(enforced: bool, call: Call): Gate {
    Gate(enforced, Some(call.actor), if call.op.CreateOrganization? then None else Some(call.org))
  }

  /** A call that raises leaves the database as it was. */
  function Settle(db: Db, outcome: Outcome): (Db, Response) {
    match outcome
    case Failure(e) => (db, Failure(e))
    case Success((db', answer)) => (db', Success(answer))
  }

  predicate OnSecrets(op: Op) {
    op.CreateSecret? || op.AddNewVersion? || op.ListSecrets? || op.Reveal? || op.DeleteSecret?
  }

  predicate OnEnvironments(op: Op) {
    op.CreateEnvironment? || op.ListEnvironments? || op.GetEnvironment? || op.SwitchActiveKey?
  }

  predicate OnProjects(op: Op) {
    op.CreateProject? || op.ListProjects? || op.GetProject? || op.UpdateProject?
  }

  predicate OnMembers(op: Op) {
    op.ListMembers? || op.Invite? || op.UpdateRole? || op.Remove?
  }

  ghost function SecretOutcome(s: Suite, g: Gate, db: Db, org: Id, actor: Id, op: Op): Outcome
    requires OnSecrets(op)
  {
    match op
    case CreateSecret(env, name, plain, iv, id, versionId) =>
      Services.CreateSecret(s, g, db, org, actor, env, name, plain, iv, id, versionId)
    case AddNewVersion(secret, plain, iv, versionId) =>
      Services.AddNewVersion(s, g, db, org, actor, secret, plain, iv, versionId)
    case ListSecrets(env) => Services.ListSecrets(g, db, org, actor, env)
    case Reveal(secret) => Services.GetDecryptedValue(s, g, db, org, actor, secret)
    case DeleteSecret(secret) => Services.DeleteSecret(g, db, org, actor, secret)
  }

  ghost function EnvironmentOutcome(s: Suite, g: Gate, db: Db, org: Id, actor: Id, op: Op): Outcome
    requires OnEnvironments(op)
  {
    match op
    case CreateEnvironment(project, name, id, keyId, dek, nonce) =>
      Services.CreateEnvironment(s, g, db, org, actor, project, name, id, keyId, dek, nonce)
    case ListEnvironments(project) => Services.ListEnvironments(g, db, org, actor, project)
    case GetEnvironment(env) => Services.GetEnvironmentFor(g, db, org, actor, env)
    case SwitchActiveKey(env, keyId, keyVersion, dek, nonce) =>
      Services.SwitchActiveKey(s, db, env, keyId, keyVersion, dek, nonce)
  }

  ghost function ProjectOutcome(g: Gate, db: Db, org: Id, actor: Id, op: Op): Outcome
    requires OnProjects(op)
  {
    match op
    case CreateProject(name, slug, description, id) =>
      Services.CreateProject(g, db, org, actor, name, slug, description, id)
    case ListProjects => Services.ListProjects(g, db, org, actor)
    case GetProject(project) => Services.GetProjectFor(g, db, org, actor, project)
    case UpdateProject(project, name, slug, description) =>
      Services.UpdateProject(g, db, org, actor, project, name, slug, description)
  }

  ghost function MemberOutcome(g: Gate, db: Db, org: Id, actor: Id, op: Op): Outcome
    requires OnMembers(op)
  {
    match op
    case ListMembers => Services.ListMembers(g, db, org, actor)
    case Invite(email, role, id) => Services.Invite(g, db, org, actor, email, role, id)
    case UpdateRole(membership, role) => Services.UpdateRole(g, db, org, actor, membership, role)
    case Remove(membership) => Services.Remove(g, db, org, actor, membership)
  }

  ghost function AccountOutcome(g: Gate, db: Db, org: Id, actor: Id, op: Op): Outcome
    requires op.Register? || op.CreateOrganization? || op.UpdateOrganization?
  {
    match op
    case Register(email, password, id) => Services.Register(db, email, password, id)
    case CreateOrganization(name, slug, id, ownerId) =>
      Services.CreateOrganization(g, db, name, slug, actor, id, ownerId)
    case UpdateOrganization(name, slug) => Services.UpdateOrganization(g, db, org, actor, name, slug)
  }

  ghost function OutcomeOf(s: Suite, g: Gate, db: Db, call: Call): Outcome {
    var (org, actor, op) := (call.org, call.actor, call.op);
    if OnSecrets(op) then SecretOutcome(s, g, db, org, actor, op)
    else if OnEnvironments(op) then EnvironmentOutcome(s, g, db, org, actor, op)
    else if OnProjects(op) then ProjectOutcome(g, db, org, actor, op)
    else if OnMembers(op) then MemberOutcome(g, db, org, actor, op)
    else AccountOutcome(g, db, org, actor, op)
  }

  ghost function Step(s: Suite, enforced: bool, db: Db, call: Call): (Db, Response) {
    Settle(db, OutcomeOf(s, ContextOf(enforced, call), db, call))
  }

  /** What a secret call does, without the other calls in the way. */
  lemma SecretStep(s: Suite, enforced: bool, db: Db, call: Call)
    requires OnSecrets(call.op)
    ensures Step(s, enforced, db, call)
         == Settle(db, SecretOutcome(s, ContextOf(enforced, call), db, call.org, call.actor, call.op))
  {
    hide SecretOutcome, EnvironmentOutcome, ProjectOutcome, MemberOutcome, AccountOutcome;
  }

  lemma EnvironmentStep(s: Suite, enforced: bool, db: Db, call: Call)
    requires OnEnvironments(call.op)
    ensures Step(s, enforced, db, call)
         == Settle(db, EnvironmentOutcome(s, ContextOf(enforced, call), db, call.org, call.actor, call.op))
  {
    hide SecretOutcome, EnvironmentOutcome, ProjectOutcome, MemberOutcome, AccountOutcome;
  }

  lemma ProjectStep(s: Suite, enforced: bool, db: Db, call: Call)
    requires OnProjects(call.op)
    ensures Step(s, enforced, db, call)
         == Settle(db, ProjectOutcome(ContextOf(enforced, call), db, call.org, call.actor, call.op))
  {
    hide SecretOutcome, EnvironmentOutcome, ProjectOutcome, MemberOutcome, AccountOutcome;
  }

  lemma MemberStep(s: Suite, enforced: bool, db: Db, call: Call)
    requires OnMembers(call.op)
    ensures Step(s, enforced, db, call)
         == Settle(db, MemberOutcome(ContextOf(enforced, call), db, call.org, call.actor, call.op))
  {
    hide SecretOutcome, EnvironmentOutcome, ProjectOutcome, MemberOutcome, AccountOutcome;
  }

  lemma AccountStep(s: Suite, enforced: bool, db: Db, call: Call)
    requires call.op.Register? || call.op.CreateOrganization? || call.op.UpdateOrganization?
    ensures Step(s, enforced, db, call)
         == Settle(db, AccountOutcome(ContextOf(enforced, call), db, call.org, call.actor, call.op))
  {
    hide SecretOutcome, EnvironmentOutcome, ProjectOutcome, MemberOutcome, AccountOutcome;
  }

  const EMPTY_DB := Db(map[], map[], map[], map[], map[], map[], map[], map[], [])

  /** The state after a run of calls from the empty database. */
  ghost function Run(s: Suite, enforced: bool, calls: seq<Call>): Db {
    if calls == [] then EMPTY_DB
    else Step(s, enforced, Run(s, enforced, calls[..|calls| - 1]), calls[|calls| - 1]).0
  }

  /** The answer the i-th call of the run got. */
  ghost function ResponseAt(s: Suite, enforced: bool, calls: seq<Call>, i: nat): Response
    requires i < |calls|
  {
    Step(s, enforced, Run(s, enforced, calls[..i]), calls[i]).1
  }
}
