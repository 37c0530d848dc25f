/**
 What the reading calls show, to whom, and how the others are turned away. A viewer may read
 everything of its organization but the values of secrets.
 */
module Reads {
  import opened Prelude
  import opened Envelope
  import opened Schema
  import opened Policies
  import opened Repositories
  import Services
  import opened Calls
  import opened Agreement
  import Vault

  // -- The rows of an organization -------------------------------------------

  function LiveSecretsOf(db: Db, env: Id): map<Id, Secret> {
    map i | i in db.secrets && db.secrets[i].env == env && !db.secrets[i].deleted :: db.secrets[i]
  }

  function EnvironmentsOf(db: Db, project: Id): map<Id, Environment> {
    map i | i in db.environments && db.environments[i].project == project :: db.environments[i]
  }

  function ProjectsOf(db: Db, org: Id): map<Id, Project> {
    map i | i in db.projects && db.projects[i].org == org :: db.projects[i]
  }

  function MembersOf(db: Db, org: Id): map<Id, Membership> {
    map i | i in db.memberships && db.memberships[i].org == org :: db.memberships[i]
  }

  predicate IsRead(op: Op) {
    || op.ListSecrets? || op.ListEnvironments? || op.GetEnvironment?
    || op.ListProjects? || op.GetProject? || op.ListMembers?
  }

  /** The answer of a reading call, from the rows alone. */
  ghost function ReadAnswer(db: Db, call: Call): Response
    requires IsRead(call.op)
  {
    if !HasRole(db, call.actor, call.org, Viewer) then Failure(RoleError(db, call.actor, call.org))
    else
      match call.op
      case ListSecrets(env) =>
        if EnvironmentIn(db, env, call.org) then Success(Services.SecretRows(LiveSecretsOf(db, env)))
        else Failure(EnvironmentNotFound)
      case ListEnvironments(project) =>
        if ProjectIn(db, project, call.org) then Success(Services.EnvironmentRows(EnvironmentsOf(db, project)))
        else Failure(EnvironmentProjectNotFound)
      case GetEnvironment(env) =>
        if EnvironmentIn(db, env, call.org) then Success(Services.EnvironmentRow(db.environments[env]))
        else Failure(EnvironmentNotFound)
      case ListProjects => Success(Services.ProjectRows(ProjectsOf(db, call.org)))
      case GetProject(project) =>
        if ProjectIn(db, project, call.org) then Success(Services.ProjectRow(db.projects[project]))
        else Failure(ProjectNotFound)
      case ListMembers => Success(Services.MembershipRows(MembersOf(db, call.org)))
  }

  // -- Without policies ------------------------------------------------------

  lemma OpenRows(db: Db, g: Gate, org: Id, project: Id, env: Id)
    requires !g.enforced
    ensures LiveSecrets(db, g, env) == LiveSecretsOf(db, env)
    ensures EnvironmentsByProject(db, g, project) == EnvironmentsOf(db, project)
    ensures ProjectsByOrganization(db, g, org) == ProjectsOf(db, org)
    ensures MembershipsByOrganization(db, g, org) == MembersOf(db, org)
    ensures Repositories.GetProject(db, g, project)
         == if project in db.projects then Some(db.projects[project]) else None
    ensures Services.ResolveEnvironmentOrg(db, g, env, org)
         == if EnvironmentIn(db, env, org) then Success(()) else Failure(EnvironmentNotFound)
  {
  }

  lemma UnenforcedRead(s: Suite, db: Db, call: Call)
    requires Constraints(db) && IsRead(call.op)
    ensures Step(s, false, db, call) == (db, ReadAnswer(db, call))
  {
    hide Step, Constraints, HasRole, RoleError, Services.RequireOrgRole, LiveSecrets, LiveSecretsOf;
    hide EnvironmentsByProject, EnvironmentsOf, ProjectsByOrganization, ProjectsOf;
    hide MembershipsByOrganization, MembersOf;
    var (g, org, actor) := (In(false, call.actor, call.org), call.org, call.actor);
    Vault.RoleMeans(db, g, org, actor, Viewer);
    match call.op
    case ListSecrets(env) =>
      SecretStep(s, false, db, call);
      OpenRows(db, g, org, 0, env);
    case ListEnvironments(project) =>
      EnvironmentStep(s, false, db, call);
      OpenRows(db, g, org, project, 0);
    case GetEnvironment(env) => EnvironmentStep(s, false, db, call);
    case ListProjects =>
      ProjectStep(s, false, db, call);
      OpenRows(db, g, org, 0, 0);
    case GetProject(project) =>
      ProjectStep(s, false, db, call);
      OpenRows(db, g, org, project, 0);
    case ListMembers =>
      MemberStep(s, false, db, call);
      OpenRows(db, g, org, 0, 0);
  }

  // -- Main result -----------------------------------------------------------

  /** With policies in force or not, a reading call changes nothing and answers exactly that: a
      viewer sees every row asked for, and an outsider or a foreign parent gets its error. */
  lemma ReadsShowExactly(s: Suite, enforced: bool, db: Db, call: Call)
    requires Constraints(db) && IsRead(call.op)
    ensures Step(s, enforced, db, call) == (db, ReadAnswer(db, call))
  {
    hide Step, Constraints, ReadAnswer, Services.ListSecrets, Services.ListEnvironments, Services.GetEnvironmentFor;
    hide Services.ListProjects, Services.GetProjectFor, Services.ListMembers;
    var (org, actor) := (call.org, call.actor);
    UnenforcedRead(s, db, call);
    match call.op
    case ListSecrets(env) =>
      SecretStep(s, enforced, db, call);
      SecretStep(s, false, db, call);
      ListSecretsAgrees(db, org, actor, env);
    case ListEnvironments(project) =>
      EnvironmentStep(s, enforced, db, call);
      EnvironmentStep(s, false, db, call);
      ListEnvironmentsAgrees(db, org, actor, project);
    case GetEnvironment(env) =>
      EnvironmentStep(s, enforced, db, call);
      EnvironmentStep(s, false, db, call);
      GetEnvironmentForAgrees(db, org, actor, env);
    case ListProjects =>
      ProjectStep(s, enforced, db, call);
      ProjectStep(s, false, db, call);
      ListProjectsAgrees(db, org, actor);
    case GetProject(project) =>
      ProjectStep(s, enforced, db, call);
      ProjectStep(s, false, db, call);
      GetProjectForAgrees(db, org, actor, project);
    case ListMembers =>
      MemberStep(s, enforced, db, call);
      MemberStep(s, false, db, call);
      ListMembersAgrees(db, org, actor);
  }
}
