/**
 A request: a unit of work opened in the caller's context, one service call, and the exit
 that rolls back when it raised. Serving a list of requests one after another is proved to
 be a run of the calls.
 */
module Requests {
  import opened Prelude
  import opened Envelope
  import opened Schema
  import opened Policies
  import opened Repositories
  import opened UnitOfWork
  import opened Calls
  import Services
  import Integrity
  import SecretService
  import EnvironmentService
  import MembershipService
  import OrganizationService
  import ProjectService

  method Register(uow: TenantWork, email: string, password: string, id: Id) returns (r: Response)
    requires Ready(uow)
    modifies uow
    ensures Did(uow, old(uow.committed), Services.Register(old(uow.committed), email, password, id), r)
  {
    hide TableConstraints, InsertUser, UsersByEmail, CurrentPointersValid;
    OneUserByEmail(uow.work, email);
    var existing := PickOne(UsersByEmail(uow.work.users, email));
    if existing.Some? {
      return Failure(EmailAlreadyRegistered);
    }
    var inserted := InsertUser(uow.work.users, id, User(email, Some(Argon2(password)), true));
    var pending := if inserted.Failure? then Failure(inserted.error) else Success(uow.work.(users := inserted.value));
    var done := uow.FlushAndCommit(pending);
    if done == Failure(IntegrityError) {
      uow.Rollback();
      return Failure(EmailAlreadyRegistered);
    }
    if done.Failure? {
      return Failure(done.error);
    }
    r := Success(Services.Created(id));
  }

  method SwitchActiveKey(s: Suite, uow: TenantWork, env: Id, keyId: Id, keyVersion: int, dek: Key, nonce: Nonce)
    returns (r: Response)
    requires Ready(uow)
    modifies uow
    ensures Did(uow, old(uow.committed),
                Services.SwitchActiveKey(s, old(uow.committed), env, keyId, keyVersion, dek, nonce), r)
  {
    hide Services.SwitchActiveKey, TableConstraints, CurrentPointersValid;
    var outcome := Services.SwitchActiveKey(s, uow.work, env, keyId, keyVersion, dek, nonce);
    if outcome.Failure? {
      return Failure(outcome.error);
    }
    SwitchCommits(s, uow.work, env, keyId, keyVersion, dek, nonce);
    var done := uow.FlushAndCommit(Success(outcome.value.0));
    r := Success(outcome.value.1);
  }

  lemma SwitchCommits(s: Suite, db: Db, env: Id, keyId: Id, keyVersion: int, dek: Key, nonce: Nonce)
    ensures var outcome := Services.SwitchActiveKey(s, db, env, keyId, keyVersion, dek, nonce);
            outcome.Success? ==> Repositories.Commit(outcome.value.0) == Success(outcome.value.0)
  {
  }

  method HandleSecrets(s: Suite, uow: TenantWork, call: Call) returns (r: Response)
    requires Ready(uow) && OnSecrets(call.op)
    modifies uow
    ensures Did(uow, old(uow.committed),
                SecretOutcome(s, old(uow.Gate()), old(uow.committed), call.org, call.actor, call.op), r)
  {
    hide Services.CreateSecret, Services.AddNewVersion, Services.ListSecrets, Services.GetDecryptedValue;
    hide Services.DeleteSecret;
    hide TableConstraints, CurrentPointersValid;
    var service := new SecretService.SecretService(s);
    var org, actor := call.org, call.actor;
    match call.op
    case CreateSecret(env, name, plain, iv, id, versionId) =>
      r := service.CreateSecret(uow, env, org, name, plain, actor, iv, id, versionId);
    case AddNewVersion(secret, plain, iv, versionId) =>
      r := service.AddNewVersion(uow, secret, org, plain, actor, iv, versionId);
    case ListSecrets(env) => r := service.ListSecrets(uow, env, org, actor);
    case Reveal(secret) => r := service.GetDecryptedValue(uow, secret, org, actor);
    case DeleteSecret(secret) => r := service.DeleteSecret(uow, secret, org, actor);
  }

  method HandleEnvironments(s: Suite, uow: TenantWork, call: Call) returns (r: Response)
    requires Ready(uow) && OnEnvironments(call.op)
    modifies uow
    ensures Did(uow, old(uow.committed),
                EnvironmentOutcome(s, old(uow.Gate()), old(uow.committed), call.org, call.actor, call.op), r)
  {
    hide Services.CreateEnvironment, Services.ListEnvironments, Services.GetEnvironmentFor, Services.SwitchActiveKey;
    hide TableConstraints, CurrentPointersValid;
    var service := new EnvironmentService.EnvironmentService(s);
    var org, actor := call.org, call.actor;
    match call.op
    case CreateEnvironment(project, name, id, keyId, dek, nonce) =>
      r := service.Create(uow, project, org, name, actor, id, keyId, dek, nonce);
    case ListEnvironments(project) => r := service.List(uow, project, org, actor);
    case GetEnvironment(env) => r := service.Get(uow, env, org, actor);
    case SwitchActiveKey(env, keyId, keyVersion, dek, nonce) =>
      r := SwitchActiveKey(s, uow, env, keyId, keyVersion, dek, nonce);
  }

  method HandleProjects(uow: TenantWork, call: Call) returns (r: Response)
    requires Ready(uow) && OnProjects(call.op)
    modifies uow
    ensures Did(uow, old(uow.committed),
                ProjectOutcome(old(uow.Gate()), old(uow.committed), call.org, call.actor, call.op), r)
  {
    hide Services.CreateProject, Services.ListProjects, Services.GetProjectFor, Services.UpdateProject;
    hide TableConstraints, CurrentPointersValid;
    var service := new ProjectService.ProjectService();
    var org, actor := call.org, call.actor;
    match call.op
    case CreateProject(name, slug, description, id) =>
      r := service.Create(uow, org, name, slug, actor, description, id);
    case ListProjects => r := service.List(uow, org, actor);
    case GetProject(project) => r := service.Get(uow, project, org, actor);
    case UpdateProject(project, name, slug, description) =>
      r := service.Update(uow, project, org, actor, name, slug, description);
  }

  method HandleMembers(uow: TenantWork, call: Call) returns (r: Response)
    requires Ready(uow) && OnMembers(call.op)
    modifies uow
    ensures Did(uow, old(uow.committed),
                MemberOutcome(old(uow.Gate()), old(uow.committed), call.org, call.actor, call.op), r)
  {
    hide Services.ListMembers, Services.Invite, Services.UpdateRole, Services.Remove;
    hide TableConstraints, CurrentPointersValid;
    var service := new MembershipService.MembershipService();
    var org, actor := call.org, call.actor;
    match call.op
    case ListMembers => r := service.List(uow, org, actor);
    case Invite(email, role, id) => r := service.Invite(uow, org, email, role, actor, id);
    case UpdateRole(membership, role) => r := service.UpdateRole(uow, org, membership, role, actor);
    case Remove(membership) => r := service.Remove(uow, org, membership, actor);
  }

  method HandleAccounts(uow: TenantWork, call: Call) returns (r: Response)
    requires Ready(uow)
    requires !OnSecrets(call.op) && !OnEnvironments(call.op) && !OnProjects(call.op) && !OnMembers(call.op)
    modifies uow
    ensures Did(uow, old(uow.committed),
                AccountOutcome(old(uow.Gate()), old(uow.committed), call.org, call.actor, call.op), r)
  {
    hide Services.Register, Services.CreateOrganization, Services.UpdateOrganization;
    hide TableConstraints, CurrentPointersValid;
    var service := new OrganizationService.OrganizationService();
    match call.op
    case Register(email, password, id) => r := Register(uow, email, password, id);
    case CreateOrganization(name, slug, id, ownerId) => r := service.Create(uow, name, slug, call.actor, id, ownerId);
    case UpdateOrganization(name, slug) => r := service.Update(uow, call.org, call.actor, name, slug);
  }

  method Handle(s: Suite, enforced: bool, db: Db, call: Call) returns (after: Db, r: Response)
    requires Constraints(db)
    ensures (after, r) == Step(s, enforced, db, call)
  {
    hide SecretOutcome, EnvironmentOutcome, ProjectOutcome, MemberOutcome, AccountOutcome;
    hide TableConstraints, CurrentPointersValid;
    var g := ContextOf(enforced, call);
    var uow := new SqlAlchemyUnitOfWork<Db>(db, Repositories.Commit, enforced, g.user, g.org);
    uow.Enter();
    if OnSecrets(call.op) {
      r := HandleSecrets(s, uow, call);
    } else if OnEnvironments(call.op) {
      r := HandleEnvironments(s, uow, call);
    } else if OnProjects(call.op) {
      r := HandleProjects(uow, call);
    } else if OnMembers(call.op) {
      r := HandleMembers(uow, call);
    } else {
      r := HandleAccounts(uow, call);
    }
    uow.Exit(r.Failure?);
    after := uow.committed;
  }

  method Serve(s: Suite, enforced: bool, calls: seq<Call>) returns (db: Db, responses: seq<Response>)
    ensures db == Run(s, enforced, calls)
    ensures |responses| == |calls|
    ensures forall i | 0 <= i < |calls| :: responses[i] == ResponseAt(s, enforced, calls, i)
  {
    hide Step, Constraints;
    db, responses := EMPTY_DB, [];
    for i := 0 to |calls|
      invariant db == Run(s, enforced, calls[..i])
      invariant |responses| == i
      invariant forall j | 0 <= j < i :: responses[j] == ResponseAt(s, enforced, calls, j)
    {
      Integrity.ReachableKeepsConstraints(s, enforced, calls[..i]);
      var answer;
      db, answer := Handle(s, enforced, db, calls[i]);
      assert calls[..i + 1][..i] == calls[..i];
      responses := responses + [answer];
    }
    assert calls[..|calls|] == calls;
  }
}
