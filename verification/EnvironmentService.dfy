/** The environment service, step by step on a unit of work. */
module EnvironmentService {
  import opened Prelude
  import opened Envelope
  import opened Schema
  import opened Policies
  import opened Repositories
  import opened UnitOfWork
  import opened Rbac
  import Services

  type Answer = Services.Answer

  class EnvironmentService {
    const crypto: Suite

    constructor (crypto: Suite)
      ensures this.crypto == crypto
    {
      this.crypto := crypto;
    }

    /** The environment row is flushed on its own, so its constraint violation escapes as it is;
        only one found at commit is turned into the name conflict. */
    method Create(uow: TenantWork, project: Id, org: Id, name: string, actor: Id,
                  id: Id, keyId: Id, dek: Key, nonce: Nonce) returns (r: Result<Answer, Error>)
      requires Ready(uow)
      modifies uow
      ensures Did(uow, old(uow.committed),
                  Services.CreateEnvironment(crypto, old(uow.Gate()), old(uow.committed), org, actor, project, name,
                                             id, keyId, dek, nonce),
                  r)
    {
      hide TableConstraints, InsertEnvironment, InsertKey, Services.RequireOrgRole, GetProject;
      hide CreateWrappedDek, EnvironmentsByName, CurrentPointersValid;
      var g := uow.Gate();
      var checked := RequireOrgRole(uow, org, actor, Member);
      if checked.Failure? {
        return Failure(checked.error);
      }
      var parent := GetProject(uow.work, g, project);
      if parent.None? || parent.value.org != org {
        return Failure(EnvironmentProjectNotFound);
      }
      OneEnvironmentByName(uow.work, g, project, name);
      var existing := PickOne(EnvironmentsByName(uow.work, g, project, name));
      if existing.Some? {
        return Failure(EnvironmentAlreadyExists);
      }

      var flushed := uow.Execute(InsertEnvironment(uow.work, g, id, Environment(project, name)));
      if flushed.Failure? {
        return Failure(flushed.error);
      }
      var row := EncryptionKey(id, CreateWrappedDek(crypto, dek, nonce), 1, true);
      var done := uow.FlushAndCommit(InsertKey(uow.work, g, keyId, row));
      if done == Failure(IntegrityError) {
        uow.Rollback();
        return Failure(EnvironmentAlreadyExists);
      }
      if done.Failure? {
        return Failure(done.error);
      }
      r := Success(Services.Created(id));
    }

    method List(uow: TenantWork, project: Id, org: Id, actor: Id) returns (r: Result<Answer, Error>)
      requires Ready(uow)
      ensures Did(uow, uow.committed, Services.ListEnvironments(uow.Gate(), uow.committed, org, actor, project), r)
    {
      hide TableConstraints, Services.RequireOrgRole, GetProject, EnvironmentsByProject, CurrentPointersValid;
      var checked := RequireOrgRole(uow, org, actor, Viewer);
      if checked.Failure? {
        return Failure(checked.error);
      }
      var parent := GetProject(uow.work, uow.Gate(), project);
      if parent.None? || parent.value.org != org {
        return Failure(EnvironmentProjectNotFound);
      }
      r := Success(Services.EnvironmentRows(EnvironmentsByProject(uow.work, uow.Gate(), project)));
    }

    method Get(uow: TenantWork, env: Id, org: Id, actor: Id) returns (r: Result<Answer, Error>)
      requires Ready(uow)
      ensures Did(uow, uow.committed, Services.GetEnvironmentFor(uow.Gate(), uow.committed, org, actor, env), r)
    {
      hide TableConstraints, Services.RequireOrgRole, GetProject, GetEnvironment, CurrentPointersValid;
      var checked := RequireOrgRole(uow, org, actor, Viewer);
      if checked.Failure? {
        return Failure(checked.error);
      }
      var found := GetEnvironment(uow.work, uow.Gate(), env);
      if found.None? {
        return Failure(EnvironmentNotFound);
      }
      var parent := GetProject(uow.work, uow.Gate(), found.value.project);
      if parent.None? || parent.value.org != org {
        return Failure(EnvironmentNotFound);
      }
      r := Success(Services.EnvironmentRow(found.value));
    }
  }
}
