/** The project service, step by step on a unit of work. */
module ProjectService {
  import opened Prelude
  import opened Schema
  import opened Policies
  import opened Repositories
  import opened UnitOfWork
  import opened Rbac
  import Services

  type Answer = Services.Answer

  class ProjectService {
    constructor () {
    }

    method Create(uow: TenantWork, org: Id, name: string, slug: string, actor: Id,
                  description: Option<string>, id: Id) returns (r: Result<Answer, Error>)
      requires Ready(uow)
      modifies uow
      ensures Did(uow, old(uow.committed),
                  Services.CreateProject(old(uow.Gate()), old(uow.committed), org, actor, name, slug, description, id),
                  r)
    {
      hide TableConstraints, InsertProject, Services.RequireOrgRole, ProjectsBySlug, CurrentPointersValid;
      var g := uow.Gate();
      var checked := RequireOrgRole(uow, org, actor, Member);
      if checked.Failure? {
        return Failure(checked.error);
      }
      OneProjectBySlug(uow.work, g, org, slug);
      var existing := PickOne(ProjectsBySlug(uow.work, g, org, slug));
      if existing.Some? {
        return Failure(ProjectAlreadyExists);
      }
      var done := uow.FlushAndCommit(InsertProject(uow.work, g, id, Project(org, name, slug, description)));
      if done == Failure(IntegrityError) {
        uow.Rollback();
        return Failure(ProjectAlreadyExists);
      }
      if done.Failure? {
        return Failure(done.error);
      }
      r := Success(Services.Created(id));
    }

    method List(uow: TenantWork, org: Id, actor: Id) returns (r: Result<Answer, Error>)
      requires Ready(uow)
      ensures Did(uow, uow.committed, Services.ListProjects(uow.Gate(), uow.committed, org, actor), r)
    {
      hide TableConstraints, Services.RequireOrgRole, ProjectsByOrganization, CurrentPointersValid;
      var checked := RequireOrgRole(uow, org, actor, Viewer);
      if checked.Failure? {
        return Failure(checked.error);
      }
      r := Success(Services.ProjectRows(ProjectsByOrganization(uow.work, uow.Gate(), org)));
    }

    method Find(uow: TenantWork, project: Id, org: Id, actor: Id) returns (r: Result<Project, Error>)
      requires Ready(uow)
      ensures r == Services.OwnProject(uow.Gate(), uow.committed, org, actor, project)
    {
      hide TableConstraints, Services.RequireOrgRole, GetProject, CurrentPointersValid;
      var checked := RequireOrgRole(uow, org, actor, Viewer);
      if checked.Failure? {
        return Failure(checked.error);
      }
      var found := GetProject(uow.work, uow.Gate(), project);
      if found.None? || found.value.org != org {
        return Failure(ProjectNotFound);
      }
      r := Success(found.value);
    }

    method Get(uow: TenantWork, project: Id, org: Id, actor: Id) returns (r: Result<Answer, Error>)
      requires Ready(uow)
      ensures Did(uow, uow.committed, Services.GetProjectFor(uow.Gate(), uow.committed, org, actor, project), r)
    {
      hide TableConstraints, Services.OwnProject, CurrentPointersValid;
      var found := Find(uow, project, org, actor);
      if found.Failure? {
        return Failure(found.error);
      }
      r := Success(Services.ProjectRow(found.value));
    }

    method Update(uow: TenantWork, project: Id, org: Id, actor: Id, name: Option<string>,
                  slug: Option<string>, description: Option<string>) returns (r: Result<Answer, Error>)
      requires Ready(uow)
      modifies uow
      ensures Did(uow, old(uow.committed),
                  Services.UpdateProject(old(uow.Gate()), old(uow.committed), org, actor, project, name, slug,
                                         description),
                  r)
    {
      hide TableConstraints, UpdateProjectRow, Services.RequireOrgRole, Services.OwnProject, ProjectsBySlug;
      hide CurrentPointersValid;
      var g := uow.Gate();
      var checked := RequireOrgRole(uow, org, actor, Member);
      if checked.Failure? {
        return Failure(checked.error);
      }
      var found := Find(uow, project, org, actor);
      if found.Failure? {
        return Failure(found.error);
      }
      var row := found.value;
      if slug.Some? && slug.value != row.slug {
        OneProjectBySlug(uow.work, g, org, slug.value);
        var conflict := PickOne(ProjectsBySlug(uow.work, g, org, slug.value));
        if conflict.Some? && conflict.value != project {
          return Failure(ProjectAlreadyExists);
        }
        row := row.(slug := slug.value);
      }
      if name.Some? {
        row := row.(name := name.value);
      }
      if description.Some? {
        row := row.(description := description);
      }

      // A session without changes sends no UPDATE.
      var pending := if row == found.value then Success(uow.work) else UpdateProjectRow(uow.work, g, project, row);
      CommittedAgain(uow.work);
      var done := uow.FlushAndCommit(pending);
      if done == Failure(IntegrityError) {
        uow.Rollback();
        return Failure(ProjectAlreadyExists);
      }
      if done.Failure? {
        return Failure(done.error);
      }
      r := Success(Services.ProjectRow(row));
    }
  }
}
