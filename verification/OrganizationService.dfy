/** The organization service, step by step on a unit of work. */
module OrganizationService {
  import opened Prelude
  import opened Schema
  import opened Policies
  import opened Repositories
  import opened UnitOfWork
  import opened Rbac
  import Services

  type Answer = Services.Answer

  class OrganizationService {
    constructor () {
    }

    /** The body of create_organization_with_owner: two guards and two inserts. Run as the
        definer, its statements meet the constraints but no policy. */
    method CreateWithOwner(uow: TenantWork, name: string, slug: string, user: Id, id: Id, membershipId: Id)
      returns (r: Result<(), Error>)
      modifies uow
      ensures uow.committed == old(uow.committed) && uow.Gate() == old(uow.Gate())
      ensures match Services.CreateOrganizationWithOwner(old(uow.Gate()), old(uow.work), name, slug, user, id,
                                                         membershipId)
              case Success(db) => r == Success(()) && uow.work == db
              case Failure(e) => r == Failure(e)
    {
      if uow.localUser != Some(user) {
        return Failure(PolicyViolation);
      }
      if user !in uow.work.users {
        return Failure(IntegrityError);
      }
      var inserted := if id in uow.work.orgs || OrgSlugTaken(uow.work, slug, None) then Failure(IntegrityError)
                      else Success(uow.work.(orgs := uow.work.orgs[id := Organization(name, slug)]));
      r := uow.Execute(inserted);
      if r.Failure? {
        return;
      }
      var definer := uow.Gate().(enforced := false);
      r := uow.Execute(InsertMembership(uow.work, definer, membershipId, Membership(user, id, Owner)));
    }

    method Create(uow: TenantWork, name: string, slug: string, user: Id, id: Id, membershipId: Id)
      returns (r: Result<Answer, Error>)
      requires Ready(uow)
      modifies uow
      ensures Did(uow, old(uow.committed),
                  Services.CreateOrganization(old(uow.Gate()), old(uow.committed), name, slug, user, id, membershipId),
                  r)
    {
      hide TableConstraints, Services.CreateOrganizationWithOwner, OrganizationsBySlug, GetOrganization;
      hide CurrentPointersValid;
      var g := uow.Gate();
      OneOrganizationBySlug(uow.work, g, slug);
      var existing := PickOne(OrganizationsBySlug(uow.work, g, slug));
      if existing.Some? {
        return Failure(OrganizationAlreadyExists);
      }
      var created := CreateWithOwner(uow, name, slug, user, id, membershipId);
      if created == Failure(IntegrityError) {
        uow.Rollback();
        return Failure(OrganizationAlreadyExists);
      }
      if created.Failure? {
        return Failure(created.error);
      }
      if GetOrganization(uow.work, g, id).None? {
        return Failure(NotVisibleAfterCreate);
      }
      var done := uow.Commit();
      if done.Failure? {
        return Failure(done.error);
      }
      r := Success(Services.Created(id));
    }

    method Update(uow: TenantWork, org: Id, actor: Id, name: Option<string>, slug: Option<string>)
      returns (r: Result<Answer, Error>)
      requires Ready(uow)
      modifies uow
      ensures Did(uow, old(uow.committed),
                  Services.UpdateOrganization(old(uow.Gate()), old(uow.committed), org, actor, name, slug), r)
    {
      hide TableConstraints, UpdateOrganizationRow, Services.RequireOrgRole, OrganizationsBySlug, GetOrganization;
      hide CurrentPointersValid;
      var g := uow.Gate();
      var checked := RequireOrgRole(uow, org, actor, Admin);
      if checked.Failure? {
        return Failure(checked.error);
      }
      var found := GetOrganization(uow.work, g, org);
      if found.None? {
        return Failure(OrganizationNotFound);
      }
      var row := found.value;
      if slug.Some? && slug.value != row.slug {
        OneOrganizationBySlug(uow.work, g, slug.value);
        var conflict := PickOne(OrganizationsBySlug(uow.work, g, slug.value));
        if conflict.Some? && conflict.value != org {
          return Failure(OrganizationAlreadyExists);
        }
        row := row.(slug := slug.value);
      }
      if name.Some? {
        row := row.(name := name.value);
      }

      // A session without changes sends no UPDATE.
      var pending := if row == found.value then Success(uow.work) else UpdateOrganizationRow(uow.work, g, org, row);
      CommittedAgain(uow.work);
      var done := uow.FlushAndCommit(pending);
      if done == Failure(IntegrityError) {
        uow.Rollback();
        return Failure(OrganizationAlreadyExists);
      }
      if done.Failure? {
        return Failure(done.error);
      }
      r := Success(Services.OrganizationRow(row));
    }
  }
}
