/** The role check every organization-scoped service begins with. */
module Rbac {
  import opened Prelude
  import opened Schema
  import opened Policies
  import opened Repositories
  import opened UnitOfWork
  import Services

  method RequireOrgRole(uow: TenantWork, org: Id, actor: Id, minimum: Role) returns (r: Result<Membership, Error>)
    requires TableConstraints(uow.work)
    ensures r == Services.RequireOrgRole(uow.work, uow.Gate(), org, actor, minimum)
  {
    OneMembership(uow.work, uow.Gate(), actor, org);
    var found := PickOne(MembershipsOf(uow.work, uow.Gate(), actor, org));
    if found.None? {
      return Failure(MembershipRequired);
    }
    var membership := uow.work.memberships[found.value];
    if Rank(membership.role) < Rank(minimum) {
      return Failure(InsufficientRole);
    }
    r := Success(membership);
  }
}
