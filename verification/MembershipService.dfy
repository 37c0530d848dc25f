/** The membership service, step by step on a unit of work. */
module MembershipService {
  import opened Prelude
  import opened Schema
  import opened Policies
  import opened Repositories
  import opened UnitOfWork
  import opened Rbac
  import Services

  type Answer = Services.Answer

  class MembershipService {
    constructor () {
    }

    method List(uow: TenantWork, org: Id, actor: Id) returns (r: Result<Answer, Error>)
      requires Ready(uow)
      ensures Did(uow, uow.committed, Services.ListMembers(uow.Gate(), uow.committed, org, actor), r)
    {
      hide TableConstraints, Services.RequireOrgRole, MembershipsByOrganization, CurrentPointersValid;
      var checked := RequireOrgRole(uow, org, actor, Viewer);
      if checked.Failure? {
        return Failure(checked.error);
      }
      r := Success(Services.MembershipRows(MembershipsByOrganization(uow.work, uow.Gate(), org)));
    }

    method Invite(uow: TenantWork, org: Id, email: string, role: string, actor: Id, id: Id)
      returns (r: Result<Answer, Error>)
      requires Ready(uow)
      modifies uow
      ensures Did(uow, old(uow.committed),
                  Services.Invite(old(uow.Gate()), old(uow.committed), org, actor, email, role, id), r)
    {
      hide TableConstraints, InsertMembership, Services.RequireOrgRole, UsersByEmail, MembershipsOf;
      hide CurrentPointersValid;
      hide ParseRole;
      var g := uow.Gate();
      var parsed := ParseRole(role);
      if parsed.None? || parsed.value == Owner {
        return Failure(InvalidMembershipRole);
      }
      var checked := RequireOrgRole(uow, org, actor, Admin);
      if checked.Failure? {
        return Failure(checked.error);
      }
      if parsed.value == Admin && checked.value.role != Owner {
        return Failure(InsufficientRole);
      }

      OneUserByEmail(uow.work, email);
      var user := PickOne(UsersByEmail(uow.work.users, email));
      if user.None? {
        return Failure(UserNotFound);
      }
      OneMembership(uow.work, g, user.value, org);
      var existing := PickOne(MembershipsOf(uow.work, g, user.value, org));
      if existing.Some? {
        return Failure(MembershipAlreadyExists);
      }

      var row := Membership(user.value, org, parsed.value);
      var done := uow.FlushAndCommit(InsertMembership(uow.work, g, id, row));
      if done == Failure(IntegrityError) {
        uow.Rollback();
        return Failure(MembershipAlreadyExists);
      }
      if done.Failure? {
        return Failure(done.error);
      }
      r := Success(Services.Created(id));
    }

    method UpdateRole(uow: TenantWork, org: Id, membership: Id, newRole: string, actor: Id)
      returns (r: Result<Answer, Error>)
      requires Ready(uow)
      modifies uow
      ensures Did(uow, old(uow.committed),
                  Services.UpdateRole(old(uow.Gate()), old(uow.committed), org, actor, membership, newRole), r)
    {
      hide TableConstraints, SetRole, Services.RequireOrgRole, GetMembership, CountOwners, CurrentPointersValid;
      hide ParseRole;
      var g := uow.Gate();
      var parsed := ParseRole(newRole);
      if parsed.None? {
        return Failure(InvalidMembershipRole);
      }
      var role := parsed.value;
      var checked := RequireOrgRole(uow, org, actor, Admin);
      if checked.Failure? {
        return Failure(checked.error);
      }
      var found := GetMembership(uow.work, g, membership);
      if found.None? || found.value.org != org {
        return Failure(MembershipNotFound);
      }
      var row := found.value;
      if row.role == role {
        return Success(Services.MembershipRow(row));
      }

      if role == Owner || row.role == Owner {
        if checked.value.role != Owner {
          return Failure(InsufficientRole);
        }
      }
      if row.role == Owner && role != Owner {
        var owners := CountOwners(uow.work, g, org);
        if owners <= 1 {
          return Failure(LastOwner);
        }
      }
      if role == Admin && checked.value.role != Owner {
        return Failure(InsufficientRole);
      }

      var done := uow.FlushAndCommit(SetRole(uow.work, g, membership, role));
      if done.Failure? {
        return Failure(done.error);
      }
      r := Success(Services.MembershipRow(row.(role := role)));
    }

    method Remove(uow: TenantWork, org: Id, membership: Id, actor: Id) returns (r: Result<Answer, Error>)
      requires Ready(uow)
      modifies uow
      ensures Did(uow, old(uow.committed),
                  Services.Remove(old(uow.Gate()), old(uow.committed), org, actor, membership), r)
    {
      hide TableConstraints, DeleteMembership, Services.RequireOrgRole, GetMembership, CountOwners;
      hide CurrentPointersValid;
      var g := uow.Gate();
      var checked := RequireOrgRole(uow, org, actor, Admin);
      if checked.Failure? {
        return Failure(checked.error);
      }
      var found := GetMembership(uow.work, g, membership);
      if found.None? || found.value.org != org {
        return Failure(MembershipNotFound);
      }
      if found.value.role == Owner {
        if checked.value.role != Owner {
          return Failure(InsufficientRole);
        }
        var owners := CountOwners(uow.work, g, org);
        if owners <= 1 {
          return Failure(LastOwner);
        }
      }
      var _ := uow.Execute(Success(DeleteMembership(uow.work, g, membership)));
      var done := uow.Commit();
      if done.Failure? {
        return Failure(done.error);
      }
      r := Success(Services.Done);
    }
  }
}
