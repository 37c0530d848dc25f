/** Who owns an organization, and who can come to be privileged in it, over whole runs. */
module Ownership {
  import opened Prelude
  import opened Envelope
  import opened Schema
  import opened Policies
  import opened Repositories
  import Services
  import opened Calls
  import opened Effects
  import opened Frames
  import opened Reachable
  import opened Agreement

  function OwnersOf(db: Db, org: Id): set<Id> {
    set i | i in db.memberships && db.memberships[i].org == org && db.memberships[i].role == Owner
      :: db.memberships[i].user
  }

  function PrivilegedIn(db: Db, org: Id): set<Id> {
    set i | i in db.memberships && db.memberships[i].org == org && db.memberships[i].role in {Owner, Admin}
      :: db.memberships[i].user
  }

  /** Under the widened policy a member's count of owners is the true one. */
  lemma OwnerCountIsTrue(db: Db, actor: Id, org: Id)
    requires Constraints(db) && IsMember(db, actor, org)
    ensures CountOwners(db, In(true, actor, org), org) == |OwnersOf(db, org)|
  {
    MemberView(db, db, actor, org);
    var rows := OwnerRows(db, In(true, actor, org), org);
    assert OwnersOf(db, org) == set i | i in rows :: db.memberships[i].user;
    SameSize(db, org, rows);
  }

  /** One membership per user and organization: as many users as rows. */
  lemma {:induction false} SameSize(db: Db, org: Id, rows: set<Id>)
    requires MembershipConstraints(db.memberships, db.users.Keys, db.orgs.Keys)
    requires forall i | i in rows :: i in db.memberships && db.memberships[i].org == org
    ensures |set i | i in rows :: db.memberships[i].user| == |rows|
    decreases rows
  {
    var users := set i | i in rows :: db.memberships[i].user;
    if r :| r in rows {
      SameSize(db, org, rows - {r});
      var rest := set i | i in rows - {r} :: db.memberships[i].user;
      assert users == rest + {db.memberships[r].user};
      assert db.memberships[r].user !in rest;
    } else {
      assert rows == {} && users == {};
    }
  }

  // -- Last owner ------------------------------------------------------------

  ghost predicate EveryOrgOwned(memberships: map<Id, Membership>, orgs: set<Id>) {
    forall o | o in orgs :: Owned(memberships, o)
  }

  ghost predicate Owned(memberships: map<Id, Membership>, org: Id) {
    exists i :: i in memberships && memberships[i].org == org && memberships[i].role == Owner
  }

  lemma AnotherOwner(db: Db, g: Gate, org: Id, id: Id) returns (other: Id)
    requires CountOwners(db, g, org) >= 2
    ensures other != id && other in db.memberships && db.memberships[other].org == org
    ensures db.memberships[other].role == Owner
  {
    var rows := OwnerRows(db, g, org);
    assert rows <= {id} ==> rows == {} || rows == {id};
    other :| other in rows && other != id;
  }

  lemma RoleChangeKeepsOwners(db: Db, g: Gate, org: Id, id: Id, role: Role, orgs: set<Id>)
    requires EveryOrgOwned(db.memberships, orgs) && MembershipIn(db, id, org)
    requires db.memberships[id].role == Owner && role != Owner ==> CountOwners(db, g, org) >= 2
    ensures EveryOrgOwned(db.memberships[id := db.memberships[id].(role := role)], orgs)
  {
    var after := db.memberships[id := db.memberships[id].(role := role)];
    var other := id;
    if db.memberships[id].role == Owner && role != Owner {
      other := AnotherOwner(db, g, org, id);
    }
    forall o | o in orgs ensures Owned(after, o) {
      assert Owned(db.memberships, o);
      var i :| i in db.memberships && db.memberships[i].org == o && db.memberships[i].role == Owner;
      assert if i == id then after[other].org == o && after[other].role == Owner else after[i] == db.memberships[i];
    }
  }

  lemma RemovalKeepsOwners(db: Db, g: Gate, org: Id, id: Id, orgs: set<Id>)
    requires EveryOrgOwned(db.memberships, orgs) && MembershipIn(db, id, org)
    requires db.memberships[id].role == Owner ==> CountOwners(db, g, org) >= 2
    ensures EveryOrgOwned(db.memberships - {id}, orgs)
  {
    var after := db.memberships - {id};
    var other := id;
    if db.memberships[id].role == Owner {
      other := AnotherOwner(db, g, org, id);
    }
    forall o | o in orgs ensures Owned(after, o) {
      assert Owned(db.memberships, o);
      var i :| i in db.memberships && db.memberships[i].org == o && db.memberships[i].role == Owner;
      var j := if i == id then other else i;
      assert j in after && after[j] == db.memberships[j];
    }
  }

  lemma NewRowKeepsOwners(memberships: map<Id, Membership>, orgs: set<Id>, id: Id, row: Membership)
    requires EveryOrgOwned(memberships, orgs) && id !in memberships
    ensures EveryOrgOwned(memberships[id := row], orgs)
    ensures row.role == Owner ==> EveryOrgOwned(memberships[id := row], orgs + {row.org})
  {
    var after := memberships[id := row];
    forall o | o in orgs ensures Owned(after, o) {
      assert Owned(memberships, o);
      var i :| i in memberships && memberships[i].org == o && memberships[i].role == Owner;
      assert i in after && after[i] == memberships[i];
    }
    assert after[id] == row;
  }

  lemma MemberStepKeepsOwners(s: Suite, g: Gate, db: Db, org: Id, actor: Id, op: Op)
    requires EveryOrgOwned(db.memberships, db.orgs.Keys) && OnMembers(op)
    ensures var r := MemberOutcome(g, db, org, actor, op);
            r.Success? ==> EveryOrgOwned(r.value.0.memberships, db.orgs.Keys)
  {
    hide Services.Invite, Services.UpdateRole, Services.Remove, Services.RequireOrgRole, EveryOrgOwned, IsMember;
    match op
    case Invite(email, role, id) =>
      if Services.Invite(g, db, org, actor, email, role, id).Success? {
        var row := InviteEffect(g, db, org, actor, email, role, id);
        NewRowKeepsOwners(db.memberships, db.orgs.Keys, id, row);
      }
    case UpdateRole(membership, role) =>
      if Services.UpdateRole(g, db, org, actor, membership, role).Success? {
        UpdateRoleEffect(g, db, org, actor, membership, role);
        RoleChangeKeepsOwners(db, g, org, membership, ParseRole(role).value, db.orgs.Keys);
      }
    case Remove(membership) =>
      if Services.Remove(g, db, org, actor, membership).Success? {
        RemoveEffect(g, db, org, actor, membership);
        RemovalKeepsOwners(db, g, org, membership, db.orgs.Keys);
      }
    case ListMembers =>
  }

  lemma AccountStepKeepsOwners(g: Gate, db: Db, org: Id, actor: Id, op: Op)
    requires EveryOrgOwned(db.memberships, db.orgs.Keys)
    requires op.Register? || op.CreateOrganization? || op.UpdateOrganization?
    ensures var r := AccountOutcome(g, db, org, actor, op);
            r.Success? ==>
              EveryOrgOwned(r.value.0.memberships, r.value.0.orgs.Keys) && db.orgs.Keys <= r.value.0.orgs.Keys
  {
    hide Services.Register, Services.CreateOrganization, Services.UpdateOrganization, EveryOrgOwned;
    match op
    case Register(email, password, id) =>
      if Services.Register(db, email, password, id).Success? { RegisterEffect(db, email, password, id); }
    case CreateOrganization(name, slug, id, ownerId) =>
      if Services.CreateOrganization(g, db, name, slug, actor, id, ownerId).Success? {
        CreateOrganizationEffect(g, db, name, slug, actor, id, ownerId);
        NewRowKeepsOwners(db.memberships, db.orgs.Keys, ownerId, Membership(actor, id, Owner));
        assert db.orgs[id := Organization(name, slug)].Keys == db.orgs.Keys + {id};
      }
    case UpdateOrganization(name, slug) =>
      if Services.UpdateOrganization(g, db, org, actor, name, slug).Success? {
        UpdateOrganizationEffect(g, db, org, actor, name, slug);
        var o := Services.UpdateOrganization(g, db, org, actor, name, slug).value.1.organization;
        assert db.orgs[org := o].Keys == db.orgs.Keys;
      }
  }

  lemma StepKeepsOwners(s: Suite, enforced: bool, db: Db, call: Call)
    requires EveryOrgOwned(db.memberships, db.orgs.Keys)
    ensures var db' := Step(s, enforced, db, call).0;
            EveryOrgOwned(db'.memberships, db'.orgs.Keys) && db.orgs.Keys <= db'.orgs.Keys
  {
    hide SecretOutcome, EnvironmentOutcome, ProjectOutcome, MemberOutcome, AccountOutcome, EveryOrgOwned;
    var g := ContextOf(enforced, call);
    Frame(s, enforced, db, call);
    if OnMembers(call.op) {
      MemberStepKeepsOwners(s, g, db, call.org, call.actor, call.op);
    } else if call.op.Register? || call.op.CreateOrganization? || call.op.UpdateOrganization? {
      AccountStepKeepsOwners(g, db, call.org, call.actor, call.op);
    }
  }

  /** In every reachable state every organization has an owner. */
  lemma {:induction false} EveryOrganizationHasAnOwner(s: Suite, enforced: bool, calls: seq<Call>)
    ensures var db := Run(s, enforced, calls); forall o | o in db.orgs :: OwnersOf(db, o) != {}
    ensures EveryOrgOwned(Run(s, enforced, calls).memberships, Run(s, enforced, calls).orgs.Keys)
  {
    hide Step;
    if calls != [] {
      var before := calls[..|calls| - 1];
      EveryOrganizationHasAnOwner(s, enforced, before);
      StepKeepsOwners(s, enforced, Run(s, enforced, before), calls[|calls| - 1]);
    }
    var db := Run(s, enforced, calls);
    forall o | o in db.orgs ensures OwnersOf(db, o) != {} {
      assert Owned(db.memberships, o);
      var i :| i in db.memberships && db.memberships[i].org == o && db.memberships[i].role == Owner;
      assert db.memberships[i].user in OwnersOf(db, o);
    }
  }

  lemma OwnerPassesCheck(db: Db, actor: Id, org: Id)
    requires Constraints(db) && HasRole(db, actor, org, Owner)
    ensures var r := Services.RequireOrgRole(db, In(true, actor, org), org, actor, Admin);
            r.Success? && r.value.role == Owner
    ensures IsMember(db, actor, org)
  {
    var i :| i in db.memberships && db.memberships[i].user == actor && db.memberships[i].org == org
      && Rank(db.memberships[i].role) >= Rank(Owner);
    assert i in MembershipsOf(db, In(true, actor, org), actor, org);
  }

  lemma SoleOwner(owners: set<Id>, user: Id)
    requires user in owners
    ensures |owners| <= 1 <==> owners == {user}
  {
    if owners != {user} {
      var other :| other in owners && other != user;
      SubsetIsSmaller({user, other}, owners);
    }
  }

  /** An owner demoting or removing an owner is refused exactly when there is no other. */
  lemma LastOwnerRefusal(db: Db, org: Id, actor: Id, membership: Id, role: string)
    requires Constraints(db) && HasRole(db, actor, org, Owner)
    requires MembershipIn(db, membership, org) && db.memberships[membership].role == Owner
    requires ParseRole(role).Some? && ParseRole(role).value != Owner
    ensures var last := OwnersOf(db, org) == {db.memberships[membership].user};
            && (Services.UpdateRole(In(true, actor, org), db, org, actor, membership, role) == Failure(LastOwner)
                <==> last)
            && (Services.Remove(In(true, actor, org), db, org, actor, membership) == Failure(LastOwner) <==> last)
  {
    hide MembershipSelect, IsMember, HasRole, OwnersOf, Constraints, MembershipDelete, MembershipUpdateCheck;
    hide MembershipUpdateUsing, CurrentPointersValid, Services.RequireOrgRole, CountOwners, GetMembership;
    OwnerPassesCheck(db, actor, org);
    OwnerCountIsTrue(db, actor, org);
    OwnerRowIsSeen(db, actor, org, membership);
    SoleOwner(OwnersOf(db, org), db.memberships[membership].user);
  }

  lemma OwnerRowIsSeen(db: Db, actor: Id, org: Id, membership: Id)
    requires IsMember(db, actor, org) && MembershipIn(db, membership, org) && db.memberships[membership].role == Owner
    ensures GetMembership(db, In(true, actor, org), membership) == Some(db.memberships[membership])
    ensures db.memberships[membership].user in OwnersOf(db, org)
  {
    MemberView(db, db, actor, org);
    hide MembershipSelect;
  }

  lemma {:induction false} SubsetIsSmaller(a: set<Id>, b: set<Id>)
    requires a <= b
    ensures |a| <= |b|
    decreases a
  {
    if x :| x in a {
      SubsetIsSmaller(a - {x}, b - {x});
    }
  }

  // -- Privilege -------------------------------------------------------------

  /** The owners of the organization are the same, and nobody new is owner or admin. */
  ghost predicate NoNewPrivilege(before: Db, after: Db, org: Id) {
    OwnersOf(after, org) == OwnersOf(before, org) && PrivilegedIn(after, org) <= PrivilegedIn(before, org)
  }

  /** A role of Owner found by the service's check is a row of the table. */
  lemma CheckedRoleIsHeld(db: Db, g: Gate, org: Id, actor: Id, minimum: Role)
    requires Services.RequireOrgRole(db, g, org, actor, minimum).Success?
    ensures HasRole(db, actor, org, Services.RequireOrgRole(db, g, org, actor, minimum).value.role)
  {
    var i := Pick(MembershipsOf(db, g, actor, org)).value;
    assert i in db.memberships;
  }

  lemma RowsDecidePrivilege(before: Db, after: Db, org: Id, id: Id)
    requires forall i | i in after.memberships && i != id ::
               i in before.memberships && after.memberships[i] == before.memberships[i]
    requires forall i | i in before.memberships && i != id :: i in after.memberships
    requires id in before.memberships ==> before.memberships[id].role == Owner ==> before.memberships[id].org != org
    requires id in after.memberships ==> after.memberships[id].role == Owner ==> after.memberships[id].org != org
    requires id in after.memberships && after.memberships[id].org == org && after.memberships[id].role == Admin ==>
               id in before.memberships && before.memberships[id] == after.memberships[id]
    ensures NoNewPrivilege(before, after, org)
  {
  }

  lemma MemberStepAddsNoPrivilege(s: Suite, g: Gate, db: Db, org: Id, actor: Id, op: Op, target: Id)
    requires OnMembers(op) && !HasRole(db, actor, target, Owner)
    ensures var r := MemberOutcome(g, db, org, actor, op);
            r.Success? ==> NoNewPrivilege(db, r.value.0, target)
  {
    hide Services.Invite, Services.UpdateRole, Services.Remove, Services.RequireOrgRole, HasRole, IsMember, OwnerRows;
    match op
    case Invite(email, role, id) =>
      if Services.Invite(g, db, org, actor, email, role, id).Success? {
        var row := InviteEffect(g, db, org, actor, email, role, id);
        CheckedRoleIsHeld(db, g, org, actor, Admin);
        RowsDecidePrivilege(db, db.(memberships := db.memberships[id := row]), target, id);
      }
    case UpdateRole(membership, role) =>
      if Services.UpdateRole(g, db, org, actor, membership, role).Success? {
        UpdateRoleEffect(g, db, org, actor, membership, role);
        CheckedRoleIsHeld(db, g, org, actor, Admin);
        var row := db.memberships[membership].(role := ParseRole(role).value);
        if row != db.memberships[membership] {
          RowsDecidePrivilege(db, db.(memberships := db.memberships[membership := row]), target, membership);
        } else {
          assert db.memberships[membership := row] == db.memberships;
        }
      }
    case Remove(membership) =>
      if Services.Remove(g, db, org, actor, membership).Success? {
        RemoveEffect(g, db, org, actor, membership);
        CheckedRoleIsHeld(db, g, org, actor, Admin);
        RowsDecidePrivilege(db, db.(memberships := db.memberships - {membership}), target, membership);
      }
    case ListMembers =>
  }

  lemma NewOrganizationIsApart(g: Gate, db: Db, org: Id, actor: Id, op: Op, target: Id)
    requires target in db.orgs && (op.Register? || op.CreateOrganization? || op.UpdateOrganization?)
    ensures var r := AccountOutcome(g, db, org, actor, op);
            r.Success? ==> NoNewPrivilege(db, r.value.0, target)
  {
    hide Services.Register, Services.CreateOrganization, Services.UpdateOrganization;
    match op
    case Register(email, password, id) =>
      if Services.Register(db, email, password, id).Success? { RegisterEffect(db, email, password, id); }
    case CreateOrganization(name, slug, id, ownerId) =>
      if Services.CreateOrganization(g, db, name, slug, actor, id, ownerId).Success? {
        CreateOrganizationEffect(g, db, name, slug, actor, id, ownerId);
        RowsDecidePrivilege(db, db.(memberships := db.memberships[ownerId := Membership(actor, id, Owner)]), target,
                            ownerId);
      }
    case UpdateOrganization(name, slug) =>
      if Services.UpdateOrganization(g, db, org, actor, name, slug).Success? {
        UpdateOrganizationEffect(g, db, org, actor, name, slug);
      }
  }

  lemma StepAddsNoPrivilege(s: Suite, enforced: bool, db: Db, call: Call, target: Id)
    requires target in db.orgs && !HasRole(db, call.actor, target, Owner)
    ensures NoNewPrivilege(db, Step(s, enforced, db, call).0, target)
  {
    hide SecretOutcome, EnvironmentOutcome, ProjectOutcome, MemberOutcome, AccountOutcome, HasRole;
    var g := ContextOf(enforced, call);
    Frame(s, enforced, db, call);
    if OnMembers(call.op) {
      MemberStepAddsNoPrivilege(s, g, db, call.org, call.actor, call.op, target);
    } else if call.op.Register? || call.op.CreateOrganization? || call.op.UpdateOrganization? {
      NewOrganizationIsApart(g, db, call.org, call.actor, call.op, target);
    }
  }

  /** Over any stretch of a run in which no call is made by an owner of the organization, its
      owners stay the same and its owners and admins can only become fewer. */
  lemma {:induction false} OnlyOwnersGrantPrivilege(s: Suite, enforced: bool, calls: seq<Call>, n: nat, org: Id)
    requires n <= |calls| && org in Run(s, enforced, calls[..n]).orgs
    requires forall i | n <= i < |calls| :: !HasRole(Run(s, enforced, calls[..i]), calls[i].actor, org, Owner)
    ensures org in Run(s, enforced, calls).orgs
    ensures NoNewPrivilege(Run(s, enforced, calls[..n]), Run(s, enforced, calls), org)
    decreases |calls|
  {
    hide Step, HasRole;
    if n < |calls| {
      var last := |calls| - 1;
      var before := calls[..last];
      assert forall i | 0 <= i <= last :: before[..i] == calls[..i];
      OnlyOwnersGrantPrivilege(s, enforced, before, n, org);
      EveryOrganizationHasAnOwner(s, enforced, before);
      StepKeepsOwners(s, enforced, Run(s, enforced, before), calls[last]);
      StepAddsNoPrivilege(s, enforced, Run(s, enforced, before), calls[last], org);
    } else {
      assert calls[..n] == calls;
    }
  }
}
