/** Exactly when an invitation, a role change or a removal succeeds, and what it does then,
    over the membership rows alone. */
module Grants {
  import opened Prelude
  import opened Envelope
  import opened Schema
  import opened Policies
  import opened Repositories
  import Services
  import opened Calls
  import opened Agreement
  import opened Ownership
  import opened Creations
  import Vault

  ghost predicate IsOwner(db: Db, user: Id, org: Id) {
    HasRole(db, user, org, Owner)
  }

  /** The four role names, and their order. */
  lemma RoleNames(name: string)
    ensures ParseRole(name) == Some(Viewer) <==> name == "viewer"
    ensures ParseRole(name) == Some(Member) <==> name == "member"
    ensures ParseRole(name) == Some(Admin) <==> name == "admin"
    ensures ParseRole(name) == Some(Owner) <==> name == "owner"
    ensures Rank(Viewer) < Rank(Member) < Rank(Admin) < Rank(Owner)
  {
  }

  /** The row the check returns carries the actor's true role. */
  lemma CheckedRole(db: Db, g: Gate, org: Id, actor: Id)
    requires Constraints(db) && !g.enforced
    ensures var r := Services.RequireOrgRole(db, g, org, actor, Admin);
            && (if HasRole(db, actor, org, Admin) then r.Success? else r == Failure(RoleError(db, actor, org)))
            && (r.Success? ==> (r.value.role == Owner <==> IsOwner(db, actor, org)))
            && (IsOwner(db, actor, org) ==> r.Success?)
  {
    Vault.RoleMeans(db, g, org, actor, Admin);
    Vault.RoleMeans(db, g, org, actor, Owner);
  }

  lemma TrueCount(db: Db, g: Gate, org: Id, user: Id)
    requires Constraints(db) && !g.enforced && user in OwnersOf(db, org)
    ensures CountOwners(db, g, org) <= 1 <==> OwnersOf(db, org) == {user}
  {
    var rows := OwnerRows(db, g, org);
    assert OwnersOf(db, org) == set i | i in rows :: db.memberships[i].user;
    SameSize(db, org, rows);
    SoleOwner(OwnersOf(db, org), user);
  }

  lemma LastOwnerCounts(db: Db, g: Gate, org: Id, membership: Id)
    requires Constraints(db) && !g.enforced
    ensures MembershipIn(db, membership, org) && db.memberships[membership].role == Owner ==>
              (CountOwners(db, g, org) <= 1 <==> OwnersOf(db, org) == {db.memberships[membership].user})
  {
    if MembershipIn(db, membership, org) && db.memberships[membership].role == Owner {
      assert db.memberships[membership].user in OwnersOf(db, org);
      TrueCount(db, g, org, db.memberships[membership].user);
    }
  }

  // -- invite ----------------------------------------------------------------

  /** Each answer of an invitation, over the rows alone. */
  ghost predicate InviteAnswers(db: Db, call: Call, after: Db, r: Response)
    requires call.op.Invite?
  {
    var (op, org, actor) := (call.op, call.org, call.actor);
    if op.role !in ["viewer", "member", "admin"] then after == db && r == Failure(InvalidMembershipRole)
    else if !HasRole(db, actor, org, Admin) then after == db && r == Failure(RoleError(db, actor, org))
    else if op.role == "admin" && !IsOwner(db, actor, org) then after == db && r == Failure(InsufficientRole)
    else if !EmailInUse(db, op.inviteEmail) then after == db && r == Failure(UserNotFound)
    else if op.membershipId in db.memberships || MemberByEmail(db, op.inviteEmail, org) then
      after == db && r == Failure(MembershipAlreadyExists)
    else
      && r == Success(Services.Created(op.membershipId))
      && op.membershipId in after.memberships
      && var row := after.memberships[op.membershipId];
         && row.user in db.users && db.users[row.user].email == op.inviteEmail
         && row.org == org && ParseRole(op.role) == Some(row.role)
         && after == db.(memberships := db.memberships[op.membershipId := row])
  }

  ghost predicate MemberByEmail(db: Db, email: string, org: Id) {
    exists u :: u in db.users && db.users[u].email == email && IsMember(db, u, org)
  }

  lemma UnenforcedInvite(db: Db, call: Call)
    requires Constraints(db) && call.op.Invite?
    ensures var (org, actor, op) := (call.org, call.actor, call.op);
            var outcome := Services.Invite(In(false, actor, org), db, org, actor, op.inviteEmail, op.role,
                                           op.membershipId);
            var (after, r) := Settle(db, outcome);
            InviteAnswers(db, call, after, r)
  {
    hide Services.RequireOrgRole, HasRole, RoleError, IsOwner, IsMember, UsersByEmail, MembershipsOf, Constraints;
    hide CurrentPointersValid, ParseRole, EmailInUse, MemberByEmail;
    var (g, org, actor, op) := (In(false, call.actor, call.org), call.org, call.actor, call.op);
    RoleNames(op.role);
    CheckedRole(db, g, org, actor);
    KnownOrganization(db, actor, org);
    EmailsSeen(db, op.inviteEmail);
    PointersHold(db);
    var user := Pick(UsersByEmail(db.users, op.inviteEmail));
    if user.Some? {
      EmailFinds(db, op.inviteEmail, org, user.value);
      VisibleMember(db, g, user.value, org);
    }
  }

  lemma KnownOrganization(db: Db, actor: Id, org: Id)
    requires Constraints(db)
    ensures HasRole(db, actor, org, Admin) ==> org in db.orgs
  {
  }

  /** The one account with the email. */
  lemma EmailFinds(db: Db, email: string, org: Id, user: Id)
    requires Constraints(db) && user in UsersByEmail(db.users, email)
    ensures user in db.users && db.users[user].email == email
    ensures MemberByEmail(db, email, org) <==> IsMember(db, user, org)
  {
    hide UniqueSlugs, MembershipConstraints, ProjectConstraints, EnvironmentConstraints, KeyConstraints;
    hide SecretConstraints, VersionConstraints, CurrentPointersValid, IsMember;
  }

  lemma VisibleMember(db: Db, g: Gate, user: Id, org: Id)
    requires !g.enforced
    ensures Pick(MembershipsOf(db, g, user, org)).Some? <==> IsMember(db, user, org)
  {
    if IsMember(db, user, org) {
      var i :| i in db.memberships && db.memberships[i].user == user && db.memberships[i].org == org;
      assert i in MembershipsOf(db, g, user, org);
    }
  }

  /** An invitation gives the account with that email that role, exactly when the actor may give it
      and there is such an account without a membership; otherwise nothing happens, and which
      exception is raised is decided in the order of the checks. */
  lemma InviteAddsExactly(s: Suite, enforced: bool, db: Db, call: Call)
    requires Constraints(db) && call.op.Invite?
    ensures var (after, r) := Step(s, enforced, db, call); InviteAnswers(db, call, after, r)
  {
    hide Services.Invite, InviteAnswers, Constraints, Step;
    var (org, actor, op) := (call.org, call.actor, call.op);
    MemberStep(s, enforced, db, call);
    UnenforcedInvite(db, call);
    InviteAgrees(db, org, actor, op.inviteEmail, op.role, op.membershipId);
  }

  // -- update_role -----------------------------------------------------------

  /** Each answer of a role change, over the rows alone. A change to the role already held is none. */
  ghost predicate RoleChangeAnswers(db: Db, call: Call, after: Db, r: Response)
    requires call.op.UpdateRole?
  {
    var (org, actor, id, parsed) := (call.org, call.actor, call.op.membership, ParseRole(call.op.newRole));
    if parsed.None? then after == db && r == Failure(InvalidMembershipRole)
    else if !HasRole(db, actor, org, Admin) then after == db && r == Failure(RoleError(db, actor, org))
    else if !MembershipIn(db, id, org) then after == db && r == Failure(MembershipNotFound)
    else
      var (m, role) := (db.memberships[id], parsed.value);
      if m.role != role && (role in {Owner, Admin} || m.role == Owner) && !IsOwner(db, actor, org) then
        after == db && r == Failure(InsufficientRole)
      else if m.role == Owner && role != Owner && OwnersOf(db, org) == {m.user} then
        after == db && r == Failure(LastOwner)
      else
        && after == db.(memberships := db.memberships[id := Membership(m.user, org, role)])
        && r == Success(Services.MembershipRow(after.memberships[id]))
  }

  lemma UnenforcedUpdateRole(db: Db, call: Call)
    requires Constraints(db) && call.op.UpdateRole?
    ensures var (org, actor, op) := (call.org, call.actor, call.op);
            var outcome := Services.UpdateRole(In(false, actor, org), db, org, actor, op.membership, op.newRole);
            var (after, r) := Settle(db, outcome);
            RoleChangeAnswers(db, call, after, r)
  {
    hide Services.RequireOrgRole, HasRole, RoleError, IsOwner, OwnersOf, CountOwners, ParseRole, Constraints;
    hide GetMembership, SetRole, Commit;
    var (g, org, actor, id) := (In(false, call.actor, call.org), call.org, call.actor, call.op.membership);
    CheckedRole(db, g, org, actor);
    LastOwnerCounts(db, g, org, id);
    if ParseRole(call.op.newRole).Some? {
      RoleIsSet(db, g, id, ParseRole(call.op.newRole).value);
    }
  }

  /** Without policies a role can be set on any row, and setting the old role changes nothing. */
  lemma RoleIsSet(db: Db, g: Gate, id: Id, role: Role)
    requires Constraints(db) && !g.enforced
    ensures GetMembership(db, g, id) == if id in db.memberships then Some(db.memberships[id]) else None
    ensures id in db.memberships ==>
              var m := db.memberships[id];
              var changed := db.(memberships := db.memberships[id := Membership(m.user, m.org, role)]);
              && SetRole(db, g, id, role) == Success(changed) && Commit(changed) == Success(changed)
              && (m.role == role ==> changed == db)
  {
    PointersHold(db);
    hide Constraints;
    if id in db.memberships {
      assert db.memberships[id := db.memberships[id]] == db.memberships;
    }
  }

  /** A role change changes that one role and answers the row as it then is, exactly when the actor
      may make it; otherwise nothing happens, and the exception is the one of the first check
      that fails. */
  lemma UpdateRoleChangesExactly(s: Suite, enforced: bool, db: Db, call: Call)
    requires Constraints(db) && call.op.UpdateRole?
    ensures var (after, r) := Step(s, enforced, db, call); RoleChangeAnswers(db, call, after, r)
  {
    hide Services.UpdateRole, RoleChangeAnswers, Constraints, Step;
    var (org, actor, op) := (call.org, call.actor, call.op);
    MemberStep(s, enforced, db, call);
    UnenforcedUpdateRole(db, call);
    UpdateRoleAgrees(db, org, actor, op.membership, op.newRole);
  }

  // -- remove ----------------------------------------------------------------

  /** Each answer of a removal; the rows that stay are another matter. */
  ghost function RemoveAnswer(db: Db, call: Call): Response
    requires call.op.Remove?
  {
    var (org, actor, id) := (call.org, call.actor, call.op.membership);
    if !HasRole(db, actor, org, Admin) then Failure(RoleError(db, actor, org))
    else if !MembershipIn(db, id, org) then Failure(MembershipNotFound)
    else if db.memberships[id].role == Owner && !IsOwner(db, actor, org) then Failure(InsufficientRole)
    else if db.memberships[id].role == Owner && OwnersOf(db, org) == {db.memberships[id].user} then Failure(LastOwner)
    else Success(Services.Done)
  }

  lemma UnenforcedRemove(db: Db, call: Call)
    requires Constraints(db) && call.op.Remove?
    ensures var (org, actor, id) := (call.org, call.actor, call.op.membership);
            var (after, r) := Settle(db, Services.Remove(In(false, actor, org), db, org, actor, id));
            && r == RemoveAnswer(db, call)
            && after == if r.Success? then db.(memberships := db.memberships - {id}) else db
  {
    hide Services.RequireOrgRole, HasRole, RoleError, IsOwner, OwnersOf, CountOwners, Constraints;
    hide GetMembership, DeleteMembership, Commit;
    var (g, org, actor, id) := (In(false, call.actor, call.org), call.org, call.actor, call.op.membership);
    CheckedRole(db, g, org, actor);
    LastOwnerCounts(db, g, org, id);
    RowIsDeleted(db, g, id);
  }

  /** Without policies any row can be deleted. */
  lemma RowIsDeleted(db: Db, g: Gate, id: Id)
    requires Constraints(db) && !g.enforced
    ensures GetMembership(db, g, id) == if id in db.memberships then Some(db.memberships[id]) else None
    ensures id in db.memberships ==>
              var rest := db.(memberships := db.memberships - {id});
              DeleteMembership(db, g, id) == rest && Commit(rest) == Success(rest)
  {
    PointersHold(db);
    hide Constraints;
  }

  /** A removal succeeds exactly for who may make it, and takes away that one row; with policies
      in force an admin's removal of itself takes away nothing. */
  lemma RemoveTakesExactly(s: Suite, enforced: bool, db: Db, call: Call)
    requires Constraints(db) && call.op.Remove?
    ensures var (after, r) := Step(s, enforced, db, call);
            && r == RemoveAnswer(db, call)
            && after == if r.Failure? || (enforced && RemovesItself(db, call)) then db
                        else db.(memberships := db.memberships - {call.op.membership})
  {
    hide Services.Remove, RemoveAnswer, Constraints, Step;
    var (org, actor, id) := (call.org, call.actor, call.op.membership);
    MemberStep(s, enforced, db, call);
    UnenforcedRemove(db, call);
    if SelfRemovalByAdmin(db, org, actor, id) {
      SelfRemovalDiffers(db, org, actor, id);
    } else {
      RemoveAgrees(db, org, actor, id);
    }
  }
}
