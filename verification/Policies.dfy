/**
 Row level security. A Gate is what a query is checked against: the two settings
 app.current_user_id and app.current_org_id ('' reads as None), and whether the
 database role is subject to policies at all. Subqueries of a policy are themselves
 filtered by the policies of the tables they read.
 */
module Policies {
  import opened Prelude
  import opened Schema

  datatype Gate = Gate(enforced: bool, user: Option<Id>, org: Option<Id>)

  /** SECURITY DEFINER: reads memberships without any policy. */
  predicate UserIsOrgMember(db: Db, user: Option<Id>, org: Option<Id>) {
    exists i | i in db.memberships ::
      Some(db.memberships[i].user) == user && Some(db.memberships[i].org) == org
  }

  predicate MembershipSelect(db: Db, g: Gate, m: Membership) {
    || !g.enforced
    || Some(m.user) == g.user
    || (Some(m.org) == g.org && UserIsOrgMember(db, g.user, g.org))
  }

  /** current_user_belongs_to_current_org(), the restrictive guard on every tenant table. */
  predicate BelongsToCurrentOrg(db: Db, g: Gate) {
    exists i | i in db.memberships ::
      && MembershipSelect(db, g, db.memberships[i])
      && Some(db.memberships[i].org) == g.org
      && Some(db.memberships[i].user) == g.user
  }

  // The four commands have the same condition on each of the next six tables.

  predicate ProjectPolicy(db: Db, g: Gate, p: Project) {
    !g.enforced || (Some(p.org) == g.org && BelongsToCurrentOrg(db, g))
  }

  /** project_id IN (SELECT id FROM projects WHERE organization_id = current org). */
  predicate ProjectSubquery(db: Db, g: Gate, project: Id) {
    && project in db.projects
    && ProjectPolicy(db, g, db.projects[project])
    && Some(db.projects[project].org) == g.org
  }

  predicate EnvironmentPolicy(db: Db, g: Gate, e: Environment) {
    !g.enforced || (ProjectSubquery(db, g, e.project) && BelongsToCurrentOrg(db, g))
  }

  /** environment_id IN (SELECT e.id FROM environments e JOIN projects p ...). */
  predicate EnvironmentSubquery(db: Db, g: Gate, env: Id) {
    && env in db.environments
    && EnvironmentPolicy(db, g, db.environments[env])
    && ProjectSubquery(db, g, db.environments[env].project)
  }

  predicate SecretPolicy(db: Db, g: Gate, s: Secret) {
    !g.enforced || (EnvironmentSubquery(db, g, s.env) && BelongsToCurrentOrg(db, g))
  }

  predicate KeyPolicy(db: Db, g: Gate, k: EncryptionKey) {
    !g.enforced || (EnvironmentSubquery(db, g, k.env) && BelongsToCurrentOrg(db, g))
  }

  /** secret_id IN (SELECT s.id FROM secrets s JOIN environments e ... JOIN projects p ...). */
  predicate SecretSubquery(db: Db, g: Gate, secret: Id) {
    && secret in db.secrets
    && SecretPolicy(db, g, db.secrets[secret])
    && EnvironmentSubquery(db, g, db.secrets[secret].env)
  }

  predicate VersionPolicy(db: Db, g: Gate, v: SecretVersion) {
    !g.enforced || (SecretSubquery(db, g, v.secret) && BelongsToCurrentOrg(db, g))
  }

  predicate AuditPolicy(db: Db, g: Gate, a: AuditEntry) {
    !g.enforced || (Some(a.org) == g.org && BelongsToCurrentOrg(db, g))
  }

  // -- Memberships and organizations -----------------------------------------

  /** EXISTS (SELECT 1 FROM memberships actor WHERE ... AND actor.role IN roles). */
  predicate ActorHasRole(db: Db, g: Gate, org: Id, roles: set<Role>) {
    exists i | i in db.memberships ::
      && MembershipSelect(db, g, db.memberships[i])
      && db.memberships[i].org == org
      && Some(db.memberships[i].user) == g.user
      && db.memberships[i].role in roles
  }

  predicate NoVisibleMember(db: Db, g: Gate, org: Id) {
    forall i | i in db.memberships && MembershipSelect(db, g, db.memberships[i]) :: db.memberships[i].org != org
  }

  predicate MembershipInsert(db: Db, g: Gate, m: Membership) {
    || !g.enforced
    || (ActorHasRole(db, g, m.org, {Owner, Admin}) && m.role in {Admin, Member, Viewer})
    || (Some(m.user) == g.user && m.role == Owner && NoVisibleMember(db, g, m.org))
  }

  predicate MembershipUpdateUsing(db: Db, g: Gate, m: Membership) {
    !g.enforced || ActorHasRole(db, g, m.org, {Owner, Admin})
  }

  predicate MembershipUpdateCheck(db: Db, g: Gate, m: Membership) {
    || !g.enforced
    || (ActorHasRole(db, g, m.org, {Owner, Admin}) && (m.role != Owner || ActorHasRole(db, g, m.org, {Owner})))
  }

  /** user_id <> current user is not true when the current user is NULL. */
  predicate MembershipDelete(db: Db, g: Gate, m: Membership) {
    || !g.enforced
    || (ActorHasRole(db, g, m.org, {Owner, Admin})
        && ((g.user.Some? && m.user != g.user.value) || ActorHasRole(db, g, m.org, {Owner})))
  }

  predicate OrganizationSelect(db: Db, g: Gate, org: Id) {
    !g.enforced || ActorHasRole(db, g, org, {Owner, Admin, Member, Viewer})
  }

  predicate OrganizationUpdate(db: Db, g: Gate, org: Id) {
    !g.enforced || ActorHasRole(db, g, org, {Owner, Admin})
  }

  // -- Closed forms ----------------------------------------------------------

  /** The context reaches an organization: both settings present and a membership between them. */
  ghost predicate Reaches(db: Db, g: Gate, org: Id) {
    g.org == Some(org) && g.user.Some? && IsMember(db, g.user.value, org)
  }

  lemma BelongsClosedForm(db: Db, g: Gate)
    ensures BelongsToCurrentOrg(db, g) <==> g.org.Some? && Reaches(db, g, g.org.value)
  {
    if g.org.Some? && Reaches(db, g, g.org.value) {
      var i :| i in db.memberships
        && db.memberships[i].user == g.user.value && db.memberships[i].org == g.org.value;
      assert MembershipSelect(db, g, db.memberships[i]);
    }
  }

  /** With policies enforced, a row of any tenant table is visible exactly when its parent
      chain reaches the context organization and the context user is a member there. */
  lemma NestedPoliciesClosedForm(db: Db, g: Gate, id: Id)
    requires g.enforced
    ensures id in db.projects ==>
              (ProjectPolicy(db, g, db.projects[id]) <==>
               exists o :: ProjectIn(db, id, o) && Reaches(db, g, o))
    ensures id in db.environments ==>
              (EnvironmentPolicy(db, g, db.environments[id]) <==>
               exists o :: EnvironmentIn(db, id, o) && Reaches(db, g, o))
    ensures id in db.secrets ==>
              (SecretPolicy(db, g, db.secrets[id]) <==>
               exists o :: SecretIn(db, id, o) && Reaches(db, g, o))
    ensures id in db.keys ==>
              (KeyPolicy(db, g, db.keys[id]) <==>
               exists o :: KeyIn(db, id, o) && Reaches(db, g, o))
    ensures id in db.versions ==>
              (VersionPolicy(db, g, db.versions[id]) <==>
               exists o :: VersionIn(db, id, o) && Reaches(db, g, o))
  {
    BelongsClosedForm(db, g);
  }

  /** An empty user or organization setting hides every tenant row and refuses every write of one. */
  lemma EmptyContextSeesNothing(db: Db, g: Gate)
    requires g.enforced && (g.user.None? || g.org.None?)
    ensures forall p :: !ProjectPolicy(db, g, p)
    ensures forall e :: !EnvironmentPolicy(db, g, e)
    ensures forall s :: !SecretPolicy(db, g, s)
    ensures forall k :: !KeyPolicy(db, g, k)
    ensures forall v :: !VersionPolicy(db, g, v)
    ensures forall a :: !AuditPolicy(db, g, a)
  {
    BelongsClosedForm(db, g);
  }

  /** The widened membership policy: a context whose user belongs to its organization sees
      exactly the memberships of that organization and the user's own; any other context
      sees only the user's own. */
  lemma MembershipSelectClosedForm(db: Db, g: Gate, m: Membership)
    requires g.enforced
    ensures MembershipSelect(db, g, m) <==> g.user == Some(m.user) || Reaches(db, g, m.org)
  {
    if g.user.Some? && g.org == Some(m.org) {
      if UserIsOrgMember(db, g.user, g.org) {
        var i :| i in db.memberships
          && Some(db.memberships[i].user) == g.user && Some(db.memberships[i].org) == g.org;
        assert IsMember(db, g.user.value, m.org);
      }
      if IsMember(db, g.user.value, m.org) {
        var i :| i in db.memberships
          && db.memberships[i].user == g.user.value && db.memberships[i].org == m.org;
        assert UserIsOrgMember(db, g.user, g.org);
      }
    }
  }

  /** A user's own rows are always visible to it, so a role test of a policy is about the true role. */
  lemma ActorHasRoleClosedForm(db: Db, g: Gate, org: Id, roles: set<Role>)
    ensures ActorHasRole(db, g, org, roles) <==>
              exists i :: i in db.memberships && Some(db.memberships[i].user) == g.user && db.memberships[i].org == org
                          && db.memberships[i].role in roles
  {
    if i :| i in db.memberships && Some(db.memberships[i].user) == g.user && db.memberships[i].org == org
            && db.memberships[i].role in roles {
      assert MembershipSelect(db, g, db.memberships[i]);
    }
  }

  lemma NoVisibleMemberClosedForm(db: Db, g: Gate, org: Id)
    requires g.enforced && g.user.Some?
    ensures NoVisibleMember(db, g, org) <==> !IsMember(db, g.user.value, org)
  {
    if IsMember(db, g.user.value, org) {
      var i :| i in db.memberships && db.memberships[i].user == g.user.value && db.memberships[i].org == org;
      assert MembershipSelect(db, g, db.memberships[i]);
    } else {
      forall i | i in db.memberships && MembershipSelect(db, g, db.memberships[i])
        ensures db.memberships[i].org != org
      {
        MembershipSelectClosedForm(db, g, db.memberships[i]);
      }
    }
  }

  /** The policies on memberships and organizations that are not about reading memberships, in terms
      of the context user's true role; without a user they let nothing through. */
  lemma RolePoliciesClosedForm(db: Db, g: Gate, m: Membership, org: Id)
    requires g.enforced
    ensures g.user.None? ==>
              && !MembershipInsert(db, g, m) && !MembershipUpdateUsing(db, g, m) && !MembershipUpdateCheck(db, g, m)
              && !MembershipDelete(db, g, m) && !OrganizationSelect(db, g, org) && !OrganizationUpdate(db, g, org)
    ensures g.user.Some? ==>
              var user := g.user.value;
              && (MembershipInsert(db, g, m) <==>
                    || (HasRole(db, user, m.org, Admin) && m.role != Owner)
                    || (m.user == user && m.role == Owner && !IsMember(db, user, m.org)))
              && (MembershipUpdateUsing(db, g, m) <==> HasRole(db, user, m.org, Admin))
              && (MembershipUpdateCheck(db, g, m) <==>
                    HasRole(db, user, m.org, Admin) && (m.role == Owner ==> HasRole(db, user, m.org, Owner)))
              && (MembershipDelete(db, g, m) <==>
                    HasRole(db, user, m.org, Admin) && (m.user == user ==> HasRole(db, user, m.org, Owner)))
              && (OrganizationSelect(db, g, org) <==> IsMember(db, user, org))
              && (OrganizationUpdate(db, g, org) <==> HasRole(db, user, org, Admin))
  {
    RolesInOrder(db, g, m.org);
    RolesInOrder(db, g, org);
    hide ActorHasRole, HasRole, IsMember;
    if g.user.Some? {
      NoVisibleMemberClosedForm(db, g, m.org);
    }
  }

  lemma RolesInOrder(db: Db, g: Gate, org: Id)
    ensures g.user.None? ==> forall roles :: !ActorHasRole(db, g, org, roles)
    ensures g.user.Some? ==>
              && (ActorHasRole(db, g, org, {Owner}) <==> HasRole(db, g.user.value, org, Owner))
              && (ActorHasRole(db, g, org, {Owner, Admin}) <==> HasRole(db, g.user.value, org, Admin))
              && (ActorHasRole(db, g, org, {Owner, Admin, Member, Viewer}) <==> IsMember(db, g.user.value, org))
  {
    ActorHasRoleClosedForm(db, g, org, {Owner});
    ActorHasRoleClosedForm(db, g, org, {Owner, Admin});
    ActorHasRoleClosedForm(db, g, org, {Owner, Admin, Member, Viewer});
  }

  /** An audit entry is readable and writable exactly from a context that reaches its organization. */
  lemma AuditPolicyClosedForm(db: Db, g: Gate, a: AuditEntry)
    requires g.enforced
    ensures AuditPolicy(db, g, a) <==> Reaches(db, g, a.org)
  {
    BelongsClosedForm(db, g);
  }
}
