/** Exactly when a project or an organization is changed, with which exception the call fails when
    it is not, and what the row becomes. */
module Changes {
  import opened Prelude
  import opened Envelope
  import opened Schema
  import opened Policies
  import opened Repositories
  import Services
  import opened Calls
  import opened Agreement
  import opened Creations
  import Vault

  /** The row has the new value of a field that was given, and the old one of a field that was not. */
  predicate Takes<T(==)>(field: Option<T>, before: T, after: T) {
    match field
    case Some(value) => after == value
    case None => after == before
  }

  // -- update a project ------------------------------------------------------

  ghost predicate ProjectChangeAnswers(db: Db, call: Call, after: Db, r: Response)
    requires call.op.UpdateProject?
  {
    var (op, id) := (call.op, call.op.project);
    if !HasRole(db, call.actor, call.org, Member) then
      after == db && r == Failure(RoleError(db, call.actor, call.org))
    else if !ProjectIn(db, id, call.org) then after == db && r == Failure(ProjectNotFound)
    else if op.newSlug.Some? && SlugInUse(db, call.org, op.newSlug.value, Some(id)) then
      after == db && r == Failure(ProjectAlreadyExists)
    else
      && r.Success? && r.value.ProjectRow?
      && var (old', row) := (db.projects[id], r.value.project);
         && row.org == call.org
         && Takes(op.newName, old'.name, row.name) && Takes(op.newSlug, old'.slug, row.slug)
         && (row.description == if op.newDescription.Some? then op.newDescription else old'.description)
         && after == db.(projects := db.projects[id := row])
  }

  /** One project at most has a slug: the lookup finds another one exactly when there is one. */
  lemma OtherProjectSeen(db: Db, g: Gate, org: Id, slug: string, id: Id)
    requires Constraints(db) && !g.enforced && ProjectIn(db, id, org)
    ensures var found := Pick(ProjectsBySlug(db, g, org, slug));
            found.Some? && found.value != id <==> SlugInUse(db, org, slug, Some(id))
    ensures ProjectSlugTaken(db, org, slug, Some(id)) <==> SlugInUse(db, org, slug, Some(id))
    ensures db.projects[id].slug == slug ==> !SlugInUse(db, org, slug, Some(id))
  {
    hide UniqueEmails, UniqueSlugs, MembershipConstraints, EnvironmentConstraints, KeyConstraints, SecretConstraints;
    hide VersionConstraints, CurrentPointersValid;
    if SlugInUse(db, org, slug, Some(id)) {
      var i :| i in db.projects && db.projects[i].org == org && db.projects[i].slug == slug && i != id;
      assert i in ProjectsBySlug(db, g, org, slug);
    }
    var found := Pick(ProjectsBySlug(db, g, org, slug));
    if found.Some? && found.value != id {
      assert found.value in db.projects;
    }
  }

  lemma UnenforcedProjectChange(db: Db, call: Call)
    requires Constraints(db) && call.op.UpdateProject?
    ensures var (org, actor, op) := (call.org, call.actor, call.op);
            var outcome := Services.UpdateProject(In(false, actor, org), db, org, actor, op.project, op.newName,
                                                  op.newSlug, op.newDescription);
            var (after, r) := Settle(db, outcome);
            ProjectChangeAnswers(db, call, after, r)
  {
    hide Constraints, HasRole, RoleError, SlugInUse, ProjectSlugTaken, ProjectsBySlug, Services.RequireOrgRole;
    hide CurrentPointersValid;
    var (g, org, actor, op) := (In(false, call.actor, call.org), call.org, call.actor, call.op);
    Vault.RoleMeans(db, g, org, actor, Member);
    Vault.RoleMeans(db, g, org, actor, Viewer);
    HigherRole(db, actor, org, Member, Viewer);
    PointersHold(db);
    if ProjectIn(db, op.project, org) {
      var old' := db.projects[op.project];
      OtherProjectSeen(db, g, org, old'.slug, op.project);
      if op.newSlug.Some? {
        OtherProjectSeen(db, g, org, op.newSlug.value, op.project);
      }
      assert db.projects[op.project := old'] == db.projects;
    }
  }

  lemma HigherRole(db: Db, actor: Id, org: Id, role: Role, lower: Role)
    requires Rank(lower) <= Rank(role)
    ensures HasRole(db, actor, org, role) ==> HasRole(db, actor, org, lower)
  {
  }

  lemma UpdateProjectAnswers(s: Suite, enforced: bool, db: Db, call: Call)
    requires Constraints(db) && call.op.UpdateProject?
    ensures var (after, r) := Step(s, enforced, db, call); ProjectChangeAnswers(db, call, after, r)
  {
    hide Services.UpdateProject, Constraints, ProjectChangeAnswers, Step;
    var (org, actor, op) := (call.org, call.actor, call.op);
    ProjectStep(s, enforced, db, call);
    UnenforcedProjectChange(db, call);
    UpdateProjectAgrees(db, org, actor, op.project, op.newName, op.newSlug, op.newDescription);
  }

  // -- update an organization ------------------------------------------------

  /** Another organization has the slug, seen by the caller or not. */
  ghost predicate OrgSlugInUse(db: Db, slug: string, except: Id) {
    exists i :: i in db.orgs && db.orgs[i].slug == slug && i != except
  }

  ghost predicate OrganizationChangeAnswers(db: Db, call: Call, after: Db, r: Response)
    requires call.op.UpdateOrganization?
  {
    var op := call.op;
    if !HasRole(db, call.actor, call.org, Admin) then
      after == db && r == Failure(RoleError(db, call.actor, call.org))
    else if op.newSlug.Some? && OrgSlugInUse(db, op.newSlug.value, call.org) then
      after == db && r == Failure(OrganizationAlreadyExists)
    else
      && call.org in db.orgs && r.Success? && r.value.OrganizationRow?
      && var (old', row) := (db.orgs[call.org], r.value.organization);
         && Takes(op.newName, old'.name, row.name) && Takes(op.newSlug, old'.slug, row.slug)
         && after == db.(orgs := db.orgs[call.org := row])
  }

  lemma OtherOrganizationSeen(db: Db, g: Gate, org: Id, slug: string)
    requires Constraints(db) && !g.enforced && org in db.orgs
    ensures var found := Pick(OrganizationsBySlug(db, g, slug));
            found.Some? && found.value != org <==> OrgSlugInUse(db, slug, org)
    ensures OrgSlugTaken(db, slug, Some(org)) <==> OrgSlugInUse(db, slug, org)
    ensures db.orgs[org].slug == slug ==> !OrgSlugInUse(db, slug, org)
  {
    hide UniqueEmails, MembershipConstraints, ProjectConstraints, EnvironmentConstraints, KeyConstraints;
    hide SecretConstraints, VersionConstraints, CurrentPointersValid;
    if OrgSlugInUse(db, slug, org) {
      var i :| i in db.orgs && db.orgs[i].slug == slug && i != org;
      assert i in OrganizationsBySlug(db, g, slug);
    }
    var found := Pick(OrganizationsBySlug(db, g, slug));
    if found.Some? && found.value != org {
      assert found.value in db.orgs;
    }
  }

  lemma UnenforcedOrganizationChange(db: Db, call: Call)
    requires Constraints(db) && call.op.UpdateOrganization?
    ensures var (org, actor, op) := (call.org, call.actor, call.op);
            var outcome := Services.UpdateOrganization(In(false, actor, org), db, org, actor, op.newName, op.newSlug);
            var (after, r) := Settle(db, outcome);
            OrganizationChangeAnswers(db, call, after, r)
  {
    hide Constraints, HasRole, RoleError, OrgSlugInUse, OrgSlugTaken, OrganizationsBySlug, Services.RequireOrgRole;
    hide CurrentPointersValid;
    var (g, org, actor, op) := (In(false, call.actor, call.org), call.org, call.actor, call.op);
    Vault.RoleMeans(db, g, org, actor, Admin);
    PointersHold(db);
    if HasRole(db, actor, org, Admin) {
      Vault.RoleHolderIsKnown(db, actor, org, Admin);
      var old' := db.orgs[org];
      OtherOrganizationSeen(db, g, org, old'.slug);
      if op.newSlug.Some? {
        OtherOrganizationSeen(db, g, org, op.newSlug.value);
      }
      assert db.orgs[org := old'] == db.orgs;
    }
  }

  lemma UpdateOrganizationAnswers(s: Suite, enforced: bool, db: Db, call: Call)
    requires Constraints(db) && call.op.UpdateOrganization?
    ensures var (after, r) := Step(s, enforced, db, call); OrganizationChangeAnswers(db, call, after, r)
  {
    hide Services.UpdateOrganization, Constraints, OrganizationChangeAnswers, Step;
    var (org, actor, op) := (call.org, call.actor, call.op);
    AccountStep(s, enforced, db, call);
    UnenforcedOrganizationChange(db, call);
    UpdateOrganizationAgrees(db, org, actor, op.newName, op.newSlug);
  }
}
