/** Exactly when an account, an organization, a project or an environment is created, with which
    exception the call fails when it is not, and what is created. */
module Creations {
  import opened Prelude
  import opened Envelope
  import opened Schema
  import opened Policies
  import opened Repositories
  import Services
  import opened Calls
  import opened Effects
  import opened Agreement
  import Vault

  // -- create an environment -------------------------------------------------

  /** A colliding environment id escapes as it is; a colliding key id is reported as a name conflict. */
  ghost predicate EnvironmentAnswers(s: Suite, db: Db, call: Call, after: Db, r: Response)
    requires call.op.CreateEnvironment?
  {
    var op := call.op;
    if !HasRole(db, call.actor, call.org, Member) then
      after == db && r == Failure(RoleError(db, call.actor, call.org))
    else if !ProjectIn(db, op.project, call.org) then after == db && r == Failure(EnvironmentProjectNotFound)
    else if EnvironmentNameTaken(db, op.project, op.envName) then after == db && r == Failure(EnvironmentAlreadyExists)
    else if op.envId in db.environments then after == db && r == Failure(IntegrityError)
    else if op.keyId in db.keys then after == db && r == Failure(EnvironmentAlreadyExists)
    else
      && r == Success(Services.Created(op.envId))
      && after == db.(environments := db.environments[op.envId := Environment(op.project, op.envName)],
                      keys := db.keys[op.keyId :=
                        EncryptionKey(op.envId, CreateWrappedDek(s, op.dek, op.nonce), 1, true)])
  }

  lemma NamesSeen(db: Db, g: Gate, project: Id, name: string)
    requires !g.enforced
    ensures Pick(EnvironmentsByName(db, g, project, name)).Some? <==> EnvironmentNameTaken(db, project, name)
  {
    if EnvironmentNameTaken(db, project, name) {
      var i :| i in db.environments && db.environments[i].project == project && db.environments[i].name == name;
      assert i in EnvironmentsByName(db, g, project, name);
    }
  }

  lemma FirstKeyInserts(s: Suite, db: Db, g: Gate, id: Id, row: Environment, keyId: Id, dek: Key, nonce: Nonce)
    requires Constraints(db) && !g.enforced && id !in db.environments
    ensures var db1 := db.(environments := db.environments[id := row]);
            var r := Services.CommitEnvironmentKey(s, g, db1, id, keyId, dek, nonce);
            if keyId in db.keys then r == Failure(IntegrityError)
            else
              var key := EncryptionKey(id, CreateWrappedDek(s, dek, nonce), 1, true);
              r == Success(db1.(keys := db.keys[keyId := key]))
  {
    hide CreateWrappedDek, UniqueEmails, UniqueSlugs, MembershipConstraints, ProjectConstraints, SecretConstraints;
    hide VersionConstraints;
  }

  lemma UnenforcedEnvironment(s: Suite, db: Db, call: Call)
    requires Constraints(db) && call.op.CreateEnvironment?
    ensures var (org, actor, op) := (call.org, call.actor, call.op);
            var outcome := Services.CreateEnvironment(s, In(false, actor, org), db, org, actor, op.project, op.envName,
                                                      op.envId, op.keyId, op.dek, op.nonce);
            var (after, r) := Settle(db, outcome);
            EnvironmentAnswers(s, db, call, after, r)
  {
    hide Constraints, HasRole, RoleError, EnvironmentNameTaken, EnvironmentsByName, Services.RequireOrgRole;
    hide Services.CommitEnvironmentKey, CreateWrappedDek;
    var (g, org, actor, op) := (In(false, call.actor, call.org), call.org, call.actor, call.op);
    Vault.RoleMeans(db, g, org, actor, Member);
    NamesSeen(db, g, op.project, op.envName);
    if op.envId !in db.environments {
      FirstKeyInserts(s, db, g, op.envId, Environment(op.project, op.envName), op.keyId, op.dek, op.nonce);
    }
  }

  lemma CreateEnvironmentAnswers(s: Suite, enforced: bool, db: Db, call: Call)
    requires Constraints(db) && call.op.CreateEnvironment?
    ensures var (after, r) := Step(s, enforced, db, call); EnvironmentAnswers(s, db, call, after, r)
  {
    hide Services.CreateEnvironment, Constraints, EnvironmentAnswers;
    var (org, actor, op) := (call.org, call.actor, call.op);
    UnenforcedEnvironment(s, db, call);
    CreateEnvironmentAgrees(s, db, org, actor, op.project, op.envName, op.envId, op.keyId, op.dek, op.nonce);
  }

  // -- create an organization ------------------------------------------------

  /** Every collision, and an unknown user, is reported as a taken slug. */
  ghost predicate OrganizationAnswers(db: Db, call: Call, after: Db, r: Response)
    requires call.op.CreateOrganization?
  {
    var op := call.op;
    if OrgSlugTaken(db, op.orgSlug, None) || call.actor !in db.users
       || op.orgId in db.orgs || op.ownerId in db.memberships
    then after == db && r == Failure(OrganizationAlreadyExists)
    else
      && r == Success(Services.Created(op.orgId))
      && after == db.(orgs := db.orgs[op.orgId := Organization(op.orgName, op.orgSlug)],
                      memberships := db.memberships[op.ownerId := Membership(call.actor, op.orgId, Owner)])
  }

  lemma UnenforcedOrganization(db: Db, call: Call)
    requires Constraints(db) && call.op.CreateOrganization?
    ensures var op := call.op;
            var g := Gate(false, Some(call.actor), None);
            var outcome := Services.CreateOrganization(g, db, op.orgName, op.orgSlug, call.actor, op.orgId, op.ownerId);
            var (after, r) := Settle(db, outcome);
            OrganizationAnswers(db, call, after, r)
  {
    hide Constraints, OrgSlugTaken, OrganizationsBySlug, CurrentPointersValid, Services.CreateOrganizationWithOwner;
    var (g, op) := (Gate(false, Some(call.actor), None), call.op);
    SlugsSeen(db, g, op.orgSlug);
    Bootstrap(db, g, op.orgName, op.orgSlug, call.actor, op.orgId, op.ownerId);
    PointersHold(db);
  }

  lemma SlugsSeen(db: Db, g: Gate, slug: string)
    requires !g.enforced
    ensures Pick(OrganizationsBySlug(db, g, slug)).Some? <==> OrgSlugTaken(db, slug, None)
  {
    if OrgSlugTaken(db, slug, None) {
      var i :| i in db.orgs && db.orgs[i].slug == slug;
      assert i in OrganizationsBySlug(db, g, slug);
    }
  }

  /** The SQL function from any context: it serves its own user only, whatever the policies say, and
      reports everything else that is wrong as a constraint violation. */
  lemma Bootstrap(db: Db, g: Gate, name: string, slug: string, user: Id, id: Id, membershipId: Id)
    requires Constraints(db)
    ensures var r := Services.CreateOrganizationWithOwner(g, db, name, slug, user, id, membershipId);
            if g.user != Some(user) then r == Failure(PolicyViolation)
            else if OrgSlugTaken(db, slug, None) || user !in db.users || id in db.orgs || membershipId in db.memberships
            then r == Failure(IntegrityError)
            else r == Success(db.(orgs := db.orgs[id := Organization(name, slug)],
                                  memberships := db.memberships[membershipId := Membership(user, id, Owner)]))
  {
    hide OrgSlugTaken, UniqueEmails, UniqueSlugs, ProjectConstraints, EnvironmentConstraints, KeyConstraints;
    hide SecretConstraints, VersionConstraints, CurrentPointersValid;
  }

  lemma CreateOrganizationAnswers(s: Suite, enforced: bool, db: Db, call: Call)
    requires Constraints(db) && call.op.CreateOrganization?
    ensures var (after, r) := Step(s, enforced, db, call); OrganizationAnswers(db, call, after, r)
  {
    hide Services.CreateOrganization, Constraints, OrganizationAnswers;
    var op := call.op;
    UnenforcedOrganization(db, call);
    CreateOrganizationAgrees(db, op.orgName, op.orgSlug, call.actor, op.orgId, op.ownerId);
  }

  // -- create a project ------------------------------------------------------

  /** Another project of the organization has the slug. */
  ghost predicate SlugInUse(db: Db, org: Id, slug: string, except: Option<Id>) {
    exists i :: i in db.projects && db.projects[i].org == org && db.projects[i].slug == slug && Some(i) != except
  }

  ghost predicate ProjectAnswers(db: Db, call: Call, after: Db, r: Response)
    requires call.op.CreateProject?
  {
    var op := call.op;
    if !HasRole(db, call.actor, call.org, Member) then
      after == db && r == Failure(RoleError(db, call.actor, call.org))
    else if SlugInUse(db, call.org, op.projectSlug, None) || op.projectId in db.projects then
      after == db && r == Failure(ProjectAlreadyExists)
    else
      && r == Success(Services.Created(op.projectId))
      && var row := Project(call.org, op.projectName, op.projectSlug, op.description);
         after == db.(projects := db.projects[op.projectId := row])
  }

  lemma ProjectSlugsSeen(db: Db, g: Gate, org: Id, slug: string)
    requires !g.enforced
    ensures Pick(ProjectsBySlug(db, g, org, slug)).Some? <==> SlugInUse(db, org, slug, None)
    ensures ProjectSlugTaken(db, org, slug, None) <==> SlugInUse(db, org, slug, None)
  {
    if SlugInUse(db, org, slug, None) {
      var i :| i in db.projects && db.projects[i].org == org && db.projects[i].slug == slug;
      assert i in ProjectsBySlug(db, g, org, slug);
    }
  }

  lemma UnenforcedProject(db: Db, call: Call)
    requires Constraints(db) && call.op.CreateProject?
    ensures var (org, actor, op) := (call.org, call.actor, call.op);
            var outcome := Services.CreateProject(In(false, actor, org), db, org, actor, op.projectName, op.projectSlug,
                                                  op.description, op.projectId);
            var (after, r) := Settle(db, outcome);
            ProjectAnswers(db, call, after, r)
  {
    hide Constraints, HasRole, RoleError, SlugInUse, ProjectSlugTaken, ProjectsBySlug, Services.RequireOrgRole;
    hide CurrentPointersValid;
    var (g, org, actor, op) := (In(false, call.actor, call.org), call.org, call.actor, call.op);
    Vault.RoleMeans(db, g, org, actor, Member);
    if HasRole(db, actor, org, Member) {
      Vault.RoleHolderIsKnown(db, actor, org, Member);
    }
    ProjectSlugsSeen(db, g, org, op.projectSlug);
    PointersHold(db);
  }

  lemma CreateProjectAnswers(s: Suite, enforced: bool, db: Db, call: Call)
    requires Constraints(db) && call.op.CreateProject?
    ensures var (after, r) := Step(s, enforced, db, call); ProjectAnswers(db, call, after, r)
  {
    hide Services.CreateProject, Constraints, ProjectAnswers, Step;
    var (org, actor, op) := (call.org, call.actor, call.op);
    ProjectStep(s, enforced, db, call);
    UnenforcedProject(db, call);
    CreateProjectAgrees(db, org, actor, op.projectName, op.projectSlug, op.description, op.projectId);
  }

  // -- register --------------------------------------------------------------

  ghost predicate EmailInUse(db: Db, email: string) {
    exists i :: i in db.users && db.users[i].email == email
  }

  ghost predicate RegisterAnswers(db: Db, call: Call, after: Db, r: Response)
    requires call.op.Register?
  {
    var op := call.op;
    if EmailInUse(db, op.email) || op.userId in db.users then after == db && r == Failure(EmailAlreadyRegistered)
    else
      && r == Success(Services.Created(op.userId))
      && after == db.(users := db.users[op.userId := User(op.email, Some(Argon2(op.password)), true)])
  }

  lemma EmailsSeen(db: Db, email: string)
    ensures UsersByEmail(db.users, email) != {} <==> EmailInUse(db, email)
  {
    if EmailInUse(db, email) {
      var i :| i in db.users && db.users[i].email == email;
      assert i in UsersByEmail(db.users, email);
    }
    if UsersByEmail(db.users, email) != {} {
      var i :| i in UsersByEmail(db.users, email);
      assert i in db.users;
    }
  }

  /** Registration: an active account with the password's hash, or a conflict on the email. */
  lemma RegistersExactly(s: Suite, enforced: bool, db: Db, call: Call)
    requires Constraints(db) && call.op.Register?
    ensures var (after, r) := Step(s, enforced, db, call); RegisterAnswers(db, call, after, r)
  {
    hide Constraints, CurrentPointersValid, Step, UsersByEmail, EmailInUse;
    AccountStep(s, enforced, db, call);
    EmailsSeen(db, call.op.email);
    PointersHold(db);
  }
}
