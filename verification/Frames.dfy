/** Which tables a call can write. */
module Frames {
  import opened Prelude
  import opened Envelope
  import opened Schema
  import opened Policies
  import opened Repositories
  import Services
  import opened Calls
  import opened Effects

  /** Each table is written by the calls named here and by no other. */
  ghost predicate Framed(db: Db, db': Db, op: Op) {
    && (!op.Register? ==> db'.users == db.users)
    && (!op.CreateOrganization? && !op.UpdateOrganization? ==> db'.orgs == db.orgs)
    && (!op.CreateOrganization? && !op.Invite? && !op.UpdateRole? && !op.Remove? ==> db'.memberships == db.memberships)
    && (!op.CreateProject? && !op.UpdateProject? ==> db'.projects == db.projects)
    && (!op.CreateEnvironment? ==> db'.environments == db.environments)
    && (!op.CreateEnvironment? && !op.SwitchActiveKey? ==> db'.keys == db.keys)
    && (!op.CreateSecret? && !op.AddNewVersion? && !op.DeleteSecret? ==> db'.secrets == db.secrets)
    && (!op.CreateSecret? && !op.AddNewVersion? ==> db'.versions == db.versions)
    && (!op.Reveal? ==> db'.audit == db.audit)
  }

  ghost predicate FramedOutcome(db: Db, outcome: Outcome, op: Op) {
    outcome.Success? ==> Framed(db, outcome.value.0, op)
  }

  lemma SecretFrame(s: Suite, g: Gate, db: Db, org: Id, actor: Id, op: Op)
    requires OnSecrets(op)
    ensures FramedOutcome(db, SecretOutcome(s, g, db, org, actor, op), op)
  {
    hide Services.CreateSecret, Services.AddNewVersion, Services.GetDecryptedValue, Services.DeleteSecret;
    match op
    case CreateSecret(env, name, plain, iv, id, versionId) =>
      if Services.CreateSecret(s, g, db, org, actor, env, name, plain, iv, id, versionId).Success? {
        var _, _ := CreateSecretEffect(s, g, db, org, actor, env, name, plain, iv, id, versionId);
      }
    case AddNewVersion(secret, plain, iv, versionId) =>
      if Services.AddNewVersion(s, g, db, org, actor, secret, plain, iv, versionId).Success? {
        AddNewVersionEffect(s, g, db, org, actor, secret, plain, iv, versionId);
      }
    case Reveal(secret) =>
      if Services.GetDecryptedValue(s, g, db, org, actor, secret).Success? {
        GetDecryptedValueEffect(s, g, db, org, actor, secret);
      }
    case DeleteSecret(secret) =>
      if Services.DeleteSecret(g, db, org, actor, secret).Success? { DeleteSecretEffect(g, db, org, actor, secret); }
    case _ =>
  }

  lemma EnvironmentFrame(s: Suite, g: Gate, db: Db, org: Id, actor: Id, op: Op)
    requires OnEnvironments(op)
    ensures FramedOutcome(db, EnvironmentOutcome(s, g, db, org, actor, op), op)
  {
    hide Services.CreateEnvironment, Services.SwitchActiveKey;
    match op
    case CreateEnvironment(project, name, id, keyId, dek, nonce) =>
      if Services.CreateEnvironment(s, g, db, org, actor, project, name, id, keyId, dek, nonce).Success? {
        CreateEnvironmentEffect(s, g, db, org, actor, project, name, id, keyId, dek, nonce);
      }
    case SwitchActiveKey(env, keyId, keyVersion, dek, nonce) =>
      if Services.SwitchActiveKey(s, db, env, keyId, keyVersion, dek, nonce).Success? {
        SwitchActiveKeyEffect(s, db, env, keyId, keyVersion, dek, nonce);
      }
    case _ =>
  }

  lemma ProjectFrame(g: Gate, db: Db, org: Id, actor: Id, op: Op)
    requires OnProjects(op)
    ensures FramedOutcome(db, ProjectOutcome(g, db, org, actor, op), op)
  {
    hide Services.CreateProject, Services.UpdateProject;
    match op
    case CreateProject(name, slug, description, id) =>
      if Services.CreateProject(g, db, org, actor, name, slug, description, id).Success? {
        ProjectEffect(g, db, org, actor, name, slug, description, id);
      }
    case UpdateProject(project, name, slug, description) =>
      if Services.UpdateProject(g, db, org, actor, project, name, slug, description).Success? {
        UpdateProjectEffect(g, db, org, actor, project, name, slug, description);
      }
    case _ =>
  }

  lemma MemberFrame(g: Gate, db: Db, org: Id, actor: Id, op: Op)
    requires OnMembers(op)
    ensures FramedOutcome(db, MemberOutcome(g, db, org, actor, op), op)
  {
    hide Services.Invite, Services.UpdateRole, Services.Remove;
    match op
    case Invite(email, role, id) =>
      if Services.Invite(g, db, org, actor, email, role, id).Success? {
        var _ := InviteEffect(g, db, org, actor, email, role, id);
      }
    case UpdateRole(membership, role) =>
      if Services.UpdateRole(g, db, org, actor, membership, role).Success? {
        UpdateRoleEffect(g, db, org, actor, membership, role);
      }
    case Remove(membership) =>
      if Services.Remove(g, db, org, actor, membership).Success? { RemoveEffect(g, db, org, actor, membership); }
    case _ =>
  }

  lemma AccountFrame(g: Gate, db: Db, org: Id, actor: Id, op: Op)
    requires op.Register? || op.CreateOrganization? || op.UpdateOrganization?
    ensures FramedOutcome(db, AccountOutcome(g, db, org, actor, op), op)
  {
    hide Services.Register, Services.CreateOrganization, Services.UpdateOrganization;
    match op
    case Register(email, password, id) =>
      if Services.Register(db, email, password, id).Success? { RegisterEffect(db, email, password, id); }
    case CreateOrganization(name, slug, id, ownerId) =>
      if Services.CreateOrganization(g, db, name, slug, actor, id, ownerId).Success? {
        CreateOrganizationEffect(g, db, name, slug, actor, id, ownerId);
      }
    case UpdateOrganization(name, slug) =>
      if Services.UpdateOrganization(g, db, org, actor, name, slug).Success? {
        UpdateOrganizationEffect(g, db, org, actor, name, slug);
      }
  }

  lemma FramedItself(db: Db, op: Op)
    ensures Framed(db, db, op)
  {
  }

  lemma Frame(s: Suite, enforced: bool, db: Db, call: Call)
    ensures Framed(db, Step(s, enforced, db, call).0, call.op)
  {
    FramedItself(db, call.op);
    hide SecretOutcome, EnvironmentOutcome, ProjectOutcome, MemberOutcome, AccountOutcome, Framed;
    var (g, org, actor, op) := (ContextOf(enforced, call), call.org, call.actor, call.op);
    if OnSecrets(op) {
      SecretFrame(s, g, db, org, actor, op);
    } else if OnEnvironments(op) {
      EnvironmentFrame(s, g, db, org, actor, op);
    } else if OnProjects(op) {
      ProjectFrame(g, db, org, actor, op);
    } else if OnMembers(op) {
      MemberFrame(g, db, org, actor, op);
    } else {
      AccountFrame(g, db, org, actor, op);
    }
  }
}
