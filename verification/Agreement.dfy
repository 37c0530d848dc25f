/**
 The services repeat by hand what the policies enforce. Here the two layers are shown to
 agree: with the context a router sets, a call gives the same answer and the same new
 state with policies enforced as without, except for an admin's removal of itself.
 */
module Agreement {
  import opened Prelude
  import opened Envelope
  import opened Schema
  import opened Policies
  import opened Repositories
  import opened Services
  import opened Reachable
  import C = Calls

  /** The organization context of a router's unit of work. */
  function In(enforced: bool, actor: Id, org: Id): Gate {
    Gate(enforced, Some(actor), Some(org))
  }

  // -- What a member sees ----------------------------------------------------

  /** Enforced, a member sees exactly the rows of its organization; not enforced, all rows. */
  ghost predicate MemberSees(db: Db, actor: Id, org: Id) {
    && (forall m :: MembershipSelect(db, In(true, actor, org), m) <==> m.user == actor || m.org == org)
    && (forall p :: ProjectPolicy(db, In(true, actor, org), p) <==> p.org == org)
    && (forall e :: EnvironmentPolicy(db, In(true, actor, org), e) <==> ProjectIn(db, e.project, org))
    && (forall s :: SecretPolicy(db, In(true, actor, org), s) <==> EnvironmentIn(db, s.env, org))
    && (forall k :: KeyPolicy(db, In(true, actor, org), k) <==> EnvironmentIn(db, k.env, org))
    && (forall v :: VersionPolicy(db, In(true, actor, org), v) <==> SecretIn(db, v.secret, org))
    && (forall a :: AuditPolicy(db, In(true, actor, org), a) <==> a.org == org)
    && (forall m :: MembershipSelect(db, In(false, actor, org), m))
    && (forall p :: ProjectPolicy(db, In(false, actor, org), p))
    && (forall e :: EnvironmentPolicy(db, In(false, actor, org), e))
    && (forall s :: SecretPolicy(db, In(false, actor, org), s))
    && (forall k :: KeyPolicy(db, In(false, actor, org), k))
    && (forall v :: VersionPolicy(db, In(false, actor, org), v))
    && (forall a :: AuditPolicy(db, In(false, actor, org), a))
  }

  /** It holds of every state with the memberships of one where the actor is a member. */
  lemma MemberView(db: Db, later: Db, actor: Id, org: Id)
    requires IsMember(db, actor, org) && later.memberships == db.memberships
    ensures MemberSees(later, actor, org)
  {
    var g := In(true, actor, org);
    assert IsMember(later, actor, org);
    BelongsClosedForm(later, g);
    forall m ensures MembershipSelect(later, g, m) <==> m.user == actor || m.org == org {
      MembershipSelectClosedForm(later, g, m);
    }
  }

  lemma SameMember(db: Db, later: Db, actor: Id, org: Id)
    requires IsMember(db, actor, org) && later.memberships == db.memberships
    ensures IsMember(later, actor, org)
  {
  }

  lemma RoleAgrees(db: Db, actor: Id, org: Id, minimum: Role)
    ensures RequireOrgRole(db, In(true, actor, org), org, actor, minimum)
         == RequireOrgRole(db, In(false, actor, org), org, actor, minimum)
    ensures RequireOrgRole(db, In(true, actor, org), org, actor, minimum).Success? ==> IsMember(db, actor, org)
  {
    var a := MembershipsOf(db, In(true, actor, org), actor, org);
    var b := MembershipsOf(db, In(false, actor, org), actor, org);
    assert a == b;
  }

  /** The same outcome, but for one error: where the service finds a secret and then that its
      environment belongs elsewhere, policies hide the secret itself. */
  predicate SameReply(a: Outcome, b: Outcome) {
    a == b || (a == Failure(SecretNotFound) && b == Failure(EnvironmentNotFound))
  }

  // -- Secrets ---------------------------------------------------------------

  lemma InsertSecretAgrees(db: Db, actor: Id, org: Id, id: Id, row: Secret)
    requires MemberSees(db, actor, org) && EnvironmentIn(db, row.env, org)
    ensures InsertSecret(db, In(true, actor, org), id, row)
         == InsertSecret(db, In(false, actor, org), id, row)
  {
    hide MembershipSelect, ProjectPolicy, EnvironmentPolicy, SecretPolicy, KeyPolicy, VersionPolicy, AuditPolicy;
    hide IsMember;
  }

  lemma FinishVersionAgrees(db: Db, actor: Id, org: Id, versionId: Id, row: SecretVersion)
    requires IsMember(db, actor, org) && SecretIn(db, row.secret, org)
    ensures FinishVersion(In(true, actor, org), db, versionId, row)
         == FinishVersion(In(false, actor, org), db, versionId, row)
  {
    hide MembershipSelect, ProjectPolicy, EnvironmentPolicy, SecretPolicy, KeyPolicy, VersionPolicy;
    hide CurrentPointersValid, AuditPolicy, IsMember;
    MemberView(db, db, actor, org);
    MemberView(db, db.(versions := db.versions[versionId := row]), actor, org);
  }

  lemma CreateSecretAgrees(s: Suite, db: Db, org: Id, actor: Id, env: Id, name: string, plain: string,
                           iv: Nonce, id: Id, versionId: Id)
    ensures CreateSecret(s, In(true, actor, org), db, org, actor, env, name, plain, iv, id, versionId)
         == CreateSecret(s, In(false, actor, org), db, org, actor, env, name, plain, iv, id, versionId)
  {
    hide MembershipSelect, ProjectPolicy, EnvironmentPolicy, SecretPolicy, KeyPolicy, VersionPolicy, AuditPolicy;
    hide IsMember;
    var g, h := In(true, actor, org), In(false, actor, org);
    RoleAgrees(db, actor, org, Member);
    if RequireOrgRole(db, g, org, actor, Member).Success? {
      MemberView(db, db, actor, org);
      if EnvironmentIn(db, env, org) {
        assert LiveSecretsByName(db, g, env, name) == LiveSecretsByName(db, h, env, name);
        assert ActiveKeys(db, g, env) == ActiveKeys(db, h, env);
        var row := Secret(env, name, None, false);
        InsertSecretAgrees(db, actor, org, id, row);
        var key := Pick(ActiveKeys(db, h, env));
        if key.Some? && Encrypted(s, plain, iv, db.keys[key.value].wrapped).Success? {
          var value := Encrypted(s, plain, iv, db.keys[key.value].wrapped).value;
          SameMember(db, db.(secrets := db.secrets[id := row]), actor, org);
          FinishVersionAgrees(db.(secrets := db.secrets[id := row]), actor, org, versionId,
                              SecretVersion(id, key.value, value, iv, 1, actor));
        }
      }
    }
  }

  lemma GetOwnedSecretAgrees(db: Db, actor: Id, org: Id, secret: Id)
    requires MemberSees(db, actor, org)
    ensures var (r, q) := (GetOwnedSecret(db, In(true, actor, org), secret, org),
                           GetOwnedSecret(db, In(false, actor, org), secret, org));
            || (r == q && (r.Success? ==> SecretIn(db, secret, org) && r.value == db.secrets[secret]))
            || (r == Failure(SecretNotFound) && q == Failure(EnvironmentNotFound))
  {
    hide MembershipSelect, ProjectPolicy, EnvironmentPolicy, SecretPolicy, KeyPolicy, VersionPolicy, AuditPolicy;
    hide IsMember;
  }

  lemma PrepareVersionAgrees(s: Suite, db: Db, org: Id, actor: Id, secret: Id, plain: string, iv: Nonce)
    ensures var r, q := PrepareVersion(s, In(true, actor, org), db, org, actor, secret, plain, iv),
                        PrepareVersion(s, In(false, actor, org), db, org, actor, secret, plain, iv);
            || (r == q && (r.Success? ==> IsMember(db, actor, org) && SecretIn(db, r.value.secret, org)))
            || (r == Failure(SecretNotFound) && q == Failure(EnvironmentNotFound))
  {
    hide MembershipSelect, ProjectPolicy, EnvironmentPolicy, SecretPolicy, KeyPolicy, VersionPolicy, AuditPolicy;
    hide IsMember;
    var g, h := In(true, actor, org), In(false, actor, org);
    RoleAgrees(db, actor, org, Member);
    if RequireOrgRole(db, g, org, actor, Member).Success? {
      MemberView(db, db, actor, org);
      GetOwnedSecretAgrees(db, actor, org, secret);
      if SecretIn(db, secret, org) {
        assert ActiveKeys(db, g, db.secrets[secret].env) == ActiveKeys(db, h, db.secrets[secret].env);
        assert VersionsOf(db, g, secret) == VersionsOf(db, h, secret);
        assert LatestVersions(db, g, secret) == LatestVersions(db, h, secret);
      }
    }
  }

  lemma AddNewVersionAgrees(s: Suite, db: Db, org: Id, actor: Id, secret: Id, plain: string, iv: Nonce, versionId: Id)
    ensures SameReply(AddNewVersion(s, In(true, actor, org), db, org, actor, secret, plain, iv, versionId),
                      AddNewVersion(s, In(false, actor, org), db, org, actor, secret, plain, iv, versionId))
  {
    hide PrepareVersion, FinishVersion, IsMember;
    PrepareVersionAgrees(s, db, org, actor, secret, plain, iv);
    var row := PrepareVersion(s, In(true, actor, org), db, org, actor, secret, plain, iv);
    if row.Success? {
      FinishVersionAgrees(db, actor, org, versionId, row.value);
    }
  }

  lemma ListSecretsAgrees(db: Db, org: Id, actor: Id, env: Id)
    ensures ListSecrets(In(true, actor, org), db, org, actor, env)
         == ListSecrets(In(false, actor, org), db, org, actor, env)
  {
    hide MembershipSelect, ProjectPolicy, EnvironmentPolicy, SecretPolicy, KeyPolicy, VersionPolicy, AuditPolicy;
    hide IsMember;
    var g, h := In(true, actor, org), In(false, actor, org);
    RoleAgrees(db, actor, org, Viewer);
    if RequireOrgRole(db, g, org, actor, Viewer).Success? {
      MemberView(db, db, actor, org);
      if EnvironmentIn(db, env, org) {
        assert LiveSecrets(db, g, env) == LiveSecrets(db, h, env);
      }
    }
  }

  /** The current version of a secret, and the key it was written under, belong with the secret. */
  ghost predicate SecretPointsHome(db: Db, secret: Id) {
    secret in db.secrets && db.secrets[secret].current.Some? ==>
      var vid := db.secrets[secret].current.value;
      && vid in db.versions && db.versions[vid].secret == secret && db.versions[vid].key in db.keys
      && db.keys[db.versions[vid].key].env == db.secrets[secret].env
  }

  lemma WellFormedPointsHome(db: Db, secret: Id)
    requires WellFormed(db)
    ensures SecretPointsHome(db, secret)
  {
  }

  lemma GetDecryptedValueAgrees(s: Suite, db: Db, org: Id, actor: Id, secret: Id)
    requires SecretPointsHome(db, secret)
    ensures SameReply(GetDecryptedValue(s, In(true, actor, org), db, org, actor, secret),
                      GetDecryptedValue(s, In(false, actor, org), db, org, actor, secret))
  {
    hide MembershipSelect, ProjectPolicy, EnvironmentPolicy, SecretPolicy, KeyPolicy, VersionPolicy, AuditPolicy;
    hide IsMember, Constraints, KeysFollowSecrets, CurrentPointersValid;
    var g, h := In(true, actor, org), In(false, actor, org);
    RoleAgrees(db, actor, org, Member);
    if RequireOrgRole(db, g, org, actor, Member).Success? {
      MemberView(db, db, actor, org);
      GetOwnedSecretAgrees(db, actor, org, secret);
    }
  }

  lemma DeleteSecretAgrees(db: Db, org: Id, actor: Id, secret: Id)
    ensures SameReply(DeleteSecret(In(true, actor, org), db, org, actor, secret),
                      DeleteSecret(In(false, actor, org), db, org, actor, secret))
  {
    hide MembershipSelect, ProjectPolicy, EnvironmentPolicy, SecretPolicy, KeyPolicy, VersionPolicy, AuditPolicy;
    hide IsMember, CurrentPointersValid;
    var g, h := In(true, actor, org), In(false, actor, org);
    RoleAgrees(db, actor, org, Member);
    if RequireOrgRole(db, g, org, actor, Member).Success? {
      MemberView(db, db, actor, org);
      GetOwnedSecretAgrees(db, actor, org, secret);
    }
  }

  // -- Environments and projects ---------------------------------------------

  lemma InsertEnvironmentAgrees(s: Suite, db: Db, actor: Id, org: Id, id: Id, row: Environment, keyId: Id, dek: Key,
                                nonce: Nonce)
    requires IsMember(db, actor, org) && ProjectIn(db, row.project, org)
    ensures InsertEnvironment(db, In(true, actor, org), id, row)
         == InsertEnvironment(db, In(false, actor, org), id, row)
    ensures var db1 := InsertEnvironment(db, In(true, actor, org), id, row);
            db1.Success? ==>
              (CommitEnvironmentKey(s, In(true, actor, org), db1.value, id, keyId, dek, nonce)
               == CommitEnvironmentKey(s, In(false, actor, org), db1.value, id, keyId, dek, nonce))
  {
    hide MembershipSelect, ProjectPolicy, EnvironmentPolicy, SecretPolicy, KeyPolicy, VersionPolicy, AuditPolicy;
    hide IsMember, CurrentPointersValid;
    MemberView(db, db, actor, org);
    MemberView(db, db.(environments := db.environments[id := row]), actor, org);
  }

  lemma CreateEnvironmentAgrees(s: Suite, db: Db, org: Id, actor: Id, project: Id, name: string, id: Id, keyId: Id,
                                dek: Key, nonce: Nonce)
    ensures CreateEnvironment(s, In(true, actor, org), db, org, actor, project, name, id, keyId, dek, nonce)
         == CreateEnvironment(s, In(false, actor, org), db, org, actor, project, name, id, keyId, dek, nonce)
  {
    hide InsertEnvironment, CommitEnvironmentKey, MembershipSelect, ProjectPolicy, EnvironmentPolicy, SecretPolicy;
    hide KeyPolicy, VersionPolicy, AuditPolicy, IsMember;
    var g, h := In(true, actor, org), In(false, actor, org);
    RoleAgrees(db, actor, org, Member);
    if RequireOrgRole(db, g, org, actor, Member).Success? {
      MemberView(db, db, actor, org);
      if ProjectIn(db, project, org) {
        assert EnvironmentsByName(db, g, project, name) == EnvironmentsByName(db, h, project, name);
        InsertEnvironmentAgrees(s, db, actor, org, id, Environment(project, name), keyId, dek, nonce);
      }
    }
  }

  lemma ListEnvironmentsAgrees(db: Db, org: Id, actor: Id, project: Id)
    ensures ListEnvironments(In(true, actor, org), db, org, actor, project)
         == ListEnvironments(In(false, actor, org), db, org, actor, project)
  {
    hide MembershipSelect, ProjectPolicy, EnvironmentPolicy, SecretPolicy, KeyPolicy, VersionPolicy, AuditPolicy;
    hide IsMember;
    var g, h := In(true, actor, org), In(false, actor, org);
    RoleAgrees(db, actor, org, Viewer);
    if RequireOrgRole(db, g, org, actor, Viewer).Success? {
      MemberView(db, db, actor, org);
      if ProjectIn(db, project, org) {
        assert EnvironmentsByProject(db, g, project) == EnvironmentsByProject(db, h, project);
      }
    }
  }

  lemma GetEnvironmentForAgrees(db: Db, org: Id, actor: Id, env: Id)
    ensures GetEnvironmentFor(In(true, actor, org), db, org, actor, env)
         == GetEnvironmentFor(In(false, actor, org), db, org, actor, env)
  {
    hide MembershipSelect, ProjectPolicy, EnvironmentPolicy, SecretPolicy, KeyPolicy, VersionPolicy, AuditPolicy;
    hide IsMember;
    var g, h := In(true, actor, org), In(false, actor, org);
    RoleAgrees(db, actor, org, Viewer);
    if RequireOrgRole(db, g, org, actor, Viewer).Success? {
      MemberView(db, db, actor, org);
    }
  }

  lemma CreateProjectAgrees(db: Db, org: Id, actor: Id, name: string, slug: string, description: Option<string>, id: Id)
    ensures CreateProject(In(true, actor, org), db, org, actor, name, slug, description, id)
         == CreateProject(In(false, actor, org), db, org, actor, name, slug, description, id)
  {
    hide MembershipSelect, ProjectPolicy, EnvironmentPolicy, SecretPolicy, KeyPolicy, VersionPolicy, AuditPolicy;
    hide IsMember;
    var g, h := In(true, actor, org), In(false, actor, org);
    RoleAgrees(db, actor, org, Member);
    if RequireOrgRole(db, g, org, actor, Member).Success? {
      MemberView(db, db, actor, org);
      assert ProjectsBySlug(db, g, org, slug) == ProjectsBySlug(db, h, org, slug);
    }
  }

  lemma ListProjectsAgrees(db: Db, org: Id, actor: Id)
    ensures ListProjects(In(true, actor, org), db, org, actor)
         == ListProjects(In(false, actor, org), db, org, actor)
  {
    hide MembershipSelect, ProjectPolicy, EnvironmentPolicy, SecretPolicy, KeyPolicy, VersionPolicy, AuditPolicy;
    hide IsMember;
    var g, h := In(true, actor, org), In(false, actor, org);
    RoleAgrees(db, actor, org, Viewer);
    if RequireOrgRole(db, g, org, actor, Viewer).Success? {
      MemberView(db, db, actor, org);
      assert ProjectsByOrganization(db, g, org) == ProjectsByOrganization(db, h, org);
    }
  }

  lemma GetProjectForAgrees(db: Db, org: Id, actor: Id, project: Id)
    ensures GetProjectFor(In(true, actor, org), db, org, actor, project)
         == GetProjectFor(In(false, actor, org), db, org, actor, project)
  {
    hide MembershipSelect, ProjectPolicy, EnvironmentPolicy, SecretPolicy, KeyPolicy, VersionPolicy, AuditPolicy;
    hide IsMember;
    var g, h := In(true, actor, org), In(false, actor, org);
    RoleAgrees(db, actor, org, Viewer);
    if RequireOrgRole(db, g, org, actor, Viewer).Success? {
      MemberView(db, db, actor, org);
    }
  }

  lemma UpdateProjectAgrees(db: Db, org: Id, actor: Id, project: Id, name: Option<string>, slug: Option<string>,
                            description: Option<string>)
    ensures UpdateProject(In(true, actor, org), db, org, actor, project, name, slug, description)
         == UpdateProject(In(false, actor, org), db, org, actor, project, name, slug, description)
  {
    hide MembershipSelect, ProjectPolicy, EnvironmentPolicy, SecretPolicy, KeyPolicy, VersionPolicy, AuditPolicy;
    hide IsMember;
    var g, h := In(true, actor, org), In(false, actor, org);
    RoleAgrees(db, actor, org, Member);
    if RequireOrgRole(db, g, org, actor, Member).Success? {
      MemberView(db, db, actor, org);
      GetProjectForAgrees(db, org, actor, project);
      if slug.Some? {
        assert ProjectsBySlug(db, g, org, slug.value) == ProjectsBySlug(db, h, org, slug.value);
      }
    }
  }

  // -- Memberships and organizations -----------------------------------------

  /** What the role policies ask of an actor that passed the service's own check. */
  lemma ActorRoles(db: Db, actor: Id, org: Id, roles: set<Role>)
    requires Constraints(db) && RequireOrgRole(db, In(false, actor, org), org, actor, Viewer).Success?
    ensures ActorHasRole(db, In(true, actor, org), org, roles)
       <==> RequireOrgRole(db, In(false, actor, org), org, actor, Viewer).value.role in roles
  {
    var i := Pick(MembershipsOf(db, In(false, actor, org), actor, org)).value;
    assert MembershipSelect(db, In(true, actor, org), db.memberships[i]);
  }

  lemma ActorRow(db: Db, actor: Id, org: Id, membership: Id)
    requires Constraints(db) && membership in db.memberships
    requires db.memberships[membership].user == actor && db.memberships[membership].org == org
    ensures Pick(MembershipsOf(db, In(false, actor, org), actor, org)) == Some(membership)
  {
    assert membership in MembershipsOf(db, In(false, actor, org), actor, org);
  }

  lemma ListMembersAgrees(db: Db, org: Id, actor: Id)
    ensures ListMembers(In(true, actor, org), db, org, actor)
         == ListMembers(In(false, actor, org), db, org, actor)
  {
    hide MembershipSelect, ProjectPolicy, EnvironmentPolicy, SecretPolicy, KeyPolicy, VersionPolicy, AuditPolicy;
    hide IsMember;
    var g, h := In(true, actor, org), In(false, actor, org);
    RoleAgrees(db, actor, org, Viewer);
    if RequireOrgRole(db, g, org, actor, Viewer).Success? {
      MemberView(db, db, actor, org);
      assert MembershipsByOrganization(db, g, org) == MembershipsByOrganization(db, h, org);
    }
  }

  lemma InviteAgrees(db: Db, org: Id, actor: Id, email: string, role: string, id: Id)
    requires Constraints(db)
    ensures Invite(In(true, actor, org), db, org, actor, email, role, id)
         == Invite(In(false, actor, org), db, org, actor, email, role, id)
  {
    hide MembershipSelect, ProjectPolicy, EnvironmentPolicy, SecretPolicy, KeyPolicy, VersionPolicy, AuditPolicy;
    hide IsMember, ActorHasRole, Constraints;
    var g, h := In(true, actor, org), In(false, actor, org);
    RoleAgrees(db, actor, org, Admin);
    if RequireOrgRole(db, g, org, actor, Admin).Success? {
      MemberView(db, db, actor, org);
      ActorRoles(db, actor, org, {Owner, Admin});
      ActorRoles(db, actor, org, {Owner});
      var user := Pick(UsersByEmail(db.users, email));
      if user.Some? {
        assert MembershipsOf(db, g, user.value, org) == MembershipsOf(db, h, user.value, org);
      }
    }
  }

  lemma MemberRowsAgree(db: Db, actor: Id, org: Id, membership: Id)
    requires IsMember(db, actor, org)
    ensures CountOwners(db, In(true, actor, org), org) == CountOwners(db, In(false, actor, org), org)
    ensures || (membership in db.memberships && db.memberships[membership].org != org)
            || (GetMembership(db, In(true, actor, org), membership)
                == GetMembership(db, In(false, actor, org), membership))
    ensures forall g | g in {In(true, actor, org), In(false, actor, org)} && GetMembership(db, g, membership).Some? ::
              membership in db.memberships && GetMembership(db, g, membership).value == db.memberships[membership]
    ensures MembershipIn(db, membership, org) ==>
              GetMembership(db, In(true, actor, org), membership) == Some(db.memberships[membership])
  {
    hide MembershipSelect;
    MemberView(db, db, actor, org);
    assert OwnerRows(db, In(true, actor, org), org) == OwnerRows(db, In(false, actor, org), org);
  }

  lemma DeleteAgrees(db: Db, actor: Id, org: Id, membership: Id)
    requires IsMember(db, actor, org) && MembershipIn(db, membership, org)
    requires ActorHasRole(db, In(true, actor, org), org, {Owner, Admin})
    ensures db.memberships[membership].user != actor || ActorHasRole(db, In(true, actor, org), org, {Owner}) ==>
              DeleteMembership(db, In(true, actor, org), membership)
              == DeleteMembership(db, In(false, actor, org), membership)
  {
    hide MembershipSelect, ActorHasRole;
    MemberView(db, db, actor, org);
  }

  lemma SetRoleAgrees(db: Db, actor: Id, org: Id, membership: Id, role: Role)
    requires MemberSees(db, actor, org) && MembershipIn(db, membership, org)
    requires ActorHasRole(db, In(true, actor, org), org, {Owner, Admin})
    ensures role != Owner || ActorHasRole(db, In(true, actor, org), org, {Owner}) ==>
              (var (r, q) := (SetRole(db, In(true, actor, org), membership, role),
                              SetRole(db, In(false, actor, org), membership, role));
               r == q)
  {
    hide MembershipSelect, ActorHasRole;
  }

  lemma UpdateRoleAgrees(db: Db, org: Id, actor: Id, membership: Id, role: string)
    requires Constraints(db)
    ensures UpdateRole(In(true, actor, org), db, org, actor, membership, role)
         == UpdateRole(In(false, actor, org), db, org, actor, membership, role)
  {
    hide MembershipSelect, ProjectPolicy, EnvironmentPolicy, SecretPolicy, KeyPolicy, VersionPolicy, AuditPolicy;
    hide IsMember, ActorHasRole, Constraints, CountOwners, GetMembership, CurrentPointersValid;
    var g, h := In(true, actor, org), In(false, actor, org);
    RoleAgrees(db, actor, org, Admin);
    if RequireOrgRole(db, g, org, actor, Admin).Success? {
      MemberRowsAgree(db, actor, org, membership);
      MemberView(db, db, actor, org);
      ActorRoles(db, actor, org, {Owner, Admin});
      ActorRoles(db, actor, org, {Owner});
      if MembershipIn(db, membership, org) && ParseRole(role).Some? {
        SetRoleAgrees(db, actor, org, membership, ParseRole(role).value);
      }
      hide MembershipsOf, RequireOrgRole, ParseRole, SetRole, MemberSees;
    }
  }

  /** The one call on which the layers differ: an admin removing its own membership. */
  ghost predicate SelfRemovalByAdmin(db: Db, org: Id, actor: Id, membership: Id) {
    membership in db.memberships && db.memberships[membership] == Membership(actor, org, Admin)
  }

  lemma RemoveAgrees(db: Db, org: Id, actor: Id, membership: Id)
    requires Constraints(db) && !SelfRemovalByAdmin(db, org, actor, membership)
    ensures Remove(In(true, actor, org), db, org, actor, membership)
         == Remove(In(false, actor, org), db, org, actor, membership)
  {
    hide MembershipSelect, ProjectPolicy, EnvironmentPolicy, SecretPolicy, KeyPolicy, VersionPolicy, AuditPolicy;
    hide IsMember, ActorHasRole, Constraints, CountOwners, GetMembership, DeleteMembership, CurrentPointersValid;
    var g, h := In(true, actor, org), In(false, actor, org);
    RoleAgrees(db, actor, org, Admin);
    if RequireOrgRole(db, g, org, actor, Admin).Success? {
      MemberRowsAgree(db, actor, org, membership);
      ActorRoles(db, actor, org, {Owner, Admin});
      ActorRoles(db, actor, org, {Owner});
      if MembershipIn(db, membership, org) {
        DeleteAgrees(db, actor, org, membership);
        if db.memberships[membership].user == actor {
          ActorRow(db, actor, org, membership);
        }
      }
      hide MembershipsOf, RequireOrgRole;
    }
  }

  /** Enforced, its own removal leaves an admin where it is, and the call still succeeds. */
  lemma SelfRemovalDiffers(db: Db, org: Id, actor: Id, membership: Id)
    requires Constraints(db) && SelfRemovalByAdmin(db, org, actor, membership)
    ensures Remove(In(true, actor, org), db, org, actor, membership) == Success((db, Done))
    ensures Remove(In(false, actor, org), db, org, actor, membership)
         == Success((db.(memberships := db.memberships - {membership}), Done))
  {
    RoleAgrees(db, actor, org, Admin);
    ActorRow(db, actor, org, membership);
    ActorRoles(db, actor, org, {Owner});
  }

  lemma UpdateOrganizationAgrees(db: Db, org: Id, actor: Id, name: Option<string>, slug: Option<string>)
    requires Constraints(db)
    ensures UpdateOrganization(In(true, actor, org), db, org, actor, name, slug)
         == UpdateOrganization(In(false, actor, org), db, org, actor, name, slug)
  {
    hide MembershipSelect, ProjectPolicy, EnvironmentPolicy, SecretPolicy, KeyPolicy, VersionPolicy, AuditPolicy;
    hide IsMember, ActorHasRole, Constraints, CurrentPointersValid;
    var g, h := In(true, actor, org), In(false, actor, org);
    RoleAgrees(db, actor, org, Admin);
    if RequireOrgRole(db, g, org, actor, Admin).Success? {
      ActorRoles(db, actor, org, {Owner, Admin});
      ActorRoles(db, actor, org, {Owner, Admin, Member, Viewer});
      if slug.Some? {
        HiddenSlugs(db, g, h, slug.value);
      }
    }
  }

  /** Policies can hide another organization with a slug from the pre-check, not from the constraint. */
  lemma HiddenSlugs(db: Db, g: Gate, h: Gate, slug: string)
    requires !h.enforced
    ensures OrganizationsBySlug(db, g, slug) <= OrganizationsBySlug(db, h, slug)
    ensures forall except: Option<Id> ::
              OrgSlugTaken(db, slug, except) <==> exists i :: i in OrganizationsBySlug(db, h, slug) && Some(i) != except
  {
    forall except: Option<Id>
      ensures OrgSlugTaken(db, slug, except) <==> exists i :: i in OrganizationsBySlug(db, h, slug) && Some(i) != except
    {
      if i :| i in db.orgs && db.orgs[i].slug == slug && Some(i) != except {
        assert i in OrganizationsBySlug(db, h, slug);
      }
    }
  }

  lemma CreateOrganizationAgrees(db: Db, name: string, slug: string, user: Id, id: Id, membershipId: Id)
    ensures CreateOrganization(Gate(true, Some(user), None), db, name, slug, user, id, membershipId)
         == CreateOrganization(Gate(false, Some(user), None), db, name, slug, user, id, membershipId)
  {
    var g, h := Gate(true, Some(user), None), Gate(false, Some(user), None);
    HiddenSlugs(db, g, h, slug);
    var created := CreateOrganizationWithOwner(h, db, name, slug, user, id, membershipId);
    assert created == CreateOrganizationWithOwner(g, db, name, slug, user, id, membershipId);
    if created.Success? {
      OwnerSeesNewOrganization(created.value, g, user, id, membershipId);
    }
  }

  lemma OwnerSeesNewOrganization(db: Db, g: Gate, user: Id, id: Id, membershipId: Id)
    requires g.user == Some(user)
    requires membershipId in db.memberships && db.memberships[membershipId] == Membership(user, id, Owner)
    ensures OrganizationSelect(db, g, id)
  {
    assert MembershipSelect(db, g, db.memberships[membershipId]);
  }

  // -- When a version row gets in ---------------------------------------------

  /** Inserting a version row is allowed to a member of the secret's organization. */
  lemma VersionPolicyMeans(db: Db, enforced: bool, actor: Id, org: Id, row: SecretVersion)
    ensures VersionPolicy(db, In(enforced, actor, org), row)
       <==> (enforced ==> IsMember(db, actor, org) && SecretIn(db, row.secret, org))
  {
    if enforced {
      BelongsClosedForm(db, In(true, actor, org));
      if IsMember(db, actor, org) {
        MemberView(db, db, actor, org);
      }
    }
  }

  /** Past the insert nothing can fail. */
  lemma InsertDecides(db: Db, enforced: bool, actor: Id, org: Id, versionId: Id, row: SecretVersion)
    requires CurrentPointersValid(db.secrets, db.versions)
    requires enforced ==> IsMember(db, actor, org) && SecretIn(db, row.secret, org)
    requires InsertVersion(db, In(enforced, actor, org), versionId, row).Success?
    ensures FinishVersion(In(enforced, actor, org), db, versionId, row).Success?
  {
    hide VersionPolicy, SecretPolicy, IsMember, VersionNumberTaken, KeyIvTaken;
    var db1 := db.(versions := db.versions[versionId := row]);
    if enforced {
      MemberView(db, db1, actor, org);
    } else {
      assert forall r :: SecretPolicy(db1, In(enforced, actor, org), r) by {
        OpenPolicies(db1, In(enforced, actor, org));
      }
    }
  }

  lemma OpenPolicies(db: Db, g: Gate)
    requires !g.enforced
    ensures forall r :: SecretPolicy(db, g, r)
  {
  }

  // -- Every call, every run -------------------------------------------------

  predicate SameResponse(enforced: C.Response, open: C.Response) {
    enforced == open || (enforced == Failure(SecretNotFound) && open == Failure(EnvironmentNotFound))
  }

  /** Either way the client sees the same value or the same HTTP status. */
  lemma SameResponseSameStatus(a: C.Response, b: C.Response)
    requires SameResponse(a, b)
    ensures a.Success? <==> b.Success?
    ensures a.Success? ==> a == b
    ensures a.Failure? ==> Status(a.error) == Status(b.error)
  {
  }

  ghost predicate RemovesItself(db: Db, call: C.Call) {
    call.op.Remove? && SelfRemovalByAdmin(db, call.org, call.actor, call.op.membership)
  }

  lemma SecretOutcomeAgrees(s: Suite, db: Db, org: Id, actor: Id, op: C.Op)
    requires WellFormed(db) && C.OnSecrets(op)
    ensures SameReply(C.SecretOutcome(s, In(true, actor, org), db, org, actor, op),
                      C.SecretOutcome(s, In(false, actor, org), db, org, actor, op))
  {
    hide CreateSecret, AddNewVersion, ListSecrets, GetDecryptedValue, DeleteSecret, WellFormed;
    match op
    case CreateSecret(env, name, plain, iv, id, versionId) =>
      CreateSecretAgrees(s, db, org, actor, env, name, plain, iv, id, versionId);
    case AddNewVersion(secret, plain, iv, versionId) =>
      AddNewVersionAgrees(s, db, org, actor, secret, plain, iv, versionId);
    case ListSecrets(env) => ListSecretsAgrees(db, org, actor, env);
    case Reveal(secret) =>
      WellFormedPointsHome(db, secret);
      GetDecryptedValueAgrees(s, db, org, actor, secret);
    case DeleteSecret(secret) => DeleteSecretAgrees(db, org, actor, secret);
  }

  lemma EnvironmentOutcomeAgrees(s: Suite, db: Db, org: Id, actor: Id, op: C.Op)
    requires C.OnEnvironments(op)
    ensures C.EnvironmentOutcome(s, In(true, actor, org), db, org, actor, op)
         == C.EnvironmentOutcome(s, In(false, actor, org), db, org, actor, op)
  {
    hide CreateEnvironment, ListEnvironments, GetEnvironmentFor, SwitchActiveKey;
    match op
    case CreateEnvironment(project, name, id, keyId, dek, nonce) =>
      CreateEnvironmentAgrees(s, db, org, actor, project, name, id, keyId, dek, nonce);
    case ListEnvironments(project) => ListEnvironmentsAgrees(db, org, actor, project);
    case GetEnvironment(env) => GetEnvironmentForAgrees(db, org, actor, env);
    case SwitchActiveKey(_, _, _, _, _) =>
  }

  lemma ProjectOutcomeAgrees(db: Db, org: Id, actor: Id, op: C.Op)
    requires C.OnProjects(op)
    ensures C.ProjectOutcome(In(true, actor, org), db, org, actor, op)
         == C.ProjectOutcome(In(false, actor, org), db, org, actor, op)
  {
    hide CreateProject, ListProjects, GetProjectFor, UpdateProject;
    match op
    case CreateProject(name, slug, description, id) =>
      CreateProjectAgrees(db, org, actor, name, slug, description, id);
    case ListProjects => ListProjectsAgrees(db, org, actor);
    case GetProject(project) => GetProjectForAgrees(db, org, actor, project);
    case UpdateProject(project, name, slug, description) =>
      UpdateProjectAgrees(db, org, actor, project, name, slug, description);
  }

  lemma MemberOutcomeAgrees(db: Db, org: Id, actor: Id, op: C.Op)
    requires Constraints(db) && C.OnMembers(op)
    ensures op.Remove? && SelfRemovalByAdmin(db, org, actor, op.membership)
         <==> C.MemberOutcome(In(true, actor, org), db, org, actor, op)
              != C.MemberOutcome(In(false, actor, org), db, org, actor, op)
    ensures C.MemberOutcome(In(true, actor, org), db, org, actor, op)
              != C.MemberOutcome(In(false, actor, org), db, org, actor, op) ==>
              && C.MemberOutcome(In(true, actor, org), db, org, actor, op) == Success((db, Done))
              && C.MemberOutcome(In(false, actor, org), db, org, actor, op)
                 == Success((db.(memberships := db.memberships - {op.membership}), Done))
  {
    hide ListMembers, Invite, UpdateRole, Remove, Constraints;
    match op
    case ListMembers => ListMembersAgrees(db, org, actor);
    case Invite(email, role, id) => InviteAgrees(db, org, actor, email, role, id);
    case UpdateRole(membership, role) => UpdateRoleAgrees(db, org, actor, membership, role);
    case Remove(membership) =>
      if SelfRemovalByAdmin(db, org, actor, membership) {
        SelfRemovalDiffers(db, org, actor, membership);
        assert membership in db.memberships && membership !in (db.memberships - {membership});
      } else {
        RemoveAgrees(db, org, actor, membership);
      }
  }

  lemma AccountOutcomeAgrees(db: Db, call: C.Call)
    requires Constraints(db) && (call.op.Register? || call.op.CreateOrganization? || call.op.UpdateOrganization?)
    ensures C.AccountOutcome(C.ContextOf(true, call), db, call.org, call.actor, call.op)
         == C.AccountOutcome(C.ContextOf(false, call), db, call.org, call.actor, call.op)
  {
    hide Register, CreateOrganization, UpdateOrganization, Constraints;
    match call.op
    case Register(_, _, _) =>
    case CreateOrganization(name, slug, id, ownerId) =>
      CreateOrganizationAgrees(db, name, slug, call.actor, id, ownerId);
    case UpdateOrganization(name, slug) => UpdateOrganizationAgrees(db, call.org, call.actor, name, slug);
  }

  /** From a well-formed state, a call ends in the same state with the same answer or HTTP status
      with policies enforced as without, if and only if it is not an admin removing itself; that
      call succeeds both ways, but enforced it changes nothing. */
  lemma StepAgrees(s: Suite, db: Db, call: C.Call)
    requires WellFormed(db)
    ensures var (on, off) := (C.Step(s, true, db, call), C.Step(s, false, db, call));
            && SameResponse(on.1, off.1)
            && (on.0 == off.0 <==> !RemovesItself(db, call))
            && (RemovesItself(db, call) ==> on == (db, Success(Done)))
  {
    hide C.SecretOutcome, C.EnvironmentOutcome, C.ProjectOutcome, C.MemberOutcome, C.AccountOutcome, WellFormed;
    var (org, actor, op) := (call.org, call.actor, call.op);
    assert Constraints(db) by { WellFormedIsConstrained(db); }
    if C.OnSecrets(op) {
      SecretOutcomeAgrees(s, db, org, actor, op);
    } else if C.OnEnvironments(op) {
      EnvironmentOutcomeAgrees(s, db, org, actor, op);
    } else if C.OnProjects(op) {
      ProjectOutcomeAgrees(db, org, actor, op);
    } else if C.OnMembers(op) {
      MemberOutcomeAgrees(db, org, actor, op);
    } else {
      AccountOutcomeAgrees(db, call);
    }
  }

  lemma PointersHold(db: Db)
    requires Constraints(db)
    ensures CurrentPointersValid(db.secrets, db.versions)
  {
  }

  lemma WellFormedIsConstrained(db: Db)
    requires WellFormed(db)
    ensures Constraints(db)
  {
  }

  /** Over a whole run from the empty database in which no admin removes itself, policies change
      no state and no answer. */
  lemma {:induction false} RunsAgree(s: Suite, calls: seq<C.Call>)
    requires forall i | 0 <= i < |calls| :: !RemovesItself(C.Run(s, false, calls[..i]), calls[i])
    ensures C.Run(s, true, calls) == C.Run(s, false, calls)
    ensures forall i | 0 <= i < |calls| ::
              SameResponse(C.ResponseAt(s, true, calls, i), C.ResponseAt(s, false, calls, i))
  {
    hide C.Step, RemovesItself;
    if calls != [] {
      var before, last := calls[..|calls| - 1], calls[|calls| - 1];
      assert forall i | 0 <= i < |before| :: before[..i] == calls[..i];
      RunsAgree(s, before);
      RunIsWellFormed(s, false, before);
      StepAgrees(s, C.Run(s, false, before), last);
      forall i | 0 <= i < |calls|
        ensures SameResponse(C.ResponseAt(s, true, calls, i), C.ResponseAt(s, false, calls, i))
      {
        if i < |before| {
          assert SameResponse(C.ResponseAt(s, true, before, i), C.ResponseAt(s, false, before, i));
        }
      }
    }
  }
}
