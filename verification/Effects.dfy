/** What a successful call changes, whatever the gate, and that it changes nothing else. */
module Effects {
  import opened Prelude
  import opened Envelope
  import opened Schema
  import opened Policies
  import opened Repositories
  import opened Services

  // -- Secrets ---------------------------------------------------------------

  lemma FinishVersionEffect(g: Gate, db: Db, versionId: Id, row: SecretVersion)
    requires FinishVersion(g, db, versionId, row).Success?
    ensures versionId !in db.versions && row.secret in db.secrets && row.key in db.keys
    ensures !VersionNumberTaken(db, row.secret, row.number) && !KeyIvTaken(db, row.key, row.iv)
    ensures FinishVersion(g, db, versionId, row).value
         == db.(secrets := db.secrets[row.secret := db.secrets[row.secret].(current := Some(versionId))],
                versions := db.versions[versionId := row])
  {
    hide SecretPolicy, VersionPolicy, CurrentPointersValid;
  }

  lemma CreateSecretEffect(s: Suite, g: Gate, db: Db, org: Id, actor: Id, env: Id, name: string, plain: string,
                           iv: Nonce, id: Id, versionId: Id) returns (key: Id, value: Bytes)
    requires CreateSecret(s, g, db, org, actor, env, name, plain, iv, id, versionId).Success?
    ensures RequireOrgRole(db, g, org, actor, Member).Success? && ResolveEnvironmentOrg(db, g, env, org).Success?
    ensures id !in db.secrets && !SecretNameTaken(db, env, name) && env in db.environments
    ensures versionId !in db.versions && key in ActiveKeys(db, g, env)
    ensures EncryptSecret(s, plain, iv, db.keys[key].wrapped) == Success(value)
    ensures CreateSecret(s, g, db, org, actor, env, name, plain, iv, id, versionId).value
         == (db.(secrets := db.secrets[id := Secret(env, name, Some(versionId), false)],
                 versions := db.versions[versionId := SecretVersion(id, key, value, iv, 1, actor)]), Created(id))
  {
    hide SecretPolicy, EnvironmentPolicy, ProjectPolicy, KeyPolicy, FinishVersion;
    key := Pick(ActiveKeys(db, g, env)).value;
    value := Encrypted(s, plain, iv, db.keys[key].wrapped).value;
    var db1 := db.(secrets := db.secrets[id := Secret(env, name, None, false)]);
    FinishVersionEffect(g, db1, versionId, SecretVersion(id, key, value, iv, 1, actor));
    assert db1.secrets[id := db1.secrets[id].(current := Some(versionId))]
        == db.secrets[id := Secret(env, name, Some(versionId), false)];
  }

  lemma PrepareVersionEffect(s: Suite, g: Gate, db: Db, org: Id, actor: Id, secret: Id, plain: string, iv: Nonce)
    requires PrepareVersion(s, g, db, org, actor, secret, plain, iv).Success?
    ensures RequireOrgRole(db, g, org, actor, Member).Success? && GetOwnedSecret(db, g, secret, org).Success?
    ensures var row := PrepareVersion(s, g, db, org, actor, secret, plain, iv).value;
            && secret in db.secrets && !db.secrets[secret].deleted
            && row.secret == secret && row.iv == iv && row.createdBy == actor
            && row.number == NextVersionNumber(db, g, secret)
            && row.key in ActiveKeys(db, g, db.secrets[secret].env)
            && EncryptSecret(s, plain, iv, db.keys[row.key].wrapped) == Success(row.value)
  {
    hide SecretPolicy, EnvironmentPolicy, ProjectPolicy, KeyPolicy, VersionPolicy;
  }

  lemma AddNewVersionEffect(s: Suite, g: Gate, db: Db, org: Id, actor: Id, secret: Id, plain: string, iv: Nonce,
                            versionId: Id)
    requires AddNewVersion(s, g, db, org, actor, secret, plain, iv, versionId).Success?
    ensures PrepareVersion(s, g, db, org, actor, secret, plain, iv).Success?
    ensures var row := PrepareVersion(s, g, db, org, actor, secret, plain, iv).value;
            && secret in db.secrets && versionId !in db.versions
            && AddNewVersion(s, g, db, org, actor, secret, plain, iv, versionId).value.0
            == db.(secrets := db.secrets[secret := db.secrets[secret].(current := Some(versionId))],
                   versions := db.versions[versionId := row])
  {
    hide PrepareVersion, FinishVersion;
    PrepareVersionEffect(s, g, db, org, actor, secret, plain, iv);
    FinishVersionEffect(g, db, versionId, PrepareVersion(s, g, db, org, actor, secret, plain, iv).value);
  }

  lemma GetDecryptedValueEffect(s: Suite, g: Gate, db: Db, org: Id, actor: Id, secret: Id)
    requires GetDecryptedValue(s, g, db, org, actor, secret).Success?
    ensures RequireOrgRole(db, g, org, actor, Member).Success? && GetOwnedSecret(db, g, secret, org).Success?
    ensures secret in db.secrets && !db.secrets[secret].deleted && db.secrets[secret].current.Some?
    ensures var (db', answer) := GetDecryptedValue(s, g, db, org, actor, secret).value;
            var row := db.secrets[secret];
            var vid := row.current.value;
            && vid in db.versions && db.versions[vid].key in db.keys && answer.Plaintext?
            && DecryptSecret(s, db.versions[vid].value, db.versions[vid].iv, db.keys[db.versions[vid].key].wrapped)
               == Success(answer.text)
            && db' == db.(audit := db.audit + [AuditEntry(org, actor, secret, row.name, vid)])
  {
    hide SecretPolicy, EnvironmentPolicy, ProjectPolicy, KeyPolicy, VersionPolicy, AuditPolicy, CurrentPointersValid;
  }

  lemma DeleteSecretEffect(g: Gate, db: Db, org: Id, actor: Id, secret: Id)
    requires DeleteSecret(g, db, org, actor, secret).Success?
    ensures RequireOrgRole(db, g, org, actor, Member).Success? && GetOwnedSecret(db, g, secret, org).Success?
    ensures secret in db.secrets && !db.secrets[secret].deleted
    ensures DeleteSecret(g, db, org, actor, secret).value.0
         == db.(secrets := db.secrets[secret := db.secrets[secret].(deleted := true)])
  {
    hide SecretPolicy, EnvironmentPolicy, ProjectPolicy, CurrentPointersValid;
  }

  lemma ListSecretsEffect(g: Gate, db: Db, org: Id, actor: Id, env: Id)
    ensures var r := ListSecrets(g, db, org, actor, env); r.Success? ==> r.value.0 == db
  {
  }

  // -- Environments, projects and keys ---------------------------------------

  lemma CreateEnvironmentEffect(s: Suite, g: Gate, db: Db, org: Id, actor: Id, project: Id, name: string,
                                id: Id, keyId: Id, dek: Key, nonce: Nonce)
    requires CreateEnvironment(s, g, db, org, actor, project, name, id, keyId, dek, nonce).Success?
    ensures RequireOrgRole(db, g, org, actor, Member).Success? && ProjectIn(db, project, org)
    ensures id !in db.environments && keyId !in db.keys
    ensures CreateEnvironment(s, g, db, org, actor, project, name, id, keyId, dek, nonce).value.0
         == db.(environments := db.environments[id := Environment(project, name)],
                keys := db.keys[keyId := EncryptionKey(id, CreateWrappedDek(s, dek, nonce), 1, true)])
  {
    hide EnvironmentPolicy, ProjectPolicy, KeyPolicy, CurrentPointersValid;
  }

  lemma SwitchActiveKeyEffect(s: Suite, db: Db, env: Id, keyId: Id, keyVersion: int, dek: Key, nonce: Nonce)
    requires SwitchActiveKey(s, db, env, keyId, keyVersion, dek, nonce).Success?
    ensures keyId !in db.keys && env in db.environments
    ensures var db' := SwitchActiveKey(s, db, env, keyId, keyVersion, dek, nonce).value.0;
            && db' == db.(keys := db'.keys) && db'.keys.Keys == db.keys.Keys + {keyId}
            && db'.keys[keyId] == EncryptionKey(env, CreateWrappedDek(s, dek, nonce), keyVersion, true)
            && (forall i | i in db.keys ::
                  db'.keys[i] == if db.keys[i].env == env then db.keys[i].(active := false) else db.keys[i])
  {
    hide KeyPolicy, CurrentPointersValid;
  }

  lemma EnvironmentReadsEffect(g: Gate, db: Db, org: Id, actor: Id, id: Id)
    ensures var r := ListEnvironments(g, db, org, actor, id); r.Success? ==> r.value.0 == db
    ensures var r := GetEnvironmentFor(g, db, org, actor, id); r.Success? ==> r.value.0 == db
  {
    hide RequireOrgRole, EnvironmentPolicy, ProjectPolicy;
  }

  lemma ProjectEffect(g: Gate, db: Db, org: Id, actor: Id, name: string, slug: string, description: Option<string>,
                      id: Id)
    requires CreateProject(g, db, org, actor, name, slug, description, id).Success?
    ensures id !in db.projects
    ensures CreateProject(g, db, org, actor, name, slug, description, id).value.0
         == db.(projects := db.projects[id := Project(org, name, slug, description)])
  {
    hide ProjectPolicy, CurrentPointersValid;
  }

  lemma UpdateProjectEffect(g: Gate, db: Db, org: Id, actor: Id, project: Id, name: Option<string>,
                            slug: Option<string>,
                            description: Option<string>)
    requires UpdateProject(g, db, org, actor, project, name, slug, description).Success?
    ensures var (db', answer) := UpdateProject(g, db, org, actor, project, name, slug, description).value;
            && answer.ProjectRow? && ProjectIn(db, project, org) && answer.project.org == org
            && db' == db.(projects := db.projects[project := answer.project])
  {
    hide ProjectPolicy, CurrentPointersValid;
  }

  // -- Memberships and organizations -----------------------------------------

  lemma InviteEffect(g: Gate, db: Db, org: Id, actor: Id, email: string, role: string, id: Id) returns (row: Membership)
    requires Invite(g, db, org, actor, email, role, id).Success?
    ensures RequireOrgRole(db, g, org, actor, Admin).Success?
    ensures id !in db.memberships && row.org == org && row.role != Owner && !IsMember(db, row.user, org)
    ensures row.role == Admin ==> RequireOrgRole(db, g, org, actor, Admin).value.role == Owner
    ensures Invite(g, db, org, actor, email, role, id).value.0 == db.(memberships := db.memberships[id := row])
  {
    hide MembershipSelect, MembershipInsert, IsMember, CurrentPointersValid;
    row := Membership(Pick(UsersByEmail(db.users, email)).value, org, ParseRole(role).value);
  }

  lemma UpdateRoleEffect(g: Gate, db: Db, org: Id, actor: Id, membership: Id, role: string)
    requires UpdateRole(g, db, org, actor, membership, role).Success?
    ensures RequireOrgRole(db, g, org, actor, Admin).Success? && MembershipIn(db, membership, org)
    ensures ParseRole(role).Some?
    ensures var m, newRole := db.memberships[membership], ParseRole(role).value;
            && UpdateRole(g, db, org, actor, membership, role).value.0
               == db.(memberships := db.memberships[membership := m.(role := newRole)])
            && (m.role != newRole && (newRole == Owner || newRole == Admin || m.role == Owner) ==>
                  RequireOrgRole(db, g, org, actor, Admin).value.role == Owner)
            && (m.role == Owner && newRole != Owner ==> CountOwners(db, g, org) >= 2)
  {
    hide MembershipSelect, MembershipUpdateUsing, MembershipUpdateCheck, CurrentPointersValid;
  }

  lemma RemoveEffect(g: Gate, db: Db, org: Id, actor: Id, membership: Id)
    requires Remove(g, db, org, actor, membership).Success?
    ensures RequireOrgRole(db, g, org, actor, Admin).Success? && MembershipIn(db, membership, org)
    ensures var db' := Remove(g, db, org, actor, membership).value.0;
            db' == db || db' == db.(memberships := db.memberships - {membership})
    ensures db.memberships[membership].role == Owner ==>
              RequireOrgRole(db, g, org, actor, Admin).value.role == Owner && CountOwners(db, g, org) >= 2
  {
    hide MembershipSelect, MembershipDelete, CurrentPointersValid;
  }

  lemma CreateOrganizationEffect(g: Gate, db: Db, name: string, slug: string, user: Id, id: Id, membershipId: Id)
    requires CreateOrganization(g, db, name, slug, user, id, membershipId).Success?
    ensures id !in db.orgs && membershipId !in db.memberships
    ensures CreateOrganization(g, db, name, slug, user, id, membershipId).value.0
         == db.(orgs := db.orgs[id := Organization(name, slug)],
                memberships := db.memberships[membershipId := Membership(user, id, Owner)])
  {
    hide OrganizationSelect, CurrentPointersValid;
  }

  lemma UpdateOrganizationEffect(g: Gate, db: Db, org: Id, actor: Id, name: Option<string>, slug: Option<string>)
    requires UpdateOrganization(g, db, org, actor, name, slug).Success?
    ensures org in db.orgs
    ensures var (db', answer) := UpdateOrganization(g, db, org, actor, name, slug).value;
            answer.OrganizationRow? && db' == db.(orgs := db.orgs[org := answer.organization])
  {
    hide OrganizationSelect, OrganizationUpdate, CurrentPointersValid;
  }

  lemma RegisterEffect(db: Db, email: string, password: string, id: Id)
    requires Services.Register(db, email, password, id).Success?
    ensures id !in db.users
    ensures Services.Register(db, email, password, id).value.0
         == db.(users := db.users[id := User(email, Some(Argon2(password)), true)])
  {
    hide CurrentPointersValid;
  }
}
