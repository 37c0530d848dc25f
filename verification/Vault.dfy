/**
 The vault as a user thinks of it: a map from secret to the list of plaintexts written to
 it. The tables, the keys and the ciphertexts refine that map: every call changes the map
 the obvious way, and a reveal reads the last plaintext.
 */
module Vault {
  import opened Prelude
  import opened Envelope
  import opened Schema
  import opened Policies
  import opened Repositories
  import Services
  import opened Calls
  import opened Effects
  import opened Frames
  import opened Reachable
  import opened Agreement

  datatype Entry = Entry(env: Id, name: string, deleted: bool, values: seq<string>)

  type Vault = map<Id, Entry>

  // -- The abstract vault ----------------------------------------------------

  /** What a call does to the vault, read off the call and its answer alone. */
  function VaultStep(v: Vault, call: Call, r: Response): Vault {
    if r.Failure? then v
    else
      match call.op
      case CreateSecret(env, name, plain, _, id, _) => v[id := Entry(env, name, false, [plain])]
      case AddNewVersion(secret, plain, _, _) =>
        if secret in v then v[secret := v[secret].(values := v[secret].values + [plain])] else v
      case DeleteSecret(secret) =>
        if secret in v then v[secret := v[secret].(deleted := true)] else v
      case _ => v
  }

  // -- Representation --------------------------------------------------------

  /** Version v holds this plaintext under a key of the secret's environment. */
  ghost predicate Holds(s: Suite, keys: map<Id, EncryptionKey>, env: Id, v: SecretVersion, plain: string) {
    && v.key in keys && keys[v.key].env == env
    && DecryptSecret(s, v.value, v.iv, keys[v.key].wrapped) == Success(plain)
  }

  ghost predicate HasNumber(versions: map<Id, SecretVersion>, secret: Id, number: int) {
    exists v :: v in versions && versions[v].secret == secret && versions[v].number == number
  }

  /** The versions of a secret are numbered 1..n, the pointer is on version n, and version k
      decrypts to the k-th value written. */
  ghost predicate Represented(s: Suite, keys: map<Id, EncryptionKey>, versions: map<Id, SecretVersion>,
                              id: Id, row: Secret, e: Entry)
  {
    && row.env == e.env && row.name == e.name && row.deleted == e.deleted
    && |e.values| >= 1
    && row.current.Some? && row.current.value in versions
    && versions[row.current.value].secret == id && versions[row.current.value].number == |e.values|
    && (forall k | 1 <= k <= |e.values| :: HasNumber(versions, id, k))
    && (forall v | v in versions && versions[v].secret == id ::
          1 <= versions[v].number <= |e.values| && Holds(s, keys, e.env, versions[v], e.values[versions[v].number - 1]))
  }

  ghost predicate Represents(s: Suite, keys: map<Id, EncryptionKey>, secrets: map<Id, Secret>,
                             versions: map<Id, SecretVersion>, v: Vault)
  {
    && v.Keys == secrets.Keys
    && (forall i | i in v :: Represented(s, keys, versions, i, secrets[i], v[i]))
  }

  /** Every environment has an active key, and every key unwraps to a 256-bit DEK. */
  ghost predicate KeysReady(s: Suite, keys: map<Id, EncryptionKey>, environments: set<Id>) {
    && (forall k | k in keys :: Usable(s, keys[k].wrapped))
    && (forall e | e in environments :: exists k :: k in keys && keys[k].env == e && keys[k].active)
  }

  ghost predicate VaultInv(s: Suite, db: Db, v: Vault) {
    && WellFormed(db)
    && KeysReady(s, db.keys, db.environments.Keys)
    && Represents(s, db.keys, db.secrets, db.versions, v)
  }

  /** The tables determine the vault. */
  lemma RepresentationIsUnique(s: Suite, db: Db, v: Vault, w: Vault)
    requires Represents(s, db.keys, db.secrets, db.versions, v) && Represents(s, db.keys, db.secrets, db.versions, w)
    ensures v == w
  {
    hide Represented;
    forall i | i in v ensures v[i] == w[i] {
      EntryIsUnique(s, db.keys, db.versions, i, db.secrets[i], v[i], w[i]);
    }
  }

  lemma EntryIsUnique(s: Suite, keys: map<Id, EncryptionKey>, versions: map<Id, SecretVersion>,
                      id: Id, row: Secret, d: Entry, e: Entry)
    requires Represented(s, keys, versions, id, row, d) && Represented(s, keys, versions, id, row, e)
    ensures d == e
  {
    hide DecryptSecret;
    forall k | 0 <= k < |d.values| ensures d.values[k] == e.values[k] {
      assert HasNumber(versions, id, k + 1);
      var v :| v in versions && versions[v].secret == id && versions[v].number == k + 1;
      assert Holds(s, keys, d.env, versions[v], d.values[k]) && Holds(s, keys, e.env, versions[v], e.values[k]);
    }
  }

  // -- One secret at a time --------------------------------------------------

  lemma KeysGrow(s: Suite, keys: map<Id, EncryptionKey>, keys': map<Id, EncryptionKey>,
                 versions: map<Id, SecretVersion>, id: Id, row: Secret, e: Entry)
    requires Represented(s, keys, versions, id, row, e)
    requires forall k | k in keys :: k in keys' && keys'[k].env == keys[k].env && keys'[k].wrapped == keys[k].wrapped
    ensures Represented(s, keys', versions, id, row, e)
  {
  }

  lemma OtherVersionAdded(s: Suite, keys: map<Id, EncryptionKey>, versions: map<Id, SecretVersion>,
                          id: Id, row: Secret, e: Entry, vid: Id, version: SecretVersion)
    requires Represented(s, keys, versions, id, row, e) && vid !in versions && version.secret != id
    ensures Represented(s, keys, versions[vid := version], id, row, e)
  {
    var versions' := versions[vid := version];
    forall k | 1 <= k <= |e.values| ensures HasNumber(versions', id, k) {
      assert HasNumber(versions, id, k);
      var v :| v in versions && versions[v].secret == id && versions[v].number == k;
      assert v in versions' && versions'[v] == versions[v];
    }
  }

  lemma VersionAppended(s: Suite, keys: map<Id, EncryptionKey>, versions: map<Id, SecretVersion>,
                        id: Id, row: Secret, e: Entry, vid: Id, version: SecretVersion, plain: string)
    requires Represented(s, keys, versions, id, row, e) && vid !in versions
    requires version.secret == id && version.number == |e.values| + 1 && Holds(s, keys, e.env, version, plain)
    ensures Represented(s, keys, versions[vid := version], id, row.(current := Some(vid)),
                        e.(values := e.values + [plain]))
  {
    var versions' := versions[vid := version];
    forall k | 1 <= k <= |e.values| + 1 ensures HasNumber(versions', id, k) {
      if k == |e.values| + 1 {
        assert versions'[vid].number == k;
      } else {
        assert HasNumber(versions, id, k);
        var v :| v in versions && versions[v].secret == id && versions[v].number == k;
        assert v in versions' && versions'[v] == versions[v];
      }
    }
  }

  lemma FirstVersion(s: Suite, keys: map<Id, EncryptionKey>, versions: map<Id, SecretVersion>,
                     id: Id, env: Id, name: string, vid: Id, version: SecretVersion, plain: string)
    requires vid !in versions && forall v | v in versions :: versions[v].secret != id
    requires version.secret == id && version.number == 1 && Holds(s, keys, env, version, plain)
    ensures Represented(s, keys, versions[vid := version], id, Secret(env, name, Some(vid), false),
                        Entry(env, name, false, [plain]))
  {
    assert versions[vid := version][vid].number == 1;
  }

  /** Under the invariant the newest version a writer reads is version n. */
  lemma NextNumber(s: Suite, db: Db, v: Vault, g: Gate, secret: Id)
    requires Represents(s, db.keys, db.secrets, db.versions, v) && secret in v && !g.enforced
    ensures Services.NextVersionNumber(db, g, secret) == |v[secret].values| + 1
  {
    var current := db.secrets[secret].current.value;
    assert current in LatestVersions(db, g, secret);
    var newest := Pick(LatestVersions(db, g, secret)).value;
    assert newest in VersionsOf(db, g, secret) && current in VersionsOf(db, g, secret);
    assert db.versions[current].number <= db.versions[newest].number;
  }

  // -- One call at a time ----------------------------------------------------

  /** A row encrypted under the environment's active key holds its plaintext. */
  lemma EncryptedHolds(s: Suite, db: Db, g: Gate, env: Id, row: SecretVersion, plain: string)
    requires Authenticated(s) && KeysReady(s, db.keys, db.environments.Keys)
    requires row.key in ActiveKeys(db, g, env)
    requires EncryptSecret(s, plain, row.iv, db.keys[row.key].wrapped) == Success(row.value)
    ensures Holds(s, db.keys, env, row, plain)
  {
    EnvelopeRoundTrip(s, plain, row.iv, db.keys[row.key].wrapped);
  }

  lemma CreateRefines(s: Suite, g: Gate, db: Db, v: Vault, org: Id, actor: Id, env: Id, name: string, plain: string,
                      iv: Nonce, id: Id, versionId: Id)
    requires Authenticated(s) && VaultInv(s, db, v)
    requires Services.CreateSecret(s, g, db, org, actor, env, name, plain, iv, id, versionId).Success?
    ensures var db' := Services.CreateSecret(s, g, db, org, actor, env, name, plain, iv, id, versionId).value.0;
            Represents(s, db'.keys, db'.secrets, db'.versions, v[id := Entry(env, name, false, [plain])])
  {
    hide Services.CreateSecret, Represented, Usable, Authenticated, Constraints, KeyPolicy, Holds;
    var key, value := CreateSecretEffect(s, g, db, org, actor, env, name, plain, iv, id, versionId);
    var row := SecretVersion(id, key, value, iv, 1, actor);
    EncryptedHolds(s, db, g, env, row, plain);
    VersionsHaveSecrets(db);
    FirstVersion(s, db.keys, db.versions, id, env, name, versionId, row, plain);
    forall i | i in v
      ensures Represented(s, db.keys, db.versions[versionId := row], i, db.secrets[i], v[i])
    {
      OtherVersionAdded(s, db.keys, db.versions, i, db.secrets[i], v[i], versionId, row);
    }
  }

  lemma VersionsHaveSecrets(db: Db)
    requires Constraints(db)
    ensures forall v | v in db.versions :: db.versions[v].secret in db.secrets
  {
  }

  /** Finishing a version row whose number is the next one appends its plaintext. */
  lemma FinishRefines(s: Suite, g: Gate, db: Db, v: Vault, versionId: Id, row: SecretVersion, plain: string)
    requires Represents(s, db.keys, db.secrets, db.versions, v) && FinishVersionSucceeds(g, db, versionId, row)
    requires row.secret in v && row.number == |v[row.secret].values| + 1
    requires Holds(s, db.keys, v[row.secret].env, row, plain)
    ensures var db' := Services.FinishVersion(g, db, versionId, row).value;
            Represents(s, db'.keys, db'.secrets, db'.versions,
                       v[row.secret := v[row.secret].(values := v[row.secret].values + [plain])])
  {
    hide Services.FinishVersion, Represented, Holds;
    FinishVersionEffect(g, db, versionId, row);
    VersionAppended(s, db.keys, db.versions, row.secret, db.secrets[row.secret], v[row.secret], versionId, row, plain);
    forall i | i in v && i != row.secret
      ensures Represented(s, db.keys, db.versions[versionId := row], i, db.secrets[i], v[i])
    {
      OtherVersionAdded(s, db.keys, db.versions, i, db.secrets[i], v[i], versionId, row);
    }
  }

  ghost predicate FinishVersionSucceeds(g: Gate, db: Db, versionId: Id, row: SecretVersion) {
    Services.FinishVersion(g, db, versionId, row).Success?
  }

  lemma AddRefines(s: Suite, g: Gate, db: Db, v: Vault, org: Id, actor: Id, secret: Id, plain: string, iv: Nonce,
                   versionId: Id)
    requires Authenticated(s) && VaultInv(s, db, v) && !g.enforced
    requires Services.AddNewVersion(s, g, db, org, actor, secret, plain, iv, versionId).Success?
    ensures secret in v
    ensures var db' := Services.AddNewVersion(s, g, db, org, actor, secret, plain, iv, versionId).value.0;
            Represents(s, db'.keys, db'.secrets, db'.versions,
                       v[secret := v[secret].(values := v[secret].values + [plain])])
  {
    PrepareHolds(s, g, db, v, org, actor, secret, plain, iv);
    hide Services.FinishVersion, Services.PrepareVersion, Represents, Holds, WellFormed;
    var row := Services.PrepareVersion(s, g, db, org, actor, secret, plain, iv).value;
    FinishRefines(s, g, db, v, versionId, row, plain);
  }

  lemma PrepareHolds(s: Suite, g: Gate, db: Db, v: Vault, org: Id, actor: Id, secret: Id, plain: string, iv: Nonce)
    requires Authenticated(s) && VaultInv(s, db, v) && !g.enforced
    requires Services.PrepareVersion(s, g, db, org, actor, secret, plain, iv).Success?
    ensures var row := Services.PrepareVersion(s, g, db, org, actor, secret, plain, iv).value;
            && secret in v && row.secret == secret && row.number == |v[secret].values| + 1
            && Holds(s, db.keys, v[secret].env, row, plain)
  {
    hide Services.PrepareVersion, Services.NextVersionNumber, Authenticated, KeyPolicy, WellFormed, Holds;
    PrepareVersionEffect(s, g, db, org, actor, secret, plain, iv);
    var row := Services.PrepareVersion(s, g, db, org, actor, secret, plain, iv).value;
    EncryptedHolds(s, db, g, db.secrets[secret].env, row, plain);
    NextNumber(s, db, v, g, secret);
  }

  lemma DeleteRefines(s: Suite, g: Gate, db: Db, v: Vault, org: Id, actor: Id, secret: Id)
    requires VaultInv(s, db, v) && Services.DeleteSecret(g, db, org, actor, secret).Success?
    ensures secret in v
    ensures var db' := Services.DeleteSecret(g, db, org, actor, secret).value.0;
            Represents(s, db'.keys, db'.secrets, db'.versions, v[secret := v[secret].(deleted := true)])
  {
    hide Services.DeleteSecret, WellFormed, Holds;
    DeleteSecretEffect(g, db, org, actor, secret);
    assert Represented(s, db.keys, db.versions, secret, db.secrets[secret], v[secret]);
    assert Represented(s, db.keys, db.versions, secret, db.secrets[secret].(deleted := true),
                       v[secret].(deleted := true));
  }

  lemma SecretRefines(s: Suite, g: Gate, db: Db, v: Vault, call: Call)
    requires Authenticated(s) && VaultInv(s, db, v) && !g.enforced && OnSecrets(call.op)
    ensures var (db', r) := Settle(db, SecretOutcome(s, g, db, call.org, call.actor, call.op));
            Represents(s, db'.keys, db'.secrets, db'.versions, VaultStep(v, call, r))
  {
    hide Services.CreateSecret, Services.AddNewVersion, Services.ListSecrets, Services.GetDecryptedValue;
    hide Services.DeleteSecret, WellFormed, KeysReady, Represented;
    var (org, actor) := (call.org, call.actor);
    match call.op
    case CreateSecret(env, name, plain, iv, id, versionId) =>
      if Services.CreateSecret(s, g, db, org, actor, env, name, plain, iv, id, versionId).Success? {
        CreateRefines(s, g, db, v, org, actor, env, name, plain, iv, id, versionId);
      }
    case AddNewVersion(secret, plain, iv, versionId) =>
      if Services.AddNewVersion(s, g, db, org, actor, secret, plain, iv, versionId).Success? {
        AddRefines(s, g, db, v, org, actor, secret, plain, iv, versionId);
      }
    case DeleteSecret(secret) =>
      if Services.DeleteSecret(g, db, org, actor, secret).Success? {
        DeleteRefines(s, g, db, v, org, actor, secret);
      }
    case Reveal(secret) =>
      if Services.GetDecryptedValue(s, g, db, org, actor, secret).Success? {
        GetDecryptedValueEffect(s, g, db, org, actor, secret);
      }
    case ListSecrets(env) => ListSecretsEffect(g, db, org, actor, env);
  }

  /** Environment calls bring in usable keys, keep every environment with an active key, and
      leave what is already encrypted readable. */
  lemma EnvironmentKeepsKeys(s: Suite, g: Gate, db: Db, v: Vault, call: Call)
    requires Authenticated(s) && VaultInv(s, db, v) && OnEnvironments(call.op)
    ensures var db' := Settle(db, EnvironmentOutcome(s, g, db, call.org, call.actor, call.op)).0;
            && KeysReady(s, db'.keys, db'.environments.Keys)
            && Represents(s, db'.keys, db'.secrets, db'.versions, v)
  {
    hide Services.CreateEnvironment, Services.SwitchActiveKey, WellFormed, Represented, Usable, Authenticated;
    hide Services.RequireOrgRole, KeysReady, Represents, Services.ListEnvironments, Services.GetEnvironmentFor;
    var (org, actor) := (call.org, call.actor);
    match call.op
    case CreateEnvironment(project, name, id, keyId, dek, nonce) =>
      if Services.CreateEnvironment(s, g, db, org, actor, project, name, id, keyId, dek, nonce).Success? {
        CreateEnvironmentEffect(s, g, db, org, actor, project, name, id, keyId, dek, nonce);
        var key := EncryptionKey(id, CreateWrappedDek(s, dek, nonce), 1, true);
        WrappedDekIsUsable(s, dek, nonce);
        KeysCarryOver(s, db, v, db.keys[keyId := key], db.environments.Keys + {id}, keyId);
        assert db.environments[id := Environment(project, name)].Keys == db.environments.Keys + {id};
      }
    case SwitchActiveKey(env, keyId, keyVersion, dek, nonce) =>
      var r := Services.SwitchActiveKey(s, db, env, keyId, keyVersion, dek, nonce);
      if r.Success? {
        SwitchActiveKeyEffect(s, db, env, keyId, keyVersion, dek, nonce);
        WrappedDekIsUsable(s, dek, nonce);
        KeysCarryOver(s, db, v, r.value.0.keys, db.environments.Keys, keyId);
      }
    case ListEnvironments(project) => EnvironmentReadsEffect(g, db, org, actor, project);
    case GetEnvironment(env) => EnvironmentReadsEffect(g, db, org, actor, env);
  }

  /** Adding an active key, at most retiring others of its environment. */
  lemma KeysCarryOver(s: Suite, db: Db, v: Vault, keys': map<Id, EncryptionKey>, environments': set<Id>, keyId: Id)
    requires KeysReady(s, db.keys, db.environments.Keys) && Represents(s, db.keys, db.secrets, db.versions, v)
    requires keyId !in db.keys && keys'.Keys == db.keys.Keys + {keyId}
    requires keys'[keyId].active && Usable(s, keys'[keyId].wrapped)
    requires environments' <= db.environments.Keys + {keys'[keyId].env}
    requires forall k | k in db.keys ::
               || keys'[k] == db.keys[k]
               || (keys'[k] == db.keys[k].(active := false) && db.keys[k].env == keys'[keyId].env)
    ensures KeysReady(s, keys', environments') && Represents(s, keys', db.secrets, db.versions, v)
  {
    hide Usable;
    forall e | e in environments' ensures exists k :: k in keys' && keys'[k].env == e && keys'[k].active {
      if e == keys'[keyId].env {
        assert keyId in keys';
      } else {
        var k :| k in db.keys && db.keys[k].env == e && db.keys[k].active;
        assert k in keys' && keys'[k] == db.keys[k];
      }
    }
    forall i | i in v ensures Represented(s, keys', db.versions, i, db.secrets[i], v[i]) {
      KeysGrow(s, db.keys, keys', db.versions, i, db.secrets[i], v[i]);
    }
  }

  lemma UnenforcedStepRefines(s: Suite, db: Db, v: Vault, call: Call)
    requires Authenticated(s) && VaultInv(s, db, v)
    ensures var (db', r) := Step(s, false, db, call); VaultInv(s, db', VaultStep(v, call, r))
  {
    hide Authenticated, WellFormed, Represents, KeysReady;
    hide SecretOutcome, EnvironmentOutcome, ProjectOutcome, MemberOutcome, AccountOutcome;
    StepKeepsWellFormed(s, false, db, call);
    Frame(s, false, db, call);
    var g := ContextOf(false, call);
    if OnSecrets(call.op) {
      SecretRefines(s, g, db, v, call);
    } else if OnEnvironments(call.op) {
      EnvironmentKeepsKeys(s, g, db, v, call);
    }
  }

  /** Every call, with or without policies, is a step of the abstract vault. */
  lemma StepRefines(s: Suite, enforced: bool, db: Db, v: Vault, call: Call)
    requires Authenticated(s) && VaultInv(s, db, v)
    ensures var (db', r) := Step(s, enforced, db, call); VaultInv(s, db', VaultStep(v, call, r))
  {
    hide Authenticated, WellFormed, Represents, KeysReady, Step;
    UnenforcedStepRefines(s, db, v, call);
    StepAgrees(s, db, call);
  }

  // -- Answers ---------------------------------------------------------------

  /** The caller may use this secret: it is live, of the organization, and the role suffices. */
  ghost predicate MayUse(db: Db, v: Vault, call: Call, secret: Id) {
    && HasRole(db, call.actor, call.org, Member)
    && secret in v && !v[secret].deleted && EnvironmentIn(db, v[secret].env, call.org)
  }

  lemma RoleMeans(db: Db, g: Gate, org: Id, actor: Id, minimum: Role)
    requires Constraints(db) && !g.enforced
    ensures var r := Services.RequireOrgRole(db, g, org, actor, minimum);
            if HasRole(db, actor, org, minimum) then r.Success? else r == Failure(RoleError(db, actor, org))
  {
    hide UniqueEmails, UniqueSlugs, ProjectConstraints, EnvironmentConstraints, KeyConstraints, SecretConstraints;
    hide VersionConstraints, CurrentPointersValid;
    var rows := MembershipsOf(db, g, actor, org);
    if HasRole(db, actor, org, minimum) {
      var i :| i in db.memberships && db.memberships[i].user == actor && db.memberships[i].org == org
        && Rank(db.memberships[i].role) >= Rank(minimum);
      assert i in rows;
    }
    if IsMember(db, actor, org) {
      var i :| i in db.memberships && db.memberships[i].user == actor && db.memberships[i].org == org;
      assert i in rows;
    }
    if Pick(rows).Some? {
      var i := Pick(rows).value;
      assert i in db.memberships;
    }
  }

  lemma RoleHolderIsKnown(db: Db, actor: Id, org: Id, minimum: Role)
    requires Constraints(db) && HasRole(db, actor, org, minimum)
    ensures actor in db.users && org in db.orgs
  {
  }

  lemma OwnedMeans(db: Db, g: Gate, secret: Id, org: Id)
    requires !g.enforced
    ensures var r := Services.GetOwnedSecret(db, g, secret, org);
            && (r.Success? <==>
                  && secret in db.secrets && !db.secrets[secret].deleted
                  && EnvironmentIn(db, db.secrets[secret].env, org))
            && (r.Success? ==> r.value == db.secrets[secret])
            && (r.Failure? ==> r.error in {SecretNotFound, EnvironmentNotFound})
  {
  }

  /** Whoever passes the checks gets the last plaintext: every later branch is unreachable. */
  lemma OwnerRevealsLast(s: Suite, g: Gate, db: Db, v: Vault, org: Id, actor: Id, secret: Id)
    requires VaultInv(s, db, v) && !g.enforced
    requires Services.RequireOrgRole(db, g, org, actor, Member).Success?
    requires Services.GetOwnedSecret(db, g, secret, org).Success?
    requires actor in db.users && org in db.orgs
    ensures secret in v && Services.GetDecryptedValue(s, g, db, org, actor, secret).Success?
    ensures Services.GetDecryptedValue(s, g, db, org, actor, secret).value.1
         == Services.Plaintext(v[secret].values[|v[secret].values| - 1])
  {
    hide Services.RequireOrgRole, Services.GetOwnedSecret, DecryptSecret, TableConstraints, CurrentPointersValid;
    hide KeysReady;
    OwnedMeans(db, g, secret, org);
    assert Represented(s, db.keys, db.versions, secret, db.secrets[secret], v[secret]);
  }

  lemma UnenforcedReveal(s: Suite, db: Db, v: Vault, call: Call)
    requires VaultInv(s, db, v) && call.op.Reveal?
    ensures var r := Step(s, false, db, call).1;
            && (r.Success? <==> MayUse(db, v, call, call.op.secret))
            && (r.Success? ==> r.value == Services.Plaintext(v[call.op.secret].values[|v[call.op.secret].values| - 1]))
            && (r.Failure? ==> r.error in {MembershipRequired, InsufficientRole, SecretNotFound, EnvironmentNotFound})
  {
    hide VaultInv, MayUse, Services.GetDecryptedValue, Services.RequireOrgRole, Services.GetOwnedSecret, Step;
    hide Services.CreateSecret, Services.AddNewVersion, Services.ListSecrets, Services.DeleteSecret;
    var (g, org, actor, secret) := (In(false, call.actor, call.org), call.org, call.actor, call.op.secret);
    SecretStep(s, false, db, call);
    ChecksMean(s, db, v, call, secret);
    if MayUse(db, v, call, secret) {
      OwnerRevealsLast(s, g, db, v, org, actor, secret);
    } else {
      RefusedEarly(s, g, db, org, actor, secret);
    }
  }

  /** The two checks a secret call begins with, read off the vault. */
  lemma ChecksMean(s: Suite, db: Db, v: Vault, call: Call, secret: Id)
    requires VaultInv(s, db, v)
    ensures var g := In(false, call.actor, call.org);
            var (role, owned) := (Services.RequireOrgRole(db, g, call.org, call.actor, Member),
                                  Services.GetOwnedSecret(db, g, secret, call.org));
            && (MayUse(db, v, call, secret) <==> role.Success? && owned.Success?)
            && (owned.Failure? ==> owned.error in {SecretNotFound, EnvironmentNotFound})
    ensures MayUse(db, v, call, secret) ==> call.actor in db.users && call.org in db.orgs && secret in v
    ensures Constraints(db)
  {
    var g := In(false, call.actor, call.org);
    hide WellFormed, KeysReady, Represented, HasRole, Services.RequireOrgRole, Services.GetOwnedSecret, Constraints;
    hide EnvironmentIn;
    assert Constraints(db) by { WellFormedIsConstrained(db); }
    RoleMeans(db, g, call.org, call.actor, Member);
    OwnedMeans(db, g, secret, call.org);
    if secret in v {
      EntryMirrorsRow(s, db, v, secret);
    }
    if HasRole(db, call.actor, call.org, Member) {
      RoleHolderIsKnown(db, call.actor, call.org, Member);
    }
  }

  lemma EntryMirrorsRow(s: Suite, db: Db, v: Vault, secret: Id)
    requires Represents(s, db.keys, db.secrets, db.versions, v) && secret in v
    ensures v[secret].env == db.secrets[secret].env && v[secret].name == db.secrets[secret].name
    ensures v[secret].deleted == db.secrets[secret].deleted && |v[secret].values| >= 1
  {
  }

  lemma RefusedEarly(s: Suite, g: Gate, db: Db, org: Id, actor: Id, secret: Id)
    requires || Services.RequireOrgRole(db, g, org, actor, Member).Failure?
             || Services.GetOwnedSecret(db, g, secret, org).Failure?
    ensures Services.GetDecryptedValue(s, g, db, org, actor, secret).Failure?
    ensures Services.GetDecryptedValue(s, g, db, org, actor, secret).error
         == if Services.RequireOrgRole(db, g, org, actor, Member).Failure?
            then Services.RequireOrgRole(db, g, org, actor, Member).error
            else Services.GetOwnedSecret(db, g, secret, org).error
  {
  }

  /** A reveal succeeds exactly for a member-or-above on a live secret of its organization, and
      returns the last value written; the only errors are the four checks that come first. */
  lemma RevealReadsLastWrite(s: Suite, enforced: bool, db: Db, v: Vault, call: Call)
    requires Authenticated(s) && VaultInv(s, db, v) && call.op.Reveal?
    ensures var r := Step(s, enforced, db, call).1;
            && (r.Success? <==> MayUse(db, v, call, call.op.secret))
            && (r.Success? ==> r.value == Services.Plaintext(v[call.op.secret].values[|v[call.op.secret].values| - 1]))
            && (r.Failure? ==> r.error in {MembershipRequired, InsufficientRole, SecretNotFound, EnvironmentNotFound})
  {
    hide Step, MayUse, WellFormed, KeysReady, Represents;
    UnenforcedReveal(s, db, v, call);
    StepAgrees(s, db, call);
  }
}
