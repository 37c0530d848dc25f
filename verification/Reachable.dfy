/** What holds of every state a run of calls reaches. */
module Reachable {
  import opened Prelude
  import opened Envelope
  import opened Schema
  import opened Policies
  import opened Repositories
  import Services
  import opened Calls
  import opened Integrity
  import opened Effects
  import opened Frames

  /** A version is written under a key of its secret's environment; no constraint says so. */
  ghost predicate KeysFollowSecrets(
    keys: map<Id, EncryptionKey>, secrets: map<Id, Secret>, versions: map<Id, SecretVersion>)
  {
    forall v | v in versions && versions[v].secret in secrets && versions[v].key in keys ::
      keys[versions[v].key].env == secrets[versions[v].secret].env
  }

  ghost predicate WellFormed(db: Db) {
    Constraints(db) && KeysFollowSecrets(db.keys, db.secrets, db.versions)
  }

  /** A version's key exists, so no key added later can be taken for it. */
  ghost predicate FollowsAndBelongs(
    keys: map<Id, EncryptionKey>, secrets: map<Id, Secret>, versions: map<Id, SecretVersion>)
  {
    && KeysFollowSecrets(keys, secrets, versions)
    && forall v | v in versions :: versions[v].key in keys
  }

  lemma KeysChange(keys: map<Id, EncryptionKey>, keys': map<Id, EncryptionKey>, secrets: map<Id, Secret>,
                   versions: map<Id, SecretVersion>)
    requires FollowsAndBelongs(keys, secrets, versions)
    requires forall k | k in keys :: k in keys' && keys'[k].env == keys[k].env
    ensures KeysFollowSecrets(keys', secrets, versions)
  {
  }

  lemma NewVersionFollows(db: Db, secrets: map<Id, Secret>, id: Id, row: SecretVersion)
    requires WellFormed(db)
    requires db.secrets.Keys <= secrets.Keys && forall i | i in db.secrets :: secrets[i].env == db.secrets[i].env
    requires row.secret in secrets && row.key in db.keys && db.keys[row.key].env == secrets[row.secret].env
    ensures KeysFollowSecrets(db.keys, secrets, db.versions[id := row])
  {
  }

  lemma SecretOutcomeFollows(s: Suite, g: Gate, db: Db, org: Id, actor: Id, op: Op)
    requires WellFormed(db) && OnSecrets(op)
    ensures var r := SecretOutcome(s, g, db, org, actor, op);
            r.Success? ==> KeysFollowSecrets(r.value.0.keys, r.value.0.secrets, r.value.0.versions)
  {
    hide Services.CreateSecret, Services.AddNewVersion, Services.GetDecryptedValue, Services.DeleteSecret, Constraints;
    hide KeyPolicy, Services.PrepareVersion;
    match op
    case CreateSecret(env, name, plain, iv, id, versionId) =>
      if Services.CreateSecret(s, g, db, org, actor, env, name, plain, iv, id, versionId).Success? {
        var key, value := CreateSecretEffect(s, g, db, org, actor, env, name, plain, iv, id, versionId);
        NewVersionFollows(db, db.secrets[id := Secret(env, name, Some(versionId), false)], versionId,
                          SecretVersion(id, key, value, iv, 1, actor));
      }
    case AddNewVersion(secret, plain, iv, versionId) =>
      if Services.AddNewVersion(s, g, db, org, actor, secret, plain, iv, versionId).Success? {
        AddNewVersionEffect(s, g, db, org, actor, secret, plain, iv, versionId);
        PrepareVersionEffect(s, g, db, org, actor, secret, plain, iv);
        NewVersionFollows(db, db.secrets[secret := db.secrets[secret].(current := Some(versionId))], versionId,
                          Services.PrepareVersion(s, g, db, org, actor, secret, plain, iv).value);
      }
    case DeleteSecret(secret) =>
      if Services.DeleteSecret(g, db, org, actor, secret).Success? { DeleteSecretEffect(g, db, org, actor, secret); }
    case Reveal(secret) =>
      if Services.GetDecryptedValue(s, g, db, org, actor, secret).Success? {
        GetDecryptedValueEffect(s, g, db, org, actor, secret);
      }
    case ListSecrets(env) =>
  }

  lemma EnvironmentOutcomeFollows(s: Suite, g: Gate, db: Db, org: Id, actor: Id, op: Op)
    requires WellFormed(db) && OnEnvironments(op)
    ensures var r := EnvironmentOutcome(s, g, db, org, actor, op);
            r.Success? ==> KeysFollowSecrets(r.value.0.keys, r.value.0.secrets, r.value.0.versions)
  {
    hide Services.CreateEnvironment, Services.SwitchActiveKey, Services.ListEnvironments, Services.GetEnvironmentFor;
    assert FollowsAndBelongs(db.keys, db.secrets, db.versions);
    hide Constraints, Services.RequireOrgRole, KeysFollowSecrets, FollowsAndBelongs, ProjectIn;
    match op
    case CreateEnvironment(project, name, id, keyId, dek, nonce) =>
      if Services.CreateEnvironment(s, g, db, org, actor, project, name, id, keyId, dek, nonce).Success? {
        CreateEnvironmentEffect(s, g, db, org, actor, project, name, id, keyId, dek, nonce);
        KeysChange(db.keys, db.keys[keyId := EncryptionKey(id, CreateWrappedDek(s, dek, nonce), 1, true)], db.secrets,
                   db.versions);
      }
    case SwitchActiveKey(env, keyId, keyVersion, dek, nonce) =>
      if Services.SwitchActiveKey(s, db, env, keyId, keyVersion, dek, nonce).Success? {
        SwitchActiveKeyEffect(s, db, env, keyId, keyVersion, dek, nonce);
        KeysChange(db.keys, Services.SwitchActiveKey(s, db, env, keyId, keyVersion, dek, nonce).value.0.keys,
                   db.secrets, db.versions);
      }
    case ListEnvironments(project) => EnvironmentReadsEffect(g, db, org, actor, project);
    case GetEnvironment(env) => EnvironmentReadsEffect(g, db, org, actor, env);
  }

  lemma StepKeepsWellFormed(s: Suite, enforced: bool, db: Db, call: Call)
    requires WellFormed(db)
    ensures WellFormed(Step(s, enforced, db, call).0)
  {
    hide Constraints, KeysFollowSecrets, SecretOutcome, EnvironmentOutcome, ProjectOutcome, MemberOutcome;
    hide AccountOutcome;
    StepKeepsConstraints(s, enforced, db, call);
    Frame(s, enforced, db, call);
    var g := ContextOf(enforced, call);
    if OnSecrets(call.op) {
      SecretOutcomeFollows(s, g, db, call.org, call.actor, call.op);
    } else if OnEnvironments(call.op) {
      EnvironmentOutcomeFollows(s, g, db, call.org, call.actor, call.op);
    }
  }

  lemma {:induction false} RunIsWellFormed(s: Suite, enforced: bool, calls: seq<Call>)
    ensures WellFormed(Run(s, enforced, calls))
  {
    hide Step;
    if calls != [] {
      RunIsWellFormed(s, enforced, calls[..|calls| - 1]);
      StepKeepsWellFormed(s, enforced, Run(s, enforced, calls[..|calls| - 1]), calls[|calls| - 1]);
    }
  }
}
