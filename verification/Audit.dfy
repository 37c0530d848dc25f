/** The audit table against the history of reveals, and what stays true of stored versions. */
module Audit {
  import opened Prelude
  import opened Envelope
  import opened Schema
  import opened Policies
  import opened Repositories
  import Services
  import opened Calls
  import opened Effects
  import opened Frames
  import opened Reachable
  import opened Agreement
  import opened Vault
  import opened VaultRuns

  // -- Accounting ------------------------------------------------------------

  function EntriesFor(entries: seq<AuditEntry>, secret: Id): nat {
    if entries == [] then 0
    else EntriesFor(entries[..|entries| - 1], secret) + if entries[|entries| - 1].secret == secret then 1 else 0
  }

  /** How many calls of the run revealed the secret's value. */
  ghost function Reveals(s: Suite, enforced: bool, calls: seq<Call>, secret: Id): nat {
    if calls == [] then 0
    else
      var n := |calls| - 1;
      Reveals(s, enforced, calls[..n], secret)
      + if calls[n].op.Reveal? && calls[n].op.secret == secret && Succeeded(s, enforced, calls, n) then 1 else 0
  }

  /** One entry, in the caller's name, for the version whose plaintext was returned, which is
      the newest of the secret. */
  ghost predicate Recorded(s: Suite, db: Db, v: Vault, call: Call, db': Db, r: Response, version: Id)
    requires call.op.Reveal?
  {
    var secret := call.op.secret;
    && version in db.versions && secret in v
    && db'.audit == db.audit + [AuditEntry(call.org, call.actor, secret, v[secret].name, version)]
    && db.versions[version].secret == secret
    && db.versions[version].number == |v[secret].values|
    && r.Success? && r.value.Plaintext? && Holds(s, db.keys, v[secret].env, db.versions[version], r.value.text)
  }

  lemma RevealIsRecorded(s: Suite, enforced: bool, db: Db, v: Vault, call: Call)
    requires VaultInv(s, db, v) && call.op.Reveal? && Step(s, enforced, db, call).1.Success?
    ensures Recorded(s, db, v, call, Step(s, enforced, db, call).0, Step(s, enforced, db, call).1,
                     db.secrets[call.op.secret].current.value)
  {
    hide Services.GetDecryptedValue, WellFormed, KeysReady, Services.RequireOrgRole, Services.GetOwnedSecret;
    var secret := call.op.secret;
    GetDecryptedValueEffect(s, ContextOf(enforced, call), db, call.org, call.actor, secret);
    CurrentVersion(s, db, v, secret);
  }

  lemma CurrentVersion(s: Suite, db: Db, v: Vault, secret: Id)
    requires Represents(s, db.keys, db.secrets, db.versions, v) && secret in v
    ensures db.secrets[secret].current.Some? && db.secrets[secret].current.value in db.versions
    ensures var row := db.versions[db.secrets[secret].current.value];
            && row.secret == secret && row.number == |v[secret].values| && db.secrets[secret].name == v[secret].name
            && row.key in db.keys && db.keys[row.key].env == v[secret].env
  {
    assert Represented(s, db.keys, db.versions, secret, db.secrets[secret], v[secret]);
  }

  /** A successful reveal adds that entry; any other call leaves the table alone. */
  lemma OneEntryPerReveal(s: Suite, enforced: bool, db: Db, v: Vault, call: Call)
    requires VaultInv(s, db, v)
    ensures if call.op.Reveal? && Step(s, enforced, db, call).1.Success?
            then exists version ::
              Recorded(s, db, v, call, Step(s, enforced, db, call).0, Step(s, enforced, db, call).1, version)
            else Step(s, enforced, db, call).0.audit == db.audit
  {
    hide Step, VaultInv;
    if call.op.Reveal? && Step(s, enforced, db, call).1.Success? {
      RevealIsRecorded(s, enforced, db, v, call);
    } else {
      Frame(s, enforced, db, call);
      FailureKeepsState(s, enforced, db, call);
    }
  }

  lemma FailureKeepsState(s: Suite, enforced: bool, db: Db, call: Call)
    ensures Step(s, enforced, db, call).1.Failure? ==> Step(s, enforced, db, call).0 == db
  {
    hide OutcomeOf;
  }

  lemma OneMoreEntry(s: Suite, enforced: bool, db: Db, v: Vault, call: Call, secret: Id)
    requires VaultInv(s, db, v)
    ensures var db', ok := Step(s, enforced, db, call).0, Step(s, enforced, db, call).1.Success?;
            && db.audit <= db'.audit
            && EntriesFor(db'.audit, secret)
               == EntriesFor(db.audit, secret) + if call.op.Reveal? && call.op.secret == secret && ok then 1 else 0
  {
    hide Step, VaultInv, Holds;
    OneEntryPerReveal(s, enforced, db, v, call);
    var audit := Step(s, enforced, db, call).0.audit;
    if audit != db.audit {
      assert audit[..|audit| - 1] == db.audit;
    }
  }

  /** Over every run the table has one entry for a secret per successful reveal of it. */
  lemma {:induction false} AuditAccounts(s: Suite, enforced: bool, calls: seq<Call>, secret: Id)
    requires Authenticated(s)
    ensures EntriesFor(Run(s, enforced, calls).audit, secret) == Reveals(s, enforced, calls, secret)
    decreases |calls|
  {
    hide Step, VaultInv, Authenticated;
    if calls != [] {
      var before := calls[..|calls| - 1];
      AuditAccounts(s, enforced, before, secret);
      RunRefines(s, enforced, before);
      OneMoreEntry(s, enforced, Run(s, enforced, before), VaultAfter(s, enforced, before), calls[|calls| - 1], secret);
    }
  }

  /** And it only grows. */
  lemma {:induction false} AuditOnlyGrows(s: Suite, enforced: bool, calls: seq<Call>, n: nat)
    requires Authenticated(s) && n <= |calls|
    ensures Run(s, enforced, calls[..n]).audit <= Run(s, enforced, calls).audit
    decreases |calls|
  {
    hide Step, VaultInv, Authenticated;
    if n < |calls| {
      var before := calls[..|calls| - 1];
      assert before[..n] == calls[..n];
      AuditOnlyGrows(s, enforced, before, n);
      RunRefines(s, enforced, before);
      OneMoreEntry(s, enforced, Run(s, enforced, before), VaultAfter(s, enforced, before), calls[|calls| - 1], 0);
    } else {
      assert calls[..n] == calls;
    }
  }

  // -- Stored versions -------------------------------------------------------

  /** No call alters a stored version, or the wrapped DEK or environment of a stored key. */
  ghost predicate Extends(db: Db, later: Db) {
    && (forall v | v in db.versions :: v in later.versions && later.versions[v] == db.versions[v])
    && (forall k | k in db.keys ::
          k in later.keys && later.keys[k].env == db.keys[k].env && later.keys[k].wrapped == db.keys[k].wrapped)
  }

  lemma StepExtends(s: Suite, enforced: bool, db: Db, call: Call)
    ensures Extends(db, Step(s, enforced, db, call).0)
  {
    hide Step, SecretOutcome, EnvironmentOutcome;
    if call.op.CreateSecret? || call.op.AddNewVersion? {
      SecretStep(s, enforced, db, call);
      SecretOutcomeExtends(s, ContextOf(enforced, call), db, call);
    } else if call.op.CreateEnvironment? || call.op.SwitchActiveKey? {
      EnvironmentStep(s, enforced, db, call);
      EnvironmentOutcomeExtends(s, ContextOf(enforced, call), db, call);
    } else {
      UntouchedVersions(s, enforced, db, call);
    }
  }

  lemma SecretOutcomeExtends(s: Suite, g: Gate, db: Db, call: Call)
    requires call.op.CreateSecret? || call.op.AddNewVersion?
    ensures var r := SecretOutcome(s, g, db, call.org, call.actor, call.op); r.Success? ==> Extends(db, r.value.0)
  {
    hide Services.CreateSecret, Services.AddNewVersion, Services.PrepareVersion, Services.RequireOrgRole, KeyPolicy;
    var (org, actor, op) := (call.org, call.actor, call.op);
    if SecretOutcome(s, g, db, org, actor, op).Success? {
      if op.CreateSecret? {
        var _, _ := CreateSecretEffect(s, g, db, org, actor, op.env, op.name, op.plain, op.iv, op.secretId,
                                       op.versionId);
      } else {
        AddNewVersionEffect(s, g, db, org, actor, op.secret, op.plain, op.iv, op.versionId);
      }
    }
  }

  lemma EnvironmentOutcomeExtends(s: Suite, g: Gate, db: Db, call: Call)
    requires call.op.CreateEnvironment? || call.op.SwitchActiveKey?
    ensures var r := EnvironmentOutcome(s, g, db, call.org, call.actor, call.op);
            r.Success? ==> Extends(db, r.value.0)
  {
    hide Services.CreateEnvironment, Services.SwitchActiveKey, Services.RequireOrgRole;
    var (org, actor, op) := (call.org, call.actor, call.op);
    if EnvironmentOutcome(s, g, db, org, actor, op).Success? {
      if op.CreateEnvironment? {
        CreateEnvironmentEffect(s, g, db, org, actor, op.project, op.envName, op.envId, op.keyId, op.dek, op.nonce);
      } else {
        SwitchActiveKeyEffect(s, db, op.env, op.keyId, op.keyVersion, op.dek, op.nonce);
      }
    }
  }

  lemma UntouchedVersions(s: Suite, enforced: bool, db: Db, call: Call)
    requires !call.op.CreateSecret? && !call.op.AddNewVersion? && !call.op.CreateEnvironment?
    requires !call.op.SwitchActiveKey?
    ensures Step(s, enforced, db, call).0.versions == db.versions && Step(s, enforced, db, call).0.keys == db.keys
  {
    hide Step;
    Frame(s, enforced, db, call);
  }

  lemma {:induction false} RunExtends(s: Suite, enforced: bool, calls: seq<Call>, n: nat)
    requires n <= |calls|
    ensures Extends(Run(s, enforced, calls[..n]), Run(s, enforced, calls))
    decreases |calls|
  {
    hide Step;
    if n < |calls| {
      var last := |calls| - 1;
      assert calls[..last][..n] == calls[..n];
      RunExtends(s, enforced, calls[..last], n);
      StepExtends(s, enforced, Run(s, enforced, calls[..last]), calls[last]);
    } else {
      assert calls[..n] == calls;
    }
  }

  /** Whatever follows, switches of the active key included, a stored version still decrypts,
      under the key it names, to what it did; and no two versions share key and IV. */
  lemma StoredVersionsStayReadable(s: Suite, enforced: bool, calls: seq<Call>, n: nat, version: Id)
    requires Authenticated(s) && n <= |calls| && version in Run(s, enforced, calls[..n]).versions
    ensures version in Run(s, enforced, calls).versions
    ensures var (past, now) := (Run(s, enforced, calls[..n]), Run(s, enforced, calls));
            var row := past.versions[version];
            && now.versions[version] == row && row.key in past.keys && row.key in now.keys
            && DecryptSecret(s, row.value, row.iv, past.keys[row.key].wrapped).Success?
            && DecryptSecret(s, row.value, row.iv, now.keys[row.key].wrapped)
               == DecryptSecret(s, row.value, row.iv, past.keys[row.key].wrapped)
    ensures var now := Run(s, enforced, calls);
            forall v | v in now.versions && now.versions[v].key == now.versions[version].key
                       && now.versions[v].iv == now.versions[version].iv :: v == version
  {
    hide Step, Run, Authenticated, KeysReady, DecryptSecret, Constraints;
    RunExtends(s, enforced, calls, n);
    RunRefines(s, enforced, calls[..n]);
    RunIsWellFormed(s, enforced, calls);
    KeyAndIvDetermine(Run(s, enforced, calls), version);
    var (past, v) := (Run(s, enforced, calls[..n]), VaultAfter(s, enforced, calls[..n]));
    VersionsHaveSecrets(past);
    StoredDecrypts(s, past, v, version);
  }

  predicate WritesVersion(op: Op) {
    op.CreateSecret? || op.AddNewVersion?
  }

  function SecretOf(op: Op): Id
    requires WritesVersion(op)
  {
    if op.CreateSecret? then op.secretId else op.secret
  }

  lemma PointsToItsVersion(s: Suite, enforced: bool, db: Db, call: Call)
    requires WritesVersion(call.op) && Step(s, enforced, db, call).1.Success?
    ensures var db' := Step(s, enforced, db, call).0;
            SecretOf(call.op) in db'.secrets && db'.secrets[SecretOf(call.op)].current == Some(call.op.versionId)
  {
    hide Services.CreateSecret, Services.AddNewVersion, Services.RequireOrgRole, Services.PrepareVersion, Step;
    hide Services.ListSecrets, Services.GetDecryptedValue, Services.DeleteSecret;
    var (g, op, org, actor) := (ContextOf(enforced, call), call.op, call.org, call.actor);
    SecretStep(s, enforced, db, call);
    if op.CreateSecret? {
      var _, _ := CreateSecretEffect(s, g, db, org, actor, op.env, op.name, op.plain, op.iv, op.secretId, op.versionId);
    } else {
      AddNewVersionEffect(s, g, db, org, actor, op.secret, op.plain, op.iv, op.versionId);
    }
  }

  /** The version a secret points to holds the last value of its list. */
  lemma CurrentHoldsLast(s: Suite, db: Db, v: Vault, secret: Id)
    requires Represents(s, db.keys, db.secrets, db.versions, v) && secret in v
    ensures var e := v[secret];
            && |e.values| >= 1 && secret in db.secrets && db.secrets[secret].current.Some?
            && db.secrets[secret].current.value in db.versions
            && Holds(s, db.keys, e.env, db.versions[db.secrets[secret].current.value], e.values[|e.values| - 1])
  {
    hide DecryptSecret;
    assert Represented(s, db.keys, db.versions, secret, db.secrets[secret], v[secret]);
  }

  /** Whatever follows a successful write, the version it made decrypts, under the key it names,
      to the very text that was written. */
  lemma WrittenVersionsDecrypt(s: Suite, enforced: bool, calls: seq<Call>, i: nat)
    requires Authenticated(s) && i < |calls| && WritesVersion(calls[i].op) && Succeeded(s, enforced, calls, i)
    ensures var (now, op) := (Run(s, enforced, calls), calls[i].op);
            && op.versionId in now.versions
            && var row := now.versions[op.versionId];
               && row.key in now.keys
               && DecryptSecret(s, row.value, row.iv, now.keys[row.key].wrapped) == Success(op.plain)
  {
    hide Step, Authenticated, KeysReady, DecryptSecret, WellFormed, Represents;
    var (before, past) := (calls[..i], calls[..i + 1]);
    assert past[..i] == before;
    RunRefines(s, enforced, before);
    RunRefines(s, enforced, past);
    RunExtends(s, enforced, calls, i + 1);
    var (db, v) := (Run(s, enforced, past), VaultAfter(s, enforced, past));
    PointsToItsVersion(s, enforced, Run(s, enforced, before), calls[i]);
    StepGrowsSecret(s, enforced, Run(s, enforced, before), VaultAfter(s, enforced, before), calls[i]);
    hide Run, VaultAfter;
    CurrentHoldsLast(s, db, v, SecretOf(calls[i].op));
  }

  lemma StepGrowsSecret(s: Suite, enforced: bool, db: Db, v: Vault, call: Call)
    requires VaultInv(s, db, v) && WritesVersion(call.op) && Step(s, enforced, db, call).1.Success?
    ensures var w := VaultStep(v, call, Step(s, enforced, db, call).1);
            && SecretOf(call.op) in w && |w[SecretOf(call.op)].values| >= 1
            && w[SecretOf(call.op)].values[|w[SecretOf(call.op)].values| - 1] == call.op.plain
  {
    hide Step, Services.AddNewVersion, Services.RequireOrgRole, Services.PrepareVersion, WellFormed, KeysReady;
    hide Represented;
    if call.op.AddNewVersion? {
      SecretStep(s, enforced, db, call);
      AddNewVersionEffect(s, ContextOf(enforced, call), db, call.org, call.actor, call.op.secret, call.op.plain,
                          call.op.iv, call.op.versionId);
    }
  }

  lemma StoredDecrypts(s: Suite, db: Db, v: Vault, version: Id)
    requires Represents(s, db.keys, db.secrets, db.versions, v)
    requires version in db.versions && db.versions[version].secret in db.secrets
    ensures var row := db.versions[version];
            row.key in db.keys && DecryptSecret(s, row.value, row.iv, db.keys[row.key].wrapped).Success?
  {
    hide DecryptSecret;
    var secret := db.versions[version].secret;
    assert Represented(s, db.keys, db.versions, secret, db.secrets[secret], v[secret]);
    assert Holds(s, db.keys, v[secret].env, db.versions[version], v[secret].values[db.versions[version].number - 1]);
  }

  lemma KeyAndIvDetermine(db: Db, version: Id)
    requires Constraints(db) && version in db.versions
    ensures forall v | v in db.versions && db.versions[v].key == db.versions[version].key
                       && db.versions[v].iv == db.versions[version].iv :: v == version
  {
  }
}
