/**
 Exactly when a write to the vault succeeds, and with which exception it fails when it does
 not: no other branch of the writers can be reached from a reachable state.
 */
module Writes {
  import opened Prelude
  import opened Envelope
  import opened Schema
  import opened Policies
  import opened Repositories
  import Services
  import opened Calls
  import opened Effects
  import opened Reachable
  import opened Agreement
  import opened Vault

  /** The name was given out in the environment before, to a secret that is still live or not. */
  ghost predicate NameUsed(v: Vault, env: Id, name: string, live: bool) {
    exists i :: i in v && v[i].env == env && v[i].name == name && (live ==> !v[i].deleted)
  }

  /** The IV was used before under the environment's active key. */
  ghost predicate IvUsed(db: Db, env: Id, iv: Nonce) {
    exists k, i :: k in db.keys && db.keys[k].env == env && db.keys[k].active
                   && i in db.versions && db.versions[i].key == k && db.versions[i].iv == iv
  }

  lemma NamesInTables(s: Suite, db: Db, v: Vault, g: Gate, env: Id, name: string)
    requires Represents(s, db.keys, db.secrets, db.versions, v) && !g.enforced
    ensures NameUsed(v, env, name, true) <==> LiveSecretsByName(db, g, env, name) != {}
    ensures NameUsed(v, env, name, false) <==> SecretNameTaken(db, env, name)
  {
    hide Represented;
    forall i | i in v
      ensures v[i].env == db.secrets[i].env && v[i].name == db.secrets[i].name && v[i].deleted == db.secrets[i].deleted
    {
      EntryMirrorsRow(s, db, v, i);
    }
    if NameUsed(v, env, name, true) {
      var i :| i in v && v[i].env == env && v[i].name == name && !v[i].deleted;
      assert i in LiveSecretsByName(db, g, env, name);
    }
    if LiveSecretsByName(db, g, env, name) != {} {
      var i :| i in LiveSecretsByName(db, g, env, name);
      assert i in v;
    }
  }

  /** The one active key of an environment, usable. */
  lemma ActiveKey(s: Suite, db: Db, g: Gate, env: Id, iv: Nonce)
    requires Constraints(db) && KeysReady(s, db.keys, db.environments.Keys) && env in db.environments && !g.enforced
    ensures var key := Pick(ActiveKeys(db, g, env));
            && key.Some? && key.value in db.keys && Usable(s, db.keys[key.value].wrapped)
            && (IvUsed(db, env, iv) <==> KeyIvTaken(db, key.value, iv))
  {
    hide Usable;
    var k :| k in db.keys && db.keys[k].env == env && db.keys[k].active;
    assert k in ActiveKeys(db, g, env);
  }

  lemma ResolveMeans(db: Db, g: Gate, env: Id, org: Id)
    requires !g.enforced
    ensures var r := Services.ResolveEnvironmentOrg(db, g, env, org);
            r == if EnvironmentIn(db, env, org) then Success(()) else Failure(EnvironmentNotFound)
  {
  }

  // -- create_secret ---------------------------------------------------------

  ghost predicate CreateAnswers(db: Db, v: Vault, call: Call, r: Response)
    requires call.op.CreateSecret?
  {
    var op := call.op;
    if !HasRole(db, call.actor, call.org, Member) then r == Failure(RoleError(db, call.actor, call.org))
    else if !EnvironmentIn(db, op.env, call.org) then r == Failure(EnvironmentNotFound)
    else if NameUsed(v, op.env, op.name, true) then r == Failure(SecretAlreadyExists)
    else if NameUsed(v, op.env, op.name, false) || op.secretId in db.secrets || op.versionId in db.versions
            || IvUsed(db, op.env, op.iv)
    then r == Failure(IntegrityError)
    else r == Success(Services.Created(op.secretId))
  }

  lemma FirstVersionInserts(db: Db, g: Gate, id: Id, row: Secret, versionId: Id, version: SecretVersion)
    requires Constraints(db) && !g.enforced && id !in db.secrets && version.secret == id && row.current.None?
    requires version.key in db.keys && version.createdBy in db.users
    ensures var r := Services.FinishVersion(g, db.(secrets := db.secrets[id := row]), versionId, version);
            if versionId in db.versions || KeyIvTaken(db, version.key, version.iv) then r == Failure(IntegrityError)
            else r.Success?
  {
    var db1 := db.(secrets := db.secrets[id := row]);
    assert !VersionNumberTaken(db1, id, version.number);
    FinishesOrCollides(db1, g, versionId, version);
  }

  lemma FinishesOrCollides(db: Db, g: Gate, versionId: Id, row: SecretVersion)
    requires CurrentPointersValid(db.secrets, db.versions) && !g.enforced
    requires row.secret in db.secrets && row.key in db.keys && row.createdBy in db.users
    requires !VersionNumberTaken(db, row.secret, row.number)
    ensures var r := Services.FinishVersion(g, db, versionId, row);
            if versionId in db.versions || KeyIvTaken(db, row.key, row.iv) then r == Failure(IntegrityError)
            else r.Success?
  {
    hide VersionNumberTaken, KeyIvTaken, SecretPolicy;
    OpenPolicies(db.(versions := db.versions[versionId := row]), g);
  }

  lemma UnenforcedCreate(s: Suite, db: Db, v: Vault, call: Call)
    requires Authenticated(s) && VaultInv(s, db, v) && call.op.CreateSecret?
    ensures CreateAnswers(db, v, call, Step(s, false, db, call).1)
  {
    var (g, org, actor, op) := (ContextOf(false, call), call.org, call.actor, call.op);
    hide Authenticated, WellFormed, KeysReady, Represents, HasRole, NameUsed, IvUsed, Services.FinishVersion, RoleError;
    hide Services.RequireOrgRole, Services.ResolveEnvironmentOrg, LiveSecretsByName, ActiveKeys, Constraints;
    hide KeyIvTaken;
    hide EncryptSecret, Usable, SecretNameTaken;
    assert Constraints(db) by { WellFormedIsConstrained(db); }
    RoleMeans(db, g, org, actor, Member);
    ResolveMeans(db, g, op.env, org);
    if HasRole(db, actor, org, Member) && EnvironmentIn(db, op.env, org) {
      RoleHolderIsKnown(db, actor, org, Member);
      NamesInTables(s, db, v, g, op.env, op.name);
      ActiveKey(s, db, g, op.env, op.iv);
      var key := Pick(ActiveKeys(db, g, op.env)).value;
      EnvelopeRoundTrip(s, op.plain, op.iv, db.keys[key].wrapped);
      var value := EncryptSecret(s, op.plain, op.iv, db.keys[key].wrapped).value;
      if op.secretId !in db.secrets {
        FirstVersionInserts(db, g, op.secretId, Secret(op.env, op.name, None, false), op.versionId,
                            SecretVersion(op.secretId, key, value, op.iv, 1, actor));
      }
      LiveNamesAreTaken(v, op.env, op.name);
    }
  }

  lemma LiveNamesAreTaken(v: Vault, env: Id, name: string)
    ensures NameUsed(v, env, name, true) ==> NameUsed(v, env, name, false)
  {
  }

  /** Creating a secret, from any reachable state: each answer and exactly when it is given. In
      particular a name once given to a secret, even one deleted since, is never accepted again,
      and a deleted one fails on the constraint instead of the pre-check. */
  lemma CreateSecretAnswers(s: Suite, enforced: bool, db: Db, v: Vault, call: Call)
    requires Authenticated(s) && VaultInv(s, db, v) && call.op.CreateSecret?
    ensures CreateAnswers(db, v, call, Step(s, enforced, db, call).1)
  {
    hide Services.CreateSecret, WellFormed, KeysReady, Represents, HasRole, NameUsed, IvUsed, EnvironmentIn;
    var op := call.op;
    UnenforcedCreate(s, db, v, call);
    CreateSecretAgrees(s, db, call.org, call.actor, op.env, op.name, op.plain, op.iv, op.secretId, op.versionId);
  }

  // -- Calls on a secret the caller may not use -------------------------------

  predicate OnSecret(op: Op) {
    op.AddNewVersion? || op.Reveal? || op.DeleteSecret?
  }

  /** Which exception turns the caller away. Policies hide a foreign secret; without them the
      service finds it and misses its environment. */
  ghost function UseError(enforced: bool, db: Db, v: Vault, call: Call, secret: Id): Error {
    if !HasRole(db, call.actor, call.org, Member) then RoleError(db, call.actor, call.org)
    else if enforced || secret !in v || v[secret].deleted then SecretNotFound
    else EnvironmentNotFound
  }

  lemma ChecksComeFirst(s: Suite, g: Gate, db: Db, org: Id, actor: Id, op: Op)
    requires OnSecret(op)
    ensures var role := Services.RequireOrgRole(db, g, org, actor, Member);
            var owned := Services.GetOwnedSecret(db, g, op.secret, org);
            && (role.Failure? ==> SecretOutcome(s, g, db, org, actor, op) == Failure(role.error))
            && (role.Success? && owned.Failure? ==> SecretOutcome(s, g, db, org, actor, op) == Failure(owned.error))
  {
    hide Services.RequireOrgRole, Services.GetOwnedSecret;
  }

  lemma OwnedError(enforced: bool, db: Db, actor: Id, org: Id, secret: Id)
    requires IsMember(db, actor, org)
    requires !(secret in db.secrets && !db.secrets[secret].deleted && EnvironmentIn(db, db.secrets[secret].env, org))
    ensures Services.GetOwnedSecret(db, In(enforced, actor, org), secret, org)
         == Failure(if enforced || secret !in db.secrets || db.secrets[secret].deleted then SecretNotFound
                    else EnvironmentNotFound)
  {
    if enforced {
      MemberView(db, db, actor, org);
      hide IsMember;
    }
  }

  lemma RoleHolderIsMember(db: Db, actor: Id, org: Id, minimum: Role)
    ensures HasRole(db, actor, org, minimum) ==> IsMember(db, actor, org)
  {
  }

  /** A new version, a reveal or a deletion by someone who may not use the secret changes nothing
      and raises exactly that. */
  lemma RefusalIsExact(s: Suite, enforced: bool, db: Db, v: Vault, call: Call)
    requires VaultInv(s, db, v) && OnSecret(call.op) && !MayUse(db, v, call, call.op.secret)
    ensures Step(s, enforced, db, call) == (db, Failure(UseError(enforced, db, v, call, call.op.secret)))
  {
    hide Step, WellFormed, KeysReady, Represented, HasRole, RoleError, IsMember, EnvironmentIn, SecretOutcome;
    hide Services.RequireOrgRole, Services.GetOwnedSecret;
    var (org, actor, secret) := (call.org, call.actor, call.op.secret);
    assert Constraints(db) by { WellFormedIsConstrained(db); }
    hide Constraints;
    SecretStep(s, enforced, db, call);
    ChecksComeFirst(s, In(enforced, actor, org), db, org, actor, call.op);
    RoleMeans(db, In(false, actor, org), org, actor, Member);
    RoleAgrees(db, actor, org, Member);
    if secret in v {
      EntryMirrorsRow(s, db, v, secret);
    }
    RoleHolderIsMember(db, actor, org, Member);
    if HasRole(db, actor, org, Member) {
      OwnedError(enforced, db, actor, org, secret);
    }
  }

  // -- add_new_version and delete_secret -------------------------------------

  ghost predicate AddAnswers(enforced: bool, db: Db, v: Vault, call: Call, r: Response)
    requires call.op.AddNewVersion?
  {
    var op := call.op;
    if !MayUse(db, v, call, op.secret) then r == Failure(UseError(enforced, db, v, call, op.secret))
    else if op.versionId in db.versions || IvUsed(db, v[op.secret].env, op.iv) then r == Failure(IntegrityError)
    else r == Success(Services.Created(op.versionId))
  }

  lemma NextIsFree(s: Suite, db: Db, v: Vault, g: Gate, secret: Id)
    requires VaultInv(s, db, v) && secret in v && !g.enforced
    ensures !VersionNumberTaken(db, secret, Services.NextVersionNumber(db, g, secret))
  {
    hide WellFormed, KeysReady, Holds;
    NextNumber(s, db, v, g, secret);
    assert Represented(s, db.keys, db.versions, secret, db.secrets[secret], v[secret]);
  }

  lemma UnenforcedAdd(s: Suite, db: Db, v: Vault, call: Call)
    requires Authenticated(s) && VaultInv(s, db, v) && call.op.AddNewVersion?
    ensures AddAnswers(false, db, v, call, Step(s, false, db, call).1)
  {
    var (g, org, actor, op) := (ContextOf(false, call), call.org, call.actor, call.op);
    hide Authenticated, WellFormed, KeysReady, Represented, HasRole, IvUsed, Services.FinishVersion, VersionNumberTaken;
    hide Services.RequireOrgRole, Services.GetOwnedSecret, ActiveKeys, Constraints, KeyIvTaken, EncryptSecret, Usable;
    hide Services.NextVersionNumber, EnvironmentIn, CurrentPointersValid;
    hide UseError;
    if !MayUse(db, v, call, call.op.secret) {
      RefusalIsExact(s, false, db, v, call);
      return;
    }
    assert Constraints(db) by { WellFormedIsConstrained(db); }
    RoleMeans(db, g, org, actor, Member);
    OwnedMeans(db, g, op.secret, org);
    if op.secret in v {
      EntryMirrorsRow(s, db, v, op.secret);
    }
    if MayUse(db, v, call, op.secret) {
      var env := v[op.secret].env;
      RoleHolderIsKnown(db, actor, org, Member);
      ParentsExist(db, env, org);
      ActiveKey(s, db, g, env, op.iv);
      var key := Pick(ActiveKeys(db, g, env)).value;
      EnvelopeRoundTrip(s, op.plain, op.iv, db.keys[key].wrapped);
      NextIsFree(s, db, v, g, op.secret);
      PointersHold(db);
      FinishesOrCollides(db, g, op.versionId,
        SecretVersion(op.secret, key, EncryptSecret(s, op.plain, op.iv, db.keys[key].wrapped).value, op.iv,
                      Services.NextVersionNumber(db, g, op.secret), actor));
    }
  }

  lemma ParentsExist(db: Db, env: Id, org: Id)
    requires EnvironmentIn(db, env, org)
    ensures env in db.environments
  {
  }

  /** Adding a version fails only on the role, the secret or a collision of the drawn id or IV. */
  lemma AddNewVersionAnswers(s: Suite, enforced: bool, db: Db, v: Vault, call: Call)
    requires Authenticated(s) && VaultInv(s, db, v) && call.op.AddNewVersion?
    ensures AddAnswers(enforced, db, v, call, Step(s, enforced, db, call).1)
  {
    hide Step, WellFormed, KeysReady, Represents, MayUse, IvUsed, UseError;
    UnenforcedAdd(s, db, v, call);
    StepAgrees(s, db, call);
    if !MayUse(db, v, call, call.op.secret) {
      RefusalIsExact(s, enforced, db, v, call);
    }
    assert MayUse(db, v, call, call.op.secret) ==> call.op.secret in v by {
      UsableIsThere(db, v, call, call.op.secret);
    }
  }

  lemma UsableIsThere(db: Db, v: Vault, call: Call, secret: Id)
    ensures MayUse(db, v, call, secret) ==> secret in v
  {
  }

  lemma SoftDeleteCommits(db: Db, g: Gate, secret: Id)
    requires Constraints(db) && !g.enforced && secret in db.secrets
    ensures SoftDelete(db, g, secret).Success? && Commit(SoftDelete(db, g, secret).value).Success?
  {
    hide TableConstraints;
  }

  lemma CheckedDeletesSucceed(db: Db, g: Gate, org: Id, actor: Id, secret: Id)
    requires Constraints(db) && !g.enforced
    ensures var r := Services.DeleteSecret(g, db, org, actor, secret);
            && (r.Success? <==>
                  && Services.RequireOrgRole(db, g, org, actor, Member).Success?
                  && Services.GetOwnedSecret(db, g, secret, org).Success?)
            && (r.Success? ==> r.value.1 == Services.Done)
  {
    OwnedMeans(db, g, secret, org);
    hide Services.RequireOrgRole, Services.GetOwnedSecret, EnvironmentIn, Constraints;
    if secret in db.secrets {
      SoftDeleteCommits(db, g, secret);
    }
    hide SoftDelete, Commit;
  }

  lemma UnenforcedDelete(s: Suite, db: Db, v: Vault, call: Call)
    requires VaultInv(s, db, v) && call.op.DeleteSecret?
    ensures MayUse(db, v, call, call.op.secret) ==> Step(s, false, db, call).1 == Success(Services.Done)
    ensures Step(s, false, db, call).1.Success? ==> MayUse(db, v, call, call.op.secret)
  {
    hide VaultInv, MayUse, Services.DeleteSecret, Services.RequireOrgRole, Services.GetOwnedSecret, Step, Constraints;
    hide Services.CreateSecret, Services.AddNewVersion, Services.ListSecrets, Services.GetDecryptedValue;
    var (g, org, actor, secret) := (In(false, call.actor, call.org), call.org, call.actor, call.op.secret);
    SecretStep(s, false, db, call);
    ChecksMean(s, db, v, call, secret);
    CheckedDeletesSucceed(db, g, org, actor, secret);
  }

  /** Deleting succeeds for whoever may use the secret, and for nobody else. */
  lemma DeleteSecretAnswers(s: Suite, enforced: bool, db: Db, v: Vault, call: Call)
    requires VaultInv(s, db, v) && call.op.DeleteSecret?
    ensures Step(s, enforced, db, call).1
         == if MayUse(db, v, call, call.op.secret) then Success(Services.Done)
            else Failure(UseError(enforced, db, v, call, call.op.secret))
  {
    hide Step, WellFormed, KeysReady, Represents, MayUse, UseError;
    UnenforcedDelete(s, db, v, call);
    StepAgrees(s, db, call);
    if !MayUse(db, v, call, call.op.secret) {
      RefusalIsExact(s, enforced, db, v, call);
    }
  }

  /** Revealing answers the last value written, or the exception of the check that fails. */
  lemma RevealAnswers(s: Suite, enforced: bool, db: Db, v: Vault, call: Call)
    requires Authenticated(s) && VaultInv(s, db, v) && call.op.Reveal?
    ensures Step(s, enforced, db, call).1
         == if MayUse(db, v, call, call.op.secret)
            then (var values := v[call.op.secret].values; Success(Services.Plaintext(values[|values| - 1])))
            else Failure(UseError(enforced, db, v, call, call.op.secret))
  {
    hide Step, WellFormed, KeysReady, Represented, UseError, HasRole, EnvironmentIn, Authenticated;
    RevealReadsLastWrite(s, enforced, db, v, call);
    if !MayUse(db, v, call, call.op.secret) {
      RefusalIsExact(s, enforced, db, v, call);
    } else {
      EntryMirrorsRow(s, db, v, call.op.secret);
    }
  }
}
