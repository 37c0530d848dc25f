/** The refinement over whole runs, read as statements about the history of calls and answers. */
module VaultRuns {
  import opened Prelude
  import opened Envelope
  import opened Schema
  import opened Policies
  import opened Repositories
  import Services
  import opened Calls
  import opened Effects
  import opened Frames
  import opened Reachable
  import opened Agreement
  import opened Vault
  import opened Reads

  /** The abstract vault after a run, computed from the calls and their answers. */
  ghost function VaultAfter(s: Suite, enforced: bool, calls: seq<Call>): Vault {
    if calls == [] then map[]
    else
      var last := |calls| - 1;
      VaultStep(VaultAfter(s, enforced, calls[..last]), calls[last], ResponseAt(s, enforced, calls, last))
  }

  /** Every reachable state represents the vault of its history. */
  lemma {:induction false} RunRefines(s: Suite, enforced: bool, calls: seq<Call>)
    requires Authenticated(s)
    ensures VaultInv(s, Run(s, enforced, calls), VaultAfter(s, enforced, calls))
  {
    if calls == [] {
      assert VaultInv(s, EMPTY_DB, map[]);
    } else {
      hide Step, VaultInv, VaultStep, Authenticated;
      var before := calls[..|calls| - 1];
      RunRefines(s, enforced, before);
      StepRefines(s, enforced, Run(s, enforced, before), VaultAfter(s, enforced, before), calls[|calls| - 1]);
    }
  }

  // -- Histories -------------------------------------------------------------

  ghost predicate Succeeded(s: Suite, enforced: bool, calls: seq<Call>, i: nat)
    requires i < |calls|
  {
    ResponseAt(s, enforced, calls, i).Success?
  }

  /** The i-th call of the run wrote this plaintext to the secret. */
  ghost predicate Wrote(s: Suite, enforced: bool, calls: seq<Call>, i: nat, secret: Id, plain: string)
    requires i < |calls|
  {
    var op := calls[i].op;
    && Succeeded(s, enforced, calls, i)
    && ((op.CreateSecret? && op.secretId == secret && op.plain == plain)
        || (op.AddNewVersion? && op.secret == secret && op.plain == plain))
  }

  ghost predicate Deleted(s: Suite, enforced: bool, calls: seq<Call>, i: nat, secret: Id)
    requires i < |calls|
  {
    Succeeded(s, enforced, calls, i) && calls[i].op.DeleteSecret? && calls[i].op.secret == secret
  }

  /** The i-th call created this secret. */
  ghost predicate CreatedAt(s: Suite, enforced: bool, calls: seq<Call>, i: nat, secret: Id, env: Id, name: string)
    requires i < |calls|
  {
    var op := calls[i].op;
    Succeeded(s, enforced, calls, i) && op.CreateSecret? && op.secretId == secret && op.env == env && op.name == name
  }

  ghost predicate WasCreated(s: Suite, enforced: bool, calls: seq<Call>, secret: Id, env: Id, name: string) {
    exists i | 0 <= i < |calls| :: CreatedAt(s, enforced, calls, i, secret, env, name)
  }

  ghost predicate WasDeleted(s: Suite, enforced: bool, calls: seq<Call>, secret: Id) {
    exists i | 0 <= i < |calls| :: Deleted(s, enforced, calls, i, secret)
  }

  /** The last write to the secret among the calls, if there is one. */
  ghost predicate LastWrite(s: Suite, enforced: bool, calls: seq<Call>, i: nat, secret: Id, plain: string)
    requires i < |calls|
  {
    && Wrote(s, enforced, calls, i, secret, plain)
    && forall j, p | i < j < |calls| :: !Wrote(s, enforced, calls, j, secret, p)
  }

  lemma PrefixResponses(s: Suite, enforced: bool, calls: seq<Call>, n: nat)
    requires n <= |calls|
    ensures forall i | 0 <= i < n :: ResponseAt(s, enforced, calls[..n], i) == ResponseAt(s, enforced, calls, i)
  {
    forall i | 0 <= i < n ensures ResponseAt(s, enforced, calls[..n], i) == ResponseAt(s, enforced, calls, i) {
      assert calls[..n][..i] == calls[..i];
    }
  }

  lemma {:induction false} EntryIsLastWrite(s: Suite, enforced: bool, calls: seq<Call>, secret: Id) returns (i: nat)
    requires Authenticated(s) && secret in VaultAfter(s, enforced, calls)
    ensures i < |calls|
    ensures var values := VaultAfter(s, enforced, calls)[secret].values;
            |values| >= 1 && LastWrite(s, enforced, calls, i, secret, values[|values| - 1])
    decreases |calls|
  {
    hide Step, Authenticated;
    var n := |calls| - 1;
    var before := calls[..n];
    var v := VaultAfter(s, enforced, before);
    PrefixResponses(s, enforced, calls, n);
    var op := calls[n].op;
    var writes := Succeeded(s, enforced, calls, n)
      && ((op.CreateSecret? && op.secretId == secret) || (op.AddNewVersion? && op.secret == secret));
    if writes {
      i := n;
      assert Wrote(s, enforced, calls, n, secret, op.plain);
    } else {
      assert secret in v && v[secret].values == VaultAfter(s, enforced, calls)[secret].values;
      i := EntryIsLastWrite(s, enforced, before, secret);
      var plain := v[secret].values[|v[secret].values| - 1];
      assert Wrote(s, enforced, before, i, secret, plain);
      assert Wrote(s, enforced, calls, i, secret, plain);
      forall j, p | i < j < |calls| ensures !Wrote(s, enforced, calls, j, secret, p) {
        if j < n {
          assert !Wrote(s, enforced, before, j, secret, p);
        }
      }
    }
  }

  // -- Main results ----------------------------------------------------------

  /** Over every run: a reveal that succeeds returns the plaintext of the last successful write
      to that secret before it. */
  lemma RevealReturnsLastWrite(s: Suite, enforced: bool, calls: seq<Call>, i: nat) returns (w: nat, plain: string)
    requires Authenticated(s) && i < |calls| && calls[i].op.Reveal? && Succeeded(s, enforced, calls, i)
    ensures w < i && LastWrite(s, enforced, calls[..i], w, calls[i].op.secret, plain)
    ensures ResponseAt(s, enforced, calls, i) == Success(Services.Plaintext(plain))
  {
    hide Step, VaultInv, LastWrite, Authenticated;
    var before, secret := calls[..i], calls[i].op.secret;
    RunRefines(s, enforced, before);
    RevealReadsLastWrite(s, enforced, Run(s, enforced, before), VaultAfter(s, enforced, before), calls[i]);
    w := EntryIsLastWrite(s, enforced, before, secret);
    var values := VaultAfter(s, enforced, before)[secret].values;
    plain := values[|values| - 1];
  }

  /** And it does succeed for every member-or-above on every secret created and not deleted since. */
  lemma LiveSecretsCanBeRevealed(s: Suite, enforced: bool, calls: seq<Call>, call: Call, env: Id, name: string)
    requires Authenticated(s) && call.op.Reveal?
    requires WasCreated(s, enforced, calls, call.op.secret, env, name)
    requires !WasDeleted(s, enforced, calls, call.op.secret)
    requires EnvironmentIn(Run(s, enforced, calls), env, call.org)
    requires HasRole(Run(s, enforced, calls), call.actor, call.org, Member)
    ensures Step(s, enforced, Run(s, enforced, calls), call).1.Success?
  {
    hide Step, VaultInv, Authenticated, WasCreated, WasDeleted;
    EntryHistory(s, enforced, calls, call.op.secret);
    RunRefines(s, enforced, calls);
    RevealReadsLastWrite(s, enforced, Run(s, enforced, calls), VaultAfter(s, enforced, calls), call);
  }

  /** A successful creation uses an id and a name no secret, live or deleted, has had. */
  lemma CreationIsFresh(s: Suite, enforced: bool, db: Db, v: Vault, call: Call)
    requires VaultInv(s, db, v) && call.op.CreateSecret? && Step(s, enforced, db, call).1.Success?
    ensures call.op.secretId !in v
    ensures forall i | i in v :: v[i].env != call.op.env || v[i].name != call.op.name
  {
    hide Services.CreateSecret, WellFormed, KeysReady, Represented;
    var (g, op) := (ContextOf(enforced, call), call.op);
    var _, _ := CreateSecretEffect(s, g, db, call.org, call.actor, op.env, op.name, op.plain, op.iv, op.secretId,
                                   op.versionId);
    forall i | i in v ensures v[i].env != op.env || v[i].name != op.name {
      EntryMirrorsRow(s, db, v, i);
    }
  }

  /** The vault knows exactly the secrets created, under the names they were created with, and
      marks exactly the deleted ones. */
  lemma {:induction false} EntryHistory(s: Suite, enforced: bool, calls: seq<Call>, secret: Id)
    requires Authenticated(s)
    ensures var v := VaultAfter(s, enforced, calls);
            && (forall e, n :: WasCreated(s, enforced, calls, secret, e, n) <==>
                               secret in v && v[secret].env == e && v[secret].name == n)
            && (WasDeleted(s, enforced, calls, secret) <==> secret in v && v[secret].deleted)
    decreases |calls|
  {
    hide Step, VaultInv, Authenticated, Succeeded, WasCreated, WasDeleted;
    if calls == [] {
      NothingHappened(s, enforced, secret);
    } else {
      var n := |calls| - 1;
      var before, op := calls[..n], calls[n].op;
      EntryHistory(s, enforced, before, secret);
      OneMoreCall(s, enforced, calls, secret);
      RunRefines(s, enforced, before);
      if Step(s, enforced, Run(s, enforced, before), calls[n]).1.Success? {
        if op.CreateSecret? {
          CreationIsFresh(s, enforced, Run(s, enforced, before), VaultAfter(s, enforced, before), calls[n]);
        }
        if op.DeleteSecret? {
          DeletedExists(s, enforced, Run(s, enforced, before), VaultAfter(s, enforced, before), calls[n]);
        }
      }
    }
  }

  lemma NothingHappened(s: Suite, enforced: bool, secret: Id)
    ensures forall e, n :: !WasCreated(s, enforced, [], secret, e, n)
    ensures !WasDeleted(s, enforced, [], secret)
  {
  }

  lemma OneMoreCall(s: Suite, enforced: bool, calls: seq<Call>, secret: Id)
    requires calls != []
    ensures var (n, op) := (|calls| - 1, calls[|calls| - 1].op);
            var before := calls[..n];
            var ok := Step(s, enforced, Run(s, enforced, before), calls[n]).1.Success?;
            && (forall e, name :: WasCreated(s, enforced, calls, secret, e, name) <==>
                  || WasCreated(s, enforced, before, secret, e, name)
                  || (ok && op.CreateSecret? && op.secretId == secret && op.env == e && op.name == name))
            && (WasDeleted(s, enforced, calls, secret) <==>
                  WasDeleted(s, enforced, before, secret) || (ok && op.DeleteSecret? && op.secret == secret))
  {
    hide Step;
    var n := |calls| - 1;
    var before := calls[..n];
    PrefixResponses(s, enforced, calls, n);
    assert forall i, e, m | 0 <= i < n ::
        CreatedAt(s, enforced, before, i, secret, e, m) == CreatedAt(s, enforced, calls, i, secret, e, m);
    assert forall i | 0 <= i < n :: Deleted(s, enforced, before, i, secret) == Deleted(s, enforced, calls, i, secret);
    var op := calls[n].op;
    if Succeeded(s, enforced, calls, n) && op.CreateSecret? {
      assert CreatedAt(s, enforced, calls, n, op.secretId, op.env, op.name);
    }
    if Succeeded(s, enforced, calls, n) && op.DeleteSecret? {
      assert Deleted(s, enforced, calls, n, op.secret);
    }
  }

  lemma DeletedExists(s: Suite, enforced: bool, db: Db, v: Vault, call: Call)
    requires VaultInv(s, db, v) && call.op.DeleteSecret? && Step(s, enforced, db, call).1.Success?
    ensures call.op.secret in v
  {
    hide Services.DeleteSecret, WellFormed, KeysReady, Represented;
    DeleteSecretEffect(ContextOf(enforced, call), db, call.org, call.actor, call.op.secret);
  }

  /** In any run a name is created at most once in an environment, deleted or not. */
  lemma NamesAreUsedOnce(s: Suite, enforced: bool, calls: seq<Call>, i: nat, j: nat)
    requires Authenticated(s) && i < j < |calls|
    requires calls[i].op.CreateSecret? && calls[j].op.CreateSecret?
    requires calls[i].op.env == calls[j].op.env && calls[i].op.name == calls[j].op.name
    ensures !Succeeded(s, enforced, calls, i) || !Succeeded(s, enforced, calls, j)
  {
    hide Step, VaultInv, Authenticated;
    if Succeeded(s, enforced, calls, i) && Succeeded(s, enforced, calls, j) {
      var (before, op) := (calls[..j], calls[i].op);
      PrefixResponses(s, enforced, calls, j);
      assert CreatedAt(s, enforced, before, i, op.secretId, op.env, op.name);
      assert WasCreated(s, enforced, before, op.secretId, op.env, op.name);
      EntryHistory(s, enforced, before, op.secretId);
      RunRefines(s, enforced, before);
      CreationIsFresh(s, enforced, Run(s, enforced, before), VaultAfter(s, enforced, before), calls[j]);
      assert false;
    }
  }

  lemma RowsMirrorVault(s: Suite, db: Db, v: Vault, env: Id)
    requires Represents(s, db.keys, db.secrets, db.versions, v)
    ensures var rows := LiveSecretsOf(db, env);
            && (forall id :: id in rows <==> id in v && v[id].env == env && !v[id].deleted)
            && (forall id | id in rows :: rows[id].name == v[id].name)
  {
    hide Represented;
    forall id | id in v ensures db.secrets[id].env == v[id].env && db.secrets[id].name == v[id].name
                                && db.secrets[id].deleted == v[id].deleted {
      EntryMirrorsRow(s, db, v, id);
    }
  }

  /** Whoever has a role in the organization of the environment, a viewer included, is shown exactly
      the secrets created there and not deleted, each under its name; nobody else is shown any. */
  lemma ListingShowsLiveSecrets(s: Suite, enforced: bool, calls: seq<Call>, i: nat, id: Id)
    requires Authenticated(s) && i < |calls| && calls[i].op.ListSecrets?
    ensures var (db, call, r) := (Run(s, enforced, calls[..i]), calls[i], ResponseAt(s, enforced, calls, i));
            if HasRole(db, call.actor, call.org, Viewer) && EnvironmentIn(db, call.op.env, call.org) then
              && r.Success? && r.value.SecretRows?
              && (var rows := r.value.secrets;
                  forall name ::
                    && WasCreated(s, enforced, calls[..i], id, call.op.env, name)
                    && !WasDeleted(s, enforced, calls[..i], id)
                    <==> id in rows && rows[id].name == name)
            else r.Failure?
  {
    hide Step, VaultInv, Authenticated, WasCreated, WasDeleted, LiveSecretsOf, HasRole, EnvironmentIn;
    var (before, call) := (calls[..i], calls[i]);
    var (db, v) := (Run(s, enforced, before), VaultAfter(s, enforced, before));
    EntryHistory(s, enforced, before, id);
    RunRefines(s, enforced, before);
    VaultIsWellFormed(s, db, v);
    ReadsShowExactly(s, enforced, db, call);
    RowsMirrorVault(s, db, v, call.op.env);
  }

  lemma VaultIsWellFormed(s: Suite, db: Db, v: Vault)
    requires VaultInv(s, db, v)
    ensures WellFormed(db) && Constraints(db) && Represents(s, db.keys, db.secrets, db.versions, v)
  {
  }
}
