/**
 Version allocation as the optimistic protocol it is: a writer reads the newest version
 number, and only later inserts the next one and moves the pointer, with any other calls
 and any other writers in between. The unique constraint turns losers away.
 */
module Allocation {
  import opened Prelude
  import opened Envelope
  import opened Schema
  import opened Policies
  import opened Repositories
  import Services
  import opened Calls
  import opened Effects
  import opened Frames
  import Integrity
  import opened Reachable
  import opened Agreement
  import opened Vault
  import opened VaultRuns
  import opened Audit

  /** A transaction between its reads and its commit: the call and the row it will insert. */
  datatype Pending = Pending(call: Call, row: SecretVersion)

  datatype System = System(db: Db, pending: map<Id, Pending>)

  datatype Event =
    | Serial(call: Call)
    | Read(txn: Id, call: Call)
    | Finish(txn: Id)
    | Abort(txn: Id)

  /** The call's version id. */
  function VersionIdOf(call: Call): Id {
    if call.op.AddNewVersion? then call.op.versionId else 0
  }

  ghost function Prepared(s: Suite, enforced: bool, db: Db, call: Call): Result<SecretVersion, Error>
    requires call.op.AddNewVersion?
  {
    Services.PrepareVersion(s, ContextOf(enforced, call), db, call.org, call.actor, call.op.secret, call.op.plain,
                            call.op.iv)
  }

  function Finished(enforced: bool, db: Db, p: Pending): Result<Db, Error> {
    Services.FinishVersion(ContextOf(enforced, p.call), db, VersionIdOf(p.call), p.row)
  }

  ghost function SystemStep(s: Suite, enforced: bool, sys: System, e: Event): System {
    match e
    case Serial(call) => sys.(db := Step(s, enforced, sys.db, call).0)
    case Read(t, call) =>
      if call.op.AddNewVersion? && t !in sys.pending && Prepared(s, enforced, sys.db, call).Success?
      then sys.(pending := sys.pending[t := Pending(call, Prepared(s, enforced, sys.db, call).value)])
      else sys
    case Finish(t) =>
      if t !in sys.pending then sys
      else
        var r := Finished(enforced, sys.db, sys.pending[t]);
        System(if r.Success? then r.value else sys.db, sys.pending - {t})
    case Abort(t) => sys.(pending := sys.pending - {t})
  }

  /** The vault after the event: a committing writer appends its plaintext. */
  ghost function SystemVault(s: Suite, enforced: bool, sys: System, v: Vault, e: Event): Vault {
    match e
    case Serial(call) => VaultStep(v, call, Step(s, enforced, sys.db, call).1)
    case Finish(t) =>
      if t in sys.pending && Finished(enforced, sys.db, sys.pending[t]).Success?
      then VaultStep(v, sys.pending[t].call, Success(Services.Done)) else v
    case _ => v
  }

  ghost function SystemRun(s: Suite, enforced: bool, events: seq<Event>): (System, Vault) {
    if events == [] then (System(EMPTY_DB, map[]), map[])
    else
      var last := |events| - 1;
      var (sys, v) := SystemRun(s, enforced, events[..last]);
      (SystemStep(s, enforced, sys, events[last]), SystemVault(s, enforced, sys, v, events[last]))
  }

  /** A waiting row is stale at worst: its number is at most one past the newest. */
  ghost predicate Waiting(s: Suite, db: Db, v: Vault, p: Pending) {
    && p.call.op.AddNewVersion? && p.row.secret == p.call.op.secret && p.row.secret in v
    && 1 <= p.row.number <= |v[p.row.secret].values| + 1
    && p.row.createdBy in db.users
    && Holds(s, db.keys, v[p.row.secret].env, p.row, p.call.op.plain)
  }

  ghost predicate SystemInv(s: Suite, sys: System, v: Vault) {
    && VaultInv(s, sys.db, v)
    && forall t | t in sys.pending :: Waiting(s, sys.db, v, sys.pending[t])
  }

  // -- Each event keeps the invariant ----------------------------------------

  /** Secrets stay and their lists only grow. */
  ghost predicate Grows(v: Vault, w: Vault) {
    forall i | i in v :: i in w && w[i].env == v[i].env && |v[i].values| <= |w[i].values|
  }

  lemma WaitingSurvives(s: Suite, db: Db, later: Db, v: Vault, w: Vault, p: Pending)
    requires Waiting(s, db, v, p) && Extends(db, later) && Grows(v, w) && db.users.Keys <= later.users.Keys
    ensures Waiting(s, later, w, p)
  {
  }

  lemma StepGrows(s: Suite, enforced: bool, db: Db, v: Vault, call: Call)
    requires VaultInv(s, db, v)
    ensures Grows(v, VaultStep(v, call, Step(s, enforced, db, call).1))
    ensures db.users.Keys <= Step(s, enforced, db, call).0.users.Keys
  {
    hide Step, VaultInv;
    if call.op.CreateSecret? && Step(s, enforced, db, call).1.Success? {
      CreationIsFresh(s, enforced, db, v, call);
    }
    Frame(s, enforced, db, call);
    if call.op.Register? {
      RegisterGrows(s, enforced, db, call);
    }
  }

  lemma RegisterGrows(s: Suite, enforced: bool, db: Db, call: Call)
    requires call.op.Register?
    ensures db.users.Keys <= Step(s, enforced, db, call).0.users.Keys
  {
    hide Services.Register;
    if Services.Register(db, call.op.email, call.op.password, call.op.userId).Success? {
      RegisterEffect(db, call.op.email, call.op.password, call.op.userId);
    }
  }

  lemma ReadWaits(s: Suite, enforced: bool, db: Db, v: Vault, call: Call)
    requires Authenticated(s) && VaultInv(s, db, v) && call.op.AddNewVersion?
    requires Prepared(s, enforced, db, call).Success?
    ensures Waiting(s, db, v, Pending(call, Prepared(s, enforced, db, call).value))
  {
    hide Services.PrepareVersion, KeysReady, Represents, Holds, Authenticated, Constraints, HasRole;
    PrepareVersionAgrees(s, db, call.org, call.actor, call.op.secret, call.op.plain, call.op.iv);
    var g := ContextOf(false, call);
    PrepareHolds(s, g, db, v, call.org, call.actor, call.op.secret, call.op.plain, call.op.iv);
    PrepareVersionEffect(s, g, db, call.org, call.actor, call.op.secret, call.op.plain, call.op.iv);
    RoleMeans(db, g, call.org, call.actor, Member);
    RoleHolderIsKnown(db, call.actor, call.org, Member);
  }

  /** Only a row with the next number gets past the unique constraint. */
  lemma WinnerHasNextNumber(s: Suite, g: Gate, db: Db, v: Vault, versionId: Id, row: SecretVersion)
    requires Represents(s, db.keys, db.secrets, db.versions, v) && row.secret in v
    requires 1 <= row.number <= |v[row.secret].values| + 1 && FinishVersionSucceeds(g, db, versionId, row)
    ensures row.number == |v[row.secret].values| + 1
  {
    hide Services.FinishVersion, Holds;
    FinishVersionEffect(g, db, versionId, row);
    assert Represented(s, db.keys, db.versions, row.secret, db.secrets[row.secret], v[row.secret]);
    assert row.number <= |v[row.secret].values| ==> HasNumber(db.versions, row.secret, row.number);
  }

  lemma FinishKeepsVault(s: Suite, enforced: bool, db: Db, v: Vault, p: Pending)
    requires VaultInv(s, db, v) && Waiting(s, db, v, p) && Finished(enforced, db, p).Success?
    ensures var db' := Finished(enforced, db, p).value;
            && VaultInv(s, db', VaultStep(v, p.call, Success(Services.Done)))
            && Extends(db, db') && db'.users == db.users
            && Grows(v, VaultStep(v, p.call, Success(Services.Done)))
  {
    var g := ContextOf(enforced, p.call);
    hide Services.FinishVersion, Represents, Constraints, KeysFollowSecrets, KeysReady, DecryptSecret, TableConstraints;
    WinnerHasNextNumber(s, g, db, v, p.call.op.versionId, p.row);
    FinishRefines(s, g, db, v, p.call.op.versionId, p.row, p.call.op.plain);
    FinishVersionEffect(g, db, p.call.op.versionId, p.row);
    FinishKeepsWellFormed(s, g, db, v, p.call.op.versionId, p.row);
  }

  lemma FinishKeepsWellFormed(s: Suite, g: Gate, db: Db, v: Vault, versionId: Id, row: SecretVersion)
    requires WellFormed(db) && Represents(s, db.keys, db.secrets, db.versions, v) && row.secret in v
    requires FinishVersionSucceeds(g, db, versionId, row)
    requires row.key in db.keys && db.keys[row.key].env == v[row.secret].env
    ensures WellFormed(Services.FinishVersion(g, db, versionId, row).value)
  {
    hide Services.FinishVersion, TableConstraints, Represented, CurrentPointersValid, KeysFollowSecrets;
    Integrity.VersionKeeps(g, db, versionId, row);
    FinishVersionEffect(g, db, versionId, row);
    EntryMirrorsRow(s, db, v, row.secret);
    NewVersionFollows(db, db.secrets[row.secret := db.secrets[row.secret].(current := Some(versionId))], versionId,
                      row);
  }

  lemma EventKeepsInv(s: Suite, enforced: bool, sys: System, v: Vault, e: Event)
    requires Authenticated(s) && SystemInv(s, sys, v)
    ensures SystemInv(s, SystemStep(s, enforced, sys, e), SystemVault(s, enforced, sys, v, e))
  {
    hide Step, VaultInv, Waiting, Authenticated, Finished, Prepared, Extends;
    var (sys', w) := (SystemStep(s, enforced, sys, e), SystemVault(s, enforced, sys, v, e));
    match e
    case Serial(call) =>
      StepRefines(s, enforced, sys.db, v, call);
      StepGrows(s, enforced, sys.db, v, call);
      StepExtends(s, enforced, sys.db, call);
      forall t | t in sys.pending ensures Waiting(s, sys'.db, w, sys.pending[t]) {
        WaitingSurvives(s, sys.db, sys'.db, v, w, sys.pending[t]);
      }
    case Read(t, call) =>
      if sys' != sys {
        ReadWaits(s, enforced, sys.db, v, call);
      }
    case Finish(t) =>
      if t in sys.pending && Finished(enforced, sys.db, sys.pending[t]).Success? {
        FinishKeepsVault(s, enforced, sys.db, v, sys.pending[t]);
        forall u | u in sys'.pending ensures Waiting(s, sys'.db, w, sys.pending[u]) {
          WaitingSurvives(s, sys.db, sys'.db, v, w, sys.pending[u]);
        }
      }
    case Abort(t) =>
  }

  lemma {:induction false} RunKeepsInv(s: Suite, enforced: bool, events: seq<Event>)
    requires Authenticated(s)
    ensures SystemInv(s, SystemRun(s, enforced, events).0, SystemRun(s, enforced, events).1)
  {
    if events == [] {
      assert VaultInv(s, EMPTY_DB, map[]);
    } else {
      hide SystemStep, SystemVault, SystemInv, Authenticated;
      var last := |events| - 1;
      RunKeepsInv(s, enforced, events[..last]);
      var (sys, v) := SystemRun(s, enforced, events[..last]);
      EventKeepsInv(s, enforced, sys, v, events[last]);
    }
  }

  // -- Main results ----------------------------------------------------------

  /** Version numbers are exactly 1..n and the pointer is on version n. */
  ghost predicate Contiguous(db: Db, secret: Id, n: nat) {
    && n >= 1
    && (forall k :: HasNumber(db.versions, secret, k) <==> 1 <= k <= n)
    && secret in db.secrets && db.secrets[secret].current.Some?
    && db.secrets[secret].current.value in db.versions
    && db.versions[db.secrets[secret].current.value].secret == secret
    && db.versions[db.secrets[secret].current.value].number == n
  }

  /** However writers and other calls interleave, in every committed state each secret has
      versions 1..n with its pointer on n, where n counts the writes that committed. */
  lemma InterleavedVersionsStayContiguous(s: Suite, enforced: bool, events: seq<Event>, secret: Id)
    requires Authenticated(s) && secret in SystemRun(s, enforced, events).0.db.secrets
    ensures var (sys, v) := SystemRun(s, enforced, events);
            secret in v && Contiguous(sys.db, secret, |v[secret].values|)
  {
    hide SystemRun, Waiting, WellFormed, KeysReady, Holds, Authenticated;
    RunKeepsInv(s, enforced, events);
    var (sys, v) := SystemRun(s, enforced, events);
    assert Represented(s, sys.db.keys, sys.db.versions, secret, sys.db.secrets[secret], v[secret]);
  }

  lemma WaitingRowMeetsForeignKeys(s: Suite, db: Db, v: Vault, p: Pending)
    requires VaultInv(s, db, v) && Waiting(s, db, v, p)
    ensures p.row.secret in db.secrets && p.row.key in db.keys && p.row.createdBy in db.users
    ensures !VersionNumberTaken(db, p.row.secret, |v[p.row.secret].values| + 1)
    ensures CurrentPointersValid(db.secrets, db.versions)
  {
    hide DecryptSecret, KeysReady, TableConstraints;
    assert Represented(s, db.keys, db.versions, p.row.secret, db.secrets[p.row.secret], v[p.row.secret]);
  }

  /** A waiting writer commits exactly when no version of its secret was committed since it read,
      its generated id and IV are unused, and, with policies in force, its actor is still a
      member of the organization the secret is in. */
  lemma CommitsIffNoneSince(s: Suite, enforced: bool, db: Db, v: Vault, p: Pending)
    requires VaultInv(s, db, v) && Waiting(s, db, v, p)
    ensures Finished(enforced, db, p).Success? <==>
              && p.row.number == |v[p.row.secret].values| + 1
              && p.call.op.versionId !in db.versions && !KeyIvTaken(db, p.row.key, p.row.iv)
              && (enforced ==> IsMember(db, p.call.actor, p.call.org) && SecretIn(db, p.row.secret, p.call.org))
  {
    var (g, row, versionId) := (ContextOf(enforced, p.call), p.row, p.call.op.versionId);
    WaitingRowMeetsForeignKeys(s, db, v, p);
    VersionPolicyMeans(db, enforced, p.call.actor, p.call.org, row);
    hide Services.FinishVersion, WellFormed, Represents, KeysReady, Holds, VersionPolicy, IsMember, KeyIvTaken;
    hide VersionNumberTaken, CurrentPointersValid;
    if Finished(enforced, db, p).Success? {
      WinnerHasNextNumber(s, g, db, v, versionId, row);
      FinishVersionEffect(g, db, versionId, row);
      InsertComesFirst(g, db, versionId, row);
    } else if row.number == |v[row.secret].values| + 1 && InsertVersion(db, g, versionId, row).Success? {
      InsertDecides(db, enforced, p.call.actor, p.call.org, versionId, row);
    }
  }

  lemma InsertComesFirst(g: Gate, db: Db, versionId: Id, row: SecretVersion)
    requires FinishVersionSucceeds(g, db, versionId, row)
    ensures VersionPolicy(db, g, row)
  {
  }

  // -- A writer's read and its commit, over a whole run -----------------------

  /** The k-th event committed a version of the secret. */
  ghost predicate CommitsVersion(s: Suite, enforced: bool, events: seq<Event>, k: nat, secret: Id)
    requires k < |events|
  {
    var sys := SystemRun(s, enforced, events[..k]).0;
    match events[k]
    case Serial(call) =>
      call.op.AddNewVersion? && call.op.secret == secret && Step(s, enforced, sys.db, call).1.Success?
    case Finish(t) =>
      t in sys.pending && sys.pending[t].row.secret == secret && Finished(enforced, sys.db, sys.pending[t]).Success?
    case _ => false
  }

  lemma OneEvent(s: Suite, enforced: bool, events: seq<Event>, k: nat)
    requires k < |events|
    ensures var (sys, v) := SystemRun(s, enforced, events[..k]);
            SystemRun(s, enforced, events[..k + 1])
            == (SystemStep(s, enforced, sys, events[k]), SystemVault(s, enforced, sys, v, events[k]))
  {
    assert events[..k + 1][..k] == events[..k];
  }

  /** A secret's list grows by one with each committed version, and with nothing else. */
  lemma ListGrowsByCommits(s: Suite, enforced: bool, events: seq<Event>, k: nat, secret: Id)
    requires Authenticated(s) && k < |events| && secret in SystemRun(s, enforced, events[..k]).1
    ensures secret in SystemRun(s, enforced, events[..k + 1]).1
    ensures |SystemRun(s, enforced, events[..k + 1]).1[secret].values|
         == |SystemRun(s, enforced, events[..k]).1[secret].values|
            + if CommitsVersion(s, enforced, events, k, secret) then 1 else 0
  {
    hide SystemRun, Step, Finished, VaultInv, Authenticated;
    var (sys, v) := SystemRun(s, enforced, events[..k]);
    RunKeepsInv(s, enforced, events[..k]);
    OneEvent(s, enforced, events, k);
    if events[k].Serial? && events[k].call.op.CreateSecret? && Step(s, enforced, sys.db, events[k].call).1.Success? {
      CreationIsFresh(s, enforced, sys.db, v, events[k].call);
    }
  }

  /** Between two points of a run the list has the same length if and only if no version of the
      secret was committed in between; it never gets shorter. */
  lemma {:induction false} SameLengthIff(s: Suite, enforced: bool, events: seq<Event>, i: nat, j: nat, secret: Id)
    requires Authenticated(s) && i <= j <= |events| && secret in SystemRun(s, enforced, events[..i]).1
    ensures secret in SystemRun(s, enforced, events[..j]).1
    ensures var (n, m) := (|SystemRun(s, enforced, events[..i]).1[secret].values|,
                           |SystemRun(s, enforced, events[..j]).1[secret].values|);
            n <= m && (n == m <==> forall k | i <= k < j :: !CommitsVersion(s, enforced, events, k, secret))
    decreases j
  {
    hide SystemRun, CommitsVersion, Authenticated;
    if i < j {
      SameLengthIff(s, enforced, events, i, j - 1, secret);
      ListGrowsByCommits(s, enforced, events, j - 1, secret);
    }
  }

  /** The transaction is the same one until an event of its own. */
  lemma {:induction false} StillPending(s: Suite, enforced: bool, events: seq<Event>, i: nat, j: nat, t: Id)
    requires i <= j <= |events| && t in SystemRun(s, enforced, events[..i]).0.pending
    requires forall k | i <= k < j :: events[k] != Finish(t) && events[k] != Abort(t)
    ensures t in SystemRun(s, enforced, events[..j]).0.pending
    ensures SystemRun(s, enforced, events[..j]).0.pending[t] == SystemRun(s, enforced, events[..i]).0.pending[t]
    decreases j
  {
    hide SystemRun, Step, Finished, Prepared;
    if i < j {
      StillPending(s, enforced, events, i, j - 1, t);
      OneEvent(s, enforced, events, j - 1);
    }
  }

  /** The writer's read: it waits, with the number after the newest. */
  lemma ReadsNextNumber(s: Suite, enforced: bool, db: Db, v: Vault, call: Call)
    requires Authenticated(s) && VaultInv(s, db, v) && call.op.AddNewVersion?
    requires Prepared(s, enforced, db, call).Success?
    ensures call.op.secret in v && Prepared(s, enforced, db, call).value.secret == call.op.secret
    ensures Prepared(s, enforced, db, call).value.number == |v[call.op.secret].values| + 1
  {
    hide Services.PrepareVersion, KeysReady, Represents, Holds, Authenticated, Constraints;
    PrepareVersionAgrees(s, db, call.org, call.actor, call.op.secret, call.op.plain, call.op.iv);
    var g := ContextOf(false, call);
    PrepareHolds(s, g, db, v, call.org, call.actor, call.op.secret, call.op.plain, call.op.iv);
  }

  /** A writer that reads at event i and finishes at event j commits if and only if no version of
      its secret was committed in between, its drawn id and IV are unused by then, and, with
      policies in force, its actor is then a member of the organization the secret is in. */
  lemma WriterCommitsIffNoneBetween(s: Suite, enforced: bool, events: seq<Event>, i: nat, j: nat, t: Id, call: Call)
    requires Authenticated(s) && i < j < |events| && events[i] == Read(t, call) && events[j] == Finish(t)
    requires forall k | i < k < j :: events[k] != Finish(t) && events[k] != Abort(t)
    requires var sys := SystemRun(s, enforced, events[..i]).0;
             call.op.AddNewVersion? && t !in sys.pending && Prepared(s, enforced, sys.db, call).Success?
    ensures var row := Prepared(s, enforced, SystemRun(s, enforced, events[..i]).0.db, call).value;
            var sys := SystemRun(s, enforced, events[..j]).0;
            && t in sys.pending && sys.pending[t] == Pending(call, row) && row.secret == call.op.secret
            && (Finished(enforced, sys.db, sys.pending[t]).Success? <==>
                  && (forall k | i < k < j :: !CommitsVersion(s, enforced, events, k, row.secret))
                  && call.op.versionId !in sys.db.versions && !KeyIvTaken(sys.db, row.key, row.iv)
                  && (enforced ==> IsMember(sys.db, call.actor, call.org) && SecretIn(sys.db, row.secret, call.org)))
  {
    hide SystemRun, VaultInv, Waiting, Authenticated, Finished, Prepared, CommitsVersion, IsMember, KeyIvTaken, Step;
    RunKeepsInv(s, enforced, events[..i]);
    RunKeepsInv(s, enforced, events[..j]);
    OneEvent(s, enforced, events, i);
    var (before, v) := SystemRun(s, enforced, events[..i]);
    ReadsNextNumber(s, enforced, before.db, v, call);
    StillPending(s, enforced, events, i + 1, j, t);
    SameLengthIff(s, enforced, events, i + 1, j, call.op.secret);
    var (sys, w) := SystemRun(s, enforced, events[..j]);
    CommitsIffNoneSince(s, enforced, sys.db, w, sys.pending[t]);
  }
}
