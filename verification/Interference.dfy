/**
 What a secret or environment call can learn of other tenants, exactly. A call draws its new
 ids at random; they have to be new in the whole table, so a row of any organization can
 collide with them, and the collision shows. Nothing else does.
 */
module Interference {
  import opened Prelude
  import opened Envelope
  import opened Schema
  import opened Policies
  import opened Repositories
  import Services
  import opened Reachable
  import opened Agreement
  import opened Isolation
  import Vault
  import Writes
  import Creations
  import Integrity
  import C = Calls

  // -- What is checked before the call, and what it can run into --------------

  predicate Draws(op: C.Op) {
    op.CreateSecret? || op.AddNewVersion? || op.CreateEnvironment?
  }

  /** A key the value can be written under with this IV. */
  ghost predicate WritableKey(s: Suite, db: Db, env: Id, plain: string, iv: Nonce, key: Id) {
    && key in db.keys && db.keys[key].env == env && db.keys[key].active
    && EncryptSecret(s, plain, iv, db.keys[key].wrapped).Success? && !KeyIvTaken(db, key, iv)
  }

  ghost predicate Writable(s: Suite, db: Db, env: Id, plain: string, iv: Nonce) {
    exists key :: WritableKey(s, db, env, plain, iv, key)
  }

  /** Every check but those of the drawn ids passes. All of it is about the organization's rows. */
  ghost predicate ReachesDraw(s: Suite, db: Db, call: C.Call) {
    HasRole(db, call.actor, call.org, Member)
    && match call.op
       case CreateSecret(env, name, plain, iv, _, _) =>
         EnvironmentIn(db, env, call.org) && !SecretNameTaken(db, env, name) && Writable(s, db, env, plain, iv)
       case AddNewVersion(secret, plain, iv, _) =>
         && SecretIn(db, secret, call.org) && !db.secrets[secret].deleted
         && Writable(s, db, db.secrets[secret].env, plain, iv)
       case CreateEnvironment(project, name, _, _, _, _) =>
         ProjectIn(db, project, call.org) && !EnvironmentNameTaken(db, project, name)
       case _ => false
  }

  /** The error a drawn id causes: the environment's own id is flushed first, its key's collision
      comes at commit and is taken for a name conflict. */
  function Collision(db: Db, op: C.Op): Option<Error> {
    match op
    case CreateSecret(_, _, _, _, id, versionId) =>
      if id in db.secrets || versionId in db.versions then Some(IntegrityError) else None
    case AddNewVersion(_, _, _, versionId) => if versionId in db.versions then Some(IntegrityError) else None
    case CreateEnvironment(_, _, id, keyId, _, _) =>
      if id in db.environments then Some(IntegrityError)
      else if keyId in db.keys then Some(EnvironmentAlreadyExists)
      else None
    case _ => None
  }

  /** The same call with other draws. */
  function Redrawn(call: C.Call, i: Id, j: Id): C.Call {
    match call.op
    case CreateSecret(_, _, _, _, _, _) => call.(op := call.op.(secretId := i, versionId := j))
    case AddNewVersion(_, _, _, _) => call.(op := call.op.(versionId := i))
    case CreateEnvironment(_, _, _, _, _, _) => call.(op := call.op.(envId := i, keyId := j))
    case _ => call
  }

  // -- One state at a time, without policies ----------------------------------

  lemma KeyWritable(s: Suite, db: Db, g: Gate, env: Id, plain: string, iv: Nonce)
    requires Constraints(db) && !g.enforced
    ensures var key := Pick(ActiveKeys(db, g, env));
            Writable(s, db, env, plain, iv) <==> key.Some? && WritableKey(s, db, env, plain, iv, key.value)
  {
    hide EncryptSecret, KeyIvTaken;
    if Writable(s, db, env, plain, iv) {
      var key :| WritableKey(s, db, env, plain, iv, key);
      assert key in ActiveKeys(db, g, env);
    }
  }

  lemma NameSeen(db: Db, g: Gate, env: Id, name: string)
    requires !g.enforced
    ensures Pick(LiveSecretsByName(db, g, env, name)).Some? ==> SecretNameTaken(db, env, name)
  {
    if Pick(LiveSecretsByName(db, g, env, name)).Some? {
      var i := Pick(LiveSecretsByName(db, g, env, name)).value;
      assert i in db.secrets;
    }
  }

  /** The outcome as the checks and the collision decide it, or some refusal that ignores the draws. */
  ghost predicate DecidedBy(reaches: bool, collision: Option<Error>, r: Services.Outcome, redrawn: Services.Outcome) {
    if !reaches then r.Failure? && r == redrawn
    else if collision.Some? then r == Failure(collision.value)
    else r.Success?
  }

  lemma CreateSecretDecided(s: Suite, db: Db, call: C.Call, i: Id, j: Id)
    requires Constraints(db) && call.op.CreateSecret?
    ensures var (g, again) := (In(false, call.actor, call.org), Redrawn(call, i, j));
            DecidedBy(ReachesDraw(s, db, call), Collision(db, call.op),
                      C.SecretOutcome(s, g, db, call.org, call.actor, call.op),
                      C.SecretOutcome(s, g, db, call.org, call.actor, again.op))
  {
    hide Constraints, HasRole, EnvironmentIn, SecretNameTaken, Writable, EncryptSecret, KeyIvTaken, LiveSecretsByName;
    hide ActiveKeys, Services.RequireOrgRole, Services.ResolveEnvironmentOrg, Services.FinishVersion;
    var (g, org, actor, op) := (In(false, call.actor, call.org), call.org, call.actor, call.op);
    Vault.RoleMeans(db, g, org, actor, Member);
    Writes.ResolveMeans(db, g, op.env, org);
    NameSeen(db, g, op.env, op.name);
    KeyWritable(s, db, g, op.env, op.plain, op.iv);
    var key := Pick(ActiveKeys(db, g, op.env));
    if HasRole(db, actor, org, Member) && EnvironmentIn(db, op.env, org) && key.Some? {
      Writes.ParentsExist(db, op.env, org);
      Vault.RoleHolderIsKnown(db, actor, org, Member);
      ActiveKeyStored(db, g, op.env);
      var value := EncryptSecret(s, op.plain, op.iv, db.keys[key.value].wrapped);
      if value.Success? {
        FirstVersionDecided(db, g, op.env, op.name, key.value, value.value, op.iv, actor, op.secretId, op.versionId);
        FirstVersionDecided(db, g, op.env, op.name, key.value, value.value, op.iv, actor, i, j);
      }
    }
  }

  lemma ActiveKeyStored(db: Db, g: Gate, env: Id)
    ensures var key := Pick(ActiveKeys(db, g, env));
            key.Some? ==> key.value in db.keys && db.keys[key.value].env == env && db.keys[key.value].active
  {
  }

  lemma FirstVersionDecided(db: Db, g: Gate, env: Id, name: string, key: Id, value: Bytes, iv: Nonce, actor: Id,
                            id: Id, versionId: Id)
    requires Constraints(db) && !g.enforced && key in db.keys && actor in db.users
    ensures var row := Secret(env, name, None, false);
            id !in db.secrets ==>
              var r := Services.FinishVersion(g, db.(secrets := db.secrets[id := row]), versionId,
                                              SecretVersion(id, key, value, iv, 1, actor));
              if versionId in db.versions || KeyIvTaken(db, key, iv) then r == Failure(IntegrityError) else r.Success?
  {
    if id !in db.secrets {
      Writes.FirstVersionInserts(db, g, id, Secret(env, name, None, false), versionId,
                                 SecretVersion(id, key, value, iv, 1, actor));
    }
  }

  /** A finite set of versions has a greatest number. */
  lemma {:induction false} GreatestNumber(versions: map<Id, SecretVersion>, ids: set<Id>) returns (top: Id)
    requires ids != {} && ids <= versions.Keys
    ensures top in ids && forall i | i in ids :: versions[i].number <= versions[top].number
    decreases ids
  {
    top :| top in ids;
    var rest := ids - {top};
    assert forall i | i in ids :: i == top || i in rest;
    if rest != {} {
      var other := GreatestNumber(versions, rest);
      if versions[top].number < versions[other].number {
        top := other;
      }
    }
  }

  lemma NextNumberIsFree(db: Db, g: Gate, secret: Id)
    requires !g.enforced
    ensures !VersionNumberTaken(db, secret, Services.NextVersionNumber(db, g, secret))
  {
    var ids := VersionsOf(db, g, secret);
    assert forall v | v in db.versions && db.versions[v].secret == secret :: v in ids;
    if ids != {} {
      var top := GreatestNumber(db.versions, ids);
      assert top in LatestVersions(db, g, secret);
      var latest := Pick(LatestVersions(db, g, secret)).value;
      assert latest in LatestVersions(db, g, secret);
    }
  }

  lemma AddNewVersionDecided(s: Suite, db: Db, call: C.Call, i: Id, j: Id)
    requires Constraints(db) && call.op.AddNewVersion?
    ensures var (g, again) := (In(false, call.actor, call.org), Redrawn(call, i, j));
            DecidedBy(ReachesDraw(s, db, call), Collision(db, call.op),
                      C.SecretOutcome(s, g, db, call.org, call.actor, call.op),
                      C.SecretOutcome(s, g, db, call.org, call.actor, again.op))
  {
    hide Constraints, HasRole, EnvironmentIn, Writable, EncryptSecret, KeyIvTaken, VersionNumberTaken;
    hide ActiveKeys, Services.RequireOrgRole, Services.GetOwnedSecret, Services.FinishVersion;
    hide Services.NextVersionNumber;
    var (g, org, actor, op) := (In(false, call.actor, call.org), call.org, call.actor, call.op);
    Vault.RoleMeans(db, g, org, actor, Member);
    Vault.OwnedMeans(db, g, op.secret, org);
    var owned := Services.GetOwnedSecret(db, g, op.secret, org);
    if HasRole(db, actor, org, Member) && owned.Success? {
      var env := owned.value.env;
      KeyWritable(s, db, g, env, op.plain, op.iv);
      Vault.RoleHolderIsKnown(db, actor, org, Member);
      ActiveKeyStored(db, g, env);
      var key := Pick(ActiveKeys(db, g, env));
      if key.Some? && EncryptSecret(s, op.plain, op.iv, db.keys[key.value].wrapped).Success? {
        NextNumberIsFree(db, g, op.secret);
        PointersHold(db);
        var value := EncryptSecret(s, op.plain, op.iv, db.keys[key.value].wrapped).value;
        var number := Services.NextVersionNumber(db, g, op.secret);
        Writes.FinishesOrCollides(db, g, op.versionId,
                                  SecretVersion(op.secret, key.value, value, op.iv, number, actor));
        Writes.FinishesOrCollides(db, g, i, SecretVersion(op.secret, key.value, value, op.iv, number, actor));
      }
    }
  }

  /** A secret is missed before the version id matters. */
  lemma NotFoundComesFirst(s: Suite, g: Gate, db: Db, org: Id, actor: Id, secret: Id, plain: string, iv: Nonce, i: Id,
                           j: Id)
    ensures var (r, q) := (Services.AddNewVersion(s, g, db, org, actor, secret, plain, iv, i),
                           Services.AddNewVersion(s, g, db, org, actor, secret, plain, iv, j));
            r in {Failure(SecretNotFound), Failure(EnvironmentNotFound)} ==> r == q
  {
    hide Services.PrepareVersion, VersionPolicy, SecretPolicy, CurrentPointersValid;
  }

  lemma CreateEnvironmentDecided(s: Suite, db: Db, call: C.Call, i: Id, j: Id)
    requires Constraints(db) && call.op.CreateEnvironment?
    ensures var (g, again) := (In(false, call.actor, call.org), Redrawn(call, i, j));
            DecidedBy(ReachesDraw(s, db, call), Collision(db, call.op),
                      C.EnvironmentOutcome(s, g, db, call.org, call.actor, call.op),
                      C.EnvironmentOutcome(s, g, db, call.org, call.actor, again.op))
  {
    hide Constraints, HasRole, EnvironmentNameTaken, EnvironmentsByName, Services.RequireOrgRole;
    hide Services.CommitEnvironmentKey, CreateWrappedDek;
    var (g, org, actor, op) := (In(false, call.actor, call.org), call.org, call.actor, call.op);
    Vault.RoleMeans(db, g, org, actor, Member);
    Creations.NamesSeen(db, g, op.project, op.envName);
    if op.envId !in db.environments {
      Creations.FirstKeyInserts(s, db, g, op.envId, Environment(op.project, op.envName), op.keyId, op.dek, op.nonce);
    }
  }

  // -- One state, with policies -----------------------------------------------

  /** What the call answers, with policies in force: a refusal that ignores the draws, or what the
      draws run into, or success. */
  lemma AnswerIsDecided(s: Suite, db: Db, call: C.Call, i: Id, j: Id)
    requires WellFormed(db) && Draws(call.op)
    ensures var (g, again) := (C.ContextOf(true, call), Redrawn(call, i, j));
            DecidedBy(ReachesDraw(s, db, call), Collision(db, call.op),
                      C.OutcomeOf(s, g, db, call), C.OutcomeOf(s, g, db, again))
  {
    hide WellFormed, ReachesDraw, Services.CreateSecret, Services.AddNewVersion, Services.CreateEnvironment;
    assert Constraints(db) by { WellFormedIsConstrained(db); }
    hide Constraints;
    var (org, actor) := (call.org, call.actor);
    match call.op
    case CreateSecret(env, name, plain, iv, id, versionId) =>
      CreateSecretDecided(s, db, call, i, j);
      CreateSecretAgrees(s, db, org, actor, env, name, plain, iv, id, versionId);
      CreateSecretAgrees(s, db, org, actor, env, name, plain, iv, i, j);
    case AddNewVersion(secret, plain, iv, versionId) =>
      AddNewVersionDecided(s, db, call, i, j);
      AddNewVersionAgrees(s, db, org, actor, secret, plain, iv, versionId);
      AddNewVersionAgrees(s, db, org, actor, secret, plain, iv, i);
      NotFoundComesFirst(s, C.ContextOf(true, call), db, org, actor, secret, plain, iv, versionId, i);
      NotFoundComesFirst(s, C.ContextOf(true, call), db, org, actor, secret, plain, iv, i, versionId);
    case CreateEnvironment(project, name, id, keyId, dek, nonce) =>
      CreateEnvironmentDecided(s, db, call, i, j);
      CreateEnvironmentAgrees(s, db, org, actor, project, name, id, keyId, dek, nonce);
      CreateEnvironmentAgrees(s, db, org, actor, project, name, i, j, dek, nonce);
  }

  /** The same of the step: what is refused or collides changes nothing. */
  lemma AnswerAndState(s: Suite, db: Db, call: C.Call, i: Id)
    requires WellFormed(db) && Draws(call.op)
    ensures var (after, r) := C.Step(s, true, db, call);
            if !ReachesDraw(s, db, call) then
              after == db && r.Failure? && r == C.Step(s, true, db, Redrawn(call, i, i)).1
            else if Collision(db, call.op).Some? then after == db && r == Failure(Collision(db, call.op).value)
            else r.Success?
  {
    hide WellFormed, ReachesDraw, Collision, C.OutcomeOf;
    AnswerIsDecided(s, db, call, i, i);
  }

  // -- Two states -------------------------------------------------------------

  lemma {:induction false} FreshId(ids: set<Id>) returns (unused: Id)
    ensures unused !in ids && forall i | i in ids :: i < unused
    decreases ids
  {
    unused := 0;
    if i :| i in ids {
      var above := FreshId(ids - {i});
      unused := if above <= i then i + 1 else above;
      assert forall k | k in ids :: k == i || k in ids - {i};
    }
  }

  function IdsIn(db: Db): set<Id> {
    db.environments.Keys + db.keys.Keys + db.secrets.Keys + db.versions.Keys
  }

  lemma RedrawnAlike(s: Suite, db: Db, call: C.Call, i: Id)
    ensures ReachesDraw(s, db, Redrawn(call, i, i)) == ReachesDraw(s, db, call)
    ensures i !in IdsIn(db) ==> Collision(db, Redrawn(call, i, i).op).None?
  {
    hide HasRole, EnvironmentIn, SecretNameTaken, Writable, EnvironmentNameTaken;
  }

  lemma NothingOccupied(a: Db, b: Db, call: C.Call, i: Id)
    requires i !in IdsIn(a) && i !in IdsIn(b) && Draws(call.op)
    ensures SameOccupancy(a, b, Redrawn(call, i, i).op)
  {
  }

  /** Redrawn with ids free in both states, the call is the same call to both. */
  lemma FreshDraws(s: Suite, a: Db, b: Db, call: C.Call, i: Id)
    requires WellFormed(a) && WellFormed(b) && AgreeOn(a, b, call.org) && Draws(call.op)
    requires i !in IdsIn(a) && i !in IdsIn(b)
    ensures C.Step(s, true, a, Redrawn(call, i, i)).1 == C.Step(s, true, b, Redrawn(call, i, i)).1
    ensures ReachesDraw(s, a, call) <==> ReachesDraw(s, b, call)
  {
    var again := Redrawn(call, i, i);
    hide WellFormed, AgreeOn, ReachesDraw, Collision, SameOccupancy, IdsIn, C.OutcomeOf;
    RedrawnAlike(s, a, call, i);
    RedrawnAlike(s, b, call, i);
    NothingOccupied(a, b, call, i);
    NonInterference(s, a, b, again);
    AnswerIsDecided(s, a, again, i, i);
    AnswerIsDecided(s, b, again, i, i);
  }

  predicate SameForClient(r: C.Response, q: C.Response) {
    r == q || (r.Failure? && q.Failure? && Status(r.error) == Status(q.error))
  }

  /** The call is refused before it draws, or its draws run into the same in both states. */
  ghost predicate SameCollision(s: Suite, a: Db, b: Db, call: C.Call) {
    !ReachesDraw(s, a, call) || Collision(a, call.op) == Collision(b, call.op)
  }

  lemma EnforcedInterference(s: Suite, a: Db, b: Db, call: C.Call)
    requires WellFormed(a) && WellFormed(b) && AgreeOn(a, b, call.org) && Scoped(call.op)
    ensures var (r, q) := (C.Step(s, true, a, call), C.Step(s, true, b, call));
            if SameCollision(s, a, b, call) then r.1 == q.1 && AgreeOn(r.0, q.0, call.org)
            else !SameForClient(r.1, q.1)
  {
    hide WellFormed, AgreeOn, ReachesDraw, Collision, SameOccupancy, C.Step;
    if !Draws(call.op) {
      OthersDrawNothing(s, a, b, call);
      NonInterference(s, a, b, call);
    } else {
      var i := FreshId(IdsIn(a) + IdsIn(b));
      FreshDraws(s, a, b, call, i);
      AnswerAndState(s, a, call, i);
      AnswerAndState(s, b, call, i);
      CollisionsDistinguish(a, b, call.op);
      if Collision(a, call.op).None? && Collision(b, call.op).None? {
        NonInterference(s, a, b, call);
      }
    }
  }

  lemma CollisionsDistinguish(a: Db, b: Db, op: C.Op)
    ensures Collision(a, op).None? && Collision(b, op).None? ==> SameOccupancy(a, b, op)
    ensures Collision(a, op).Some? && Collision(b, op).Some? && Collision(a, op) != Collision(b, op) ==>
              Status(Collision(a, op).value) != Status(Collision(b, op).value)
  {
  }

  lemma OthersDrawNothing(s: Suite, a: Db, b: Db, call: C.Call)
    ensures !Draws(call.op) ==> !ReachesDraw(s, a, call) && SameOccupancy(a, b, call.op)
  {
  }

  // -- Main results -----------------------------------------------------------

  /** Between two well-formed states with the same rows of the caller's organization, a call gets
      the same answer and leaves the same rows if and only if it is refused before it draws or its
      draws collide alike. Policies make no difference to that, and in force they make the
      answers equal to the letter. */
  lemma InterferesIffCollisionsDiffer(s: Suite, enforced: bool, a: Db, b: Db, call: C.Call)
    requires WellFormed(a) && WellFormed(b) && AgreeOn(a, b, call.org) && Scoped(call.op)
    ensures var (r, q) := (C.Step(s, enforced, a, call), C.Step(s, enforced, b, call));
            && (SameForClient(r.1, q.1) && AgreeOn(r.0, q.0, call.org) <==> SameCollision(s, a, b, call))
            && (enforced ==> (r.1 == q.1 && AgreeOn(r.0, q.0, call.org) <==> SameCollision(s, a, b, call)))
  {
    hide WellFormed, AgreeOn, SameCollision, C.Step;
    EnforcedInterference(s, a, b, call);
    StepsAgree(s, a, call);
    StepsAgree(s, b, call);
  }

  const HOME := Db(
    map[0 := User("u", None, true)], map[0 := Organization("o", "o"), 1 := Organization("p", "p")],
    map[0 := Membership(0, 0, Member)], map[0 := Project(0, "p", "p", None), 1 := Project(1, "q", "q", None)],
    map[], map[], map[], map[], [])

  /** HOME with an environment of the other organization's project 1, and its key. */
  function Neighbour(env: Id, key: Id): Db {
    HOME.(environments := map[env := Environment(1, "e")], keys := map[key := EncryptionKey(env, [], 1, true)])
  }

  /** An environment drawn as 5 with key 7 fails as an internal error next to a neighbour that has
      environment 5, and as a name conflict next to one that has key 7, although both states hold
      the same rows of the caller's organization. */
  lemma CollisionsShow(s: Suite, dek: Key, nonce: Nonce)
    ensures var (a, b) := (Neighbour(5, 8), Neighbour(6, 7));
            var call := C.Call(0, 0, C.CreateEnvironment(0, "n", 5, 7, dek, nonce));
            && WellFormed(a) && WellFormed(b) && AgreeOn(a, b, 0)
            && C.Step(s, true, a, call).1 == Failure(IntegrityError)
            && C.Step(s, true, b, call).1 == Failure(EnvironmentAlreadyExists)
  {
    hide WellFormed, ReachesDraw, Collision, Neighbour, SliceOf, C.Step;
    var call := C.Call(0, 0, C.CreateEnvironment(0, "n", 5, 7, dek, nonce));
    NeighboursCollide(call);
    NeighbourIsWellFormed(5, 8);
    NeighbourIsWellFormed(6, 7);
    NeighbourIsElsewhere(5, 8);
    NeighbourIsElsewhere(6, 7);
    MemberMayCreate(s, 5, 8, call);
    MemberMayCreate(s, 6, 7, call);
    AnswerAndState(s, Neighbour(5, 8), call, 0);
    AnswerAndState(s, Neighbour(6, 7), call, 0);
  }

  lemma NeighboursCollide(call: C.Call)
    requires call.op.CreateEnvironment? && call.op.envId == 5 && call.op.keyId == 7
    ensures Collision(Neighbour(5, 8), call.op) == Some(IntegrityError)
    ensures Collision(Neighbour(6, 7), call.op) == Some(EnvironmentAlreadyExists)
  {
  }

  lemma MemberMayCreate(s: Suite, env: Id, key: Id, call: C.Call)
    requires call.org == 0 && call.actor == 0 && call.op.CreateEnvironment? && call.op.project == 0
    ensures ReachesDraw(s, Neighbour(env, key), call)
  {
    assert HOME.memberships[0] == Membership(0, 0, Member);
  }

  lemma HomeIsConstrained()
    ensures TableConstraints(HOME)
  {
    assert UniqueEmails(HOME.users) && UniqueSlugs(HOME.orgs);
    assert MembershipConstraints(HOME.memberships, HOME.users.Keys, HOME.orgs.Keys);
    assert ProjectConstraints(HOME.projects, HOME.orgs.Keys);
  }

  lemma NeighbourIsWellFormed(env: Id, key: Id)
    ensures WellFormed(Neighbour(env, key))
  {
    var row := EncryptionKey(env, [], 1, true);
    var moved := HOME.(environments := HOME.environments[env := Environment(1, "e")]);
    assert moved.keys == map[];
    assert Neighbour(env, key) == moved.(keys := moved.keys[key := row]);
    hide TableConstraints;
    HomeIsConstrained();
    Integrity.EnvironmentRow(HOME, env, Environment(1, "e"));
    Integrity.KeyRow(moved, key, row);
  }

  lemma NeighbourIsElsewhere(env: Id, key: Id)
    ensures SliceOf(Neighbour(env, key), 0) == SliceOf(HOME, 0)
  {
    assert EnvironmentSlice(Neighbour(env, key).environments, ProjectSlice(HOME.projects, 0).Keys) == map[];
  }
}
