/**
 Units of work sharing a pool of connections, statement by statement. A unit takes a
 connection with its first statement of a transaction and gives it back when the
 transaction ends, so the statements of several units interleave and one connection
 serves different users and organizations in turn.
 */
module ConnectionPool {
  import opened Prelude
  import opened Schema

  /** A PostgreSQL setting: its session value, and the value set for this transaction only. */
  datatype Setting = Setting(session: Option<Id>, local: Option<Option<Id>>) {
    function Value(): Option<Id> {
      if local.Some? then local.value else session
    }

    /** set_config(name, value, true). */
    function SetLocal(value: Option<Id>): Setting {
      this.(local := Some(value))
    }

    /** COMMIT and ROLLBACK both drop the local value. */
    function EndTransaction(): Setting {
      this.(local := None)
    }
  }

  const UNSET := Setting(None, None)

  datatype Connection = Connection(user: Setting, org: Setting, holder: Option<Id>) {
    function Released(): Connection {
      Connection(user.EndTransaction(), org.EndTransaction(), None)
    }
  }

  /** A unit of work: its own context, the connection of its open transaction, and how many of
      the two set_config statements of set_rls_context it has still to send. After a failed
      statement the transaction takes no more statements until it ends. */
  datatype Work = Work(
    user: Option<Id>, org: Option<Id>, connection: Option<Id>, pending: nat, aborted: bool, closed: bool)

  datatype Pool = Pool(connections: map<Id, Connection>, units: map<Id, Work>)

  /** The connection a statement runs on when its unit holds none is the pool's choice. A commit of
      an aborted transaction returns too, although PostgreSQL rolls back. */
  datatype Action =
    | Connect(connection: Id)
    | Enter(unit: Id, user: Option<Id>, org: Option<Id>)
    | SetConfig(unit: Id, connection: Id)
    | Query(unit: Id, connection: Id)
    | StatementFails(unit: Id, connection: Id)
    | CommitReturns(unit: Id)
    | TransactionEnds(unit: Id)
    | Exit(unit: Id)

  predicate IsOpen(p: Pool, u: Id) {
    u in p.units && !p.units[u].closed
  }

  predicate TakesStatements(p: Pool, u: Id) {
    IsOpen(p, u) && !p.units[u].aborted
  }

  /** The connection the unit's next statement uses: its own, or a free one. */
  function ConnectionFor(p: Pool, u: Id, free: Id): Option<Id>
    requires u in p.units
  {
    if p.units[u].connection.Some? then p.units[u].connection
    else if free in p.connections && p.connections[free].holder.None? then Some(free)
    else None
  }

  predicate Enabled(p: Pool, a: Action) {
    match a
    case Connect(c) => c !in p.connections
    case Enter(u, _, _) => u !in p.units
    case SetConfig(u, c) => TakesStatements(p, u) && p.units[u].pending > 0 && ConnectionFor(p, u, c).Some?
    case Query(u, c) => TakesStatements(p, u) && p.units[u].pending == 0 && ConnectionFor(p, u, c).Some?
    case StatementFails(u, c) => TakesStatements(p, u) && ConnectionFor(p, u, c).Some?
    case CommitReturns(u) => IsOpen(p, u) && p.units[u].pending == 0
    case TransactionEnds(u) => IsOpen(p, u)
    case Exit(u) => IsOpen(p, u)
  }

  function Acquire(p: Pool, u: Id, c: Id): Pool
    requires u in p.units && c in p.connections
  {
    Pool(p.connections[c := p.connections[c].(holder := Some(u))], p.units[u := p.units[u].(connection := Some(c))])
  }

  function Release(p: Pool, u: Id): Pool
    requires u in p.units
  {
    var c := p.units[u].connection;
    Pool(if c.Some? && c.value in p.connections then p.connections[c.value := p.connections[c.value].Released()]
         else p.connections,
         p.units[u := p.units[u].(connection := None, aborted := false)])
  }

  function SendSetting(p: Pool, u: Id, c: Id): Pool
    requires u in p.units && c in p.connections && p.units[u].pending > 0
  {
    var (w, k) := (p.units[u], p.connections[c]);
    var k' := if w.pending == 2 then k.(user := k.user.SetLocal(w.user)) else k.(org := k.org.SetLocal(w.org));
    Pool(p.connections[c := k'], p.units[u := w.(pending := w.pending - 1)])
  }

  function Next(p: Pool, a: Action): Pool {
    if !Enabled(p, a) then p
    else
      match a
      case Connect(c) => p.(connections := p.connections[c := Connection(UNSET, UNSET, None)])
      case Enter(u, user, org) => p.(units := p.units[u := Work(user, org, None, 2, false, false)])
      case SetConfig(u, free) =>
        var c := ConnectionFor(p, u, free).value;
        if c in p.connections then SendSetting(Acquire(p, u, c), u, c) else p
      case Query(u, free) =>
        var c := ConnectionFor(p, u, free).value;
        if c in p.connections then Acquire(p, u, c) else p
      case StatementFails(u, free) =>
        var c := ConnectionFor(p, u, free).value;
        if c in p.connections then
          var q := Acquire(p, u, c);
          q.(units := q.units[u := q.units[u].(aborted := true)])
        else p
      case CommitReturns(u) =>
        var q := Release(p, u);
        q.(units := q.units[u := q.units[u].(pending := 2)])
      case TransactionEnds(u) =>
        var q := Release(p, u);
        q.(units := q.units[u := q.units[u].(pending := 0)])
      case Exit(u) =>
        var q := Release(p, u);
        q.(units := q.units[u := q.units[u].(closed := true)])
  }

  function Run(actions: seq<Action>): Pool {
    if actions == [] then Pool(map[], map[])
    else Next(Run(actions[..|actions| - 1]), actions[|actions| - 1])
  }

  /** The settings the policies of a query read. */
  function Seen(p: Pool, u: Id, free: Id): (Option<Id>, Option<Id>)
    requires u in p.units
  {
    match ConnectionFor(p, u, free)
    case None => (None, None)
    case Some(c) =>
      if c in p.connections then (p.connections[c].user.Value(), p.connections[c].org.Value()) else (None, None)
  }

  // -- The history of a unit -------------------------------------------------

  /** The unit's last entry, commit or rollback was a rollback. */
  predicate RolledBack(actions: seq<Action>, u: Id) {
    if actions == [] then false
    else
      var (past, a) := (actions[..|actions| - 1], actions[|actions| - 1]);
      if !Enabled(Run(past), a) then RolledBack(past, u)
      else
        match a
        case Enter(unit, _, _) => unit != u && RolledBack(past, u)
        case CommitReturns(unit) => unit != u && RolledBack(past, u)
        case TransactionEnds(unit) => unit == u || RolledBack(past, u)
        case _ => RolledBack(past, u)
  }

  predicate OnConnection(a: Action) {
    a.SetConfig? || a.Query? || a.StatementFails?
  }

  // -- The invariant ---------------------------------------------------------

  /** Only local values are ever set, and a free connection has none. */
  ghost predicate ConnectionInv(p: Pool, c: Id) {
    c in p.connections ==>
      var k := p.connections[c];
      && k.user.session.None? && k.org.session.None?
      && (k.holder.None? ==> k.user.local.None? && k.org.local.None?)
      && (k.holder.Some? ==> k.holder.value in p.units && p.units[k.holder.value].connection == Some(c))
  }

  ghost predicate UnitInv(p: Pool, u: Id, rolledBack: bool) {
    u in p.units ==>
      var w := p.units[u];
      && w.pending <= 2
      && (w.closed || (w.pending == 2 && !w.aborted) ==> w.connection.None?)
      && (w.connection.Some? ==>
            w.connection.value in p.connections && p.connections[w.connection.value].holder == Some(u))
      && (rolledBack ==> w.pending == 0 || w.closed)
      && (!w.closed && !rolledBack && w.pending < 2 ==> w.connection.Some?)
      && (w.connection.Some? ==>
            var k := p.connections[w.connection.value];
            && k.user.local == (if rolledBack || w.pending == 2 then None else Some(w.user))
            && k.org.local == (if rolledBack || w.pending > 0 then None else Some(w.org)))
  }

  ghost predicate Inv(actions: seq<Action>) {
    && (forall c :: ConnectionInv(Run(actions), c))
    && (forall u :: UnitInv(Run(actions), u, RolledBack(actions, u)))
  }

  lemma NextKeepsConnection(actions: seq<Action>, a: Action, c: Id)
    requires Inv(actions)
    ensures ConnectionInv(Next(Run(actions), a), c)
  {
    var p := Run(actions);
    assert ConnectionInv(p, c);
    if !a.Connect? {
      assert UnitInv(p, a.unit, RolledBack(actions, a.unit));
    }
  }

  lemma NextKeepsUnit(actions: seq<Action>, a: Action, u: Id)
    requires Inv(actions)
    ensures UnitInv(Next(Run(actions), a), u, RolledBack(actions + [a], u))
  {
    var p := Run(actions);
    var (rolledBack, rolledBack') := (RolledBack(actions, u), RolledBack(actions + [a], u));
    assert (actions + [a])[..|actions|] == actions;
    assert UnitInv(p, u, rolledBack);
    if Enabled(p, a) && !a.Connect? {
      assert UnitInv(p, a.unit, RolledBack(actions, a.unit));
      if OnConnection(a) {
        var c := ConnectionFor(p, a.unit, a.connection).value;
        assert ConnectionInv(p, c);
      }
      assert a.unit == u && (a.Enter? || a.CommitReturns?) ==> !rolledBack';
      assert a.unit == u && a.TransactionEnds? ==> rolledBack';
      assert a.unit != u || OnConnection(a) || a.Exit? ==> rolledBack' == rolledBack;
      hide Run, RolledBack, Inv;
      if a.unit == u {
        OwnStep(p, a, rolledBack, rolledBack');
      } else {
        OthersStep(p, a, u, RolledBack(actions, a.unit), rolledBack);
      }
    }
  }

  lemma OwnStep(p: Pool, a: Action, rolledBack: bool, rolledBack': bool)
    requires Enabled(p, a) && !a.Connect? && UnitInv(p, a.unit, rolledBack)
    requires OnConnection(a) ==> ConnectionInv(p, ConnectionFor(p, a.unit, a.connection).value)
    requires a.Enter? || a.CommitReturns? ==> !rolledBack'
    requires a.TransactionEnds? ==> rolledBack'
    requires OnConnection(a) || a.Exit? ==> rolledBack' == rolledBack
    ensures UnitInv(Next(p, a), a.unit, rolledBack')
  {
  }

  lemma OthersStep(p: Pool, a: Action, u: Id, actorRolledBack: bool, rolledBack: bool)
    requires Enabled(p, a) && !a.Connect? && a.unit != u && UnitInv(p, u, rolledBack)
    requires !a.Enter? ==> UnitInv(p, a.unit, actorRolledBack)
    requires OnConnection(a) ==> ConnectionInv(p, ConnectionFor(p, a.unit, a.connection).value)
    ensures UnitInv(Next(p, a), u, rolledBack)
  {
  }

  lemma {:induction false} PoolInvariant(actions: seq<Action>)
    ensures Inv(actions)
  {
    if actions != [] {
      var (past, a) := (actions[..|actions| - 1], actions[|actions| - 1]);
      assert actions == past + [a];
      PoolInvariant(past);
      hide ConnectionInv, UnitInv, Next;
      forall c ensures ConnectionInv(Run(actions), c) {
        NextKeepsConnection(past, a, c);
      }
      forall u ensures UnitInv(Run(actions), u, RolledBack(actions, u)) {
        NextKeepsUnit(past, a, u);
      }
    }
  }

  // -- No context leaks ------------------------------------------------------

  /** However units share the connections, a query sees its own unit's user and organization,
      or, from a rollback until the next successful commit, neither. */
  lemma QueriesSeeTheirOwnContext(actions: seq<Action>, u: Id, free: Id)
    requires Enabled(Run(actions), Query(u, free))
    ensures var w := Run(actions).units[u];
            Seen(Run(actions), u, free) == if RolledBack(actions, u) then (None, None) else (w.user, w.org)
  {
    var p := Run(actions);
    PoolInvariant(actions);
    assert UnitInv(p, u, RolledBack(actions, u));
    assert ConnectionInv(p, ConnectionFor(p, u, free).value);
  }

  /** After the whole of set_rls_context, which entry and every successful commit run, the unit
      is in its own context. */
  lemma ContextIsSetOnEntryAndCommit(actions: seq<Action>, u: Id, first: Id, second: Id)
    requires IsOpen(Run(actions), u) && Run(actions).units[u].pending == 2
    requires Enabled(Run(actions), SetConfig(u, first))
    ensures var after := actions + [SetConfig(u, first), SetConfig(u, second)];
            var w := Run(actions).units[u];
            && Enabled(Run(after), Query(u, second))
            && Seen(Run(after), u, second) == (w.user, w.org)
  {
    var p := Run(actions);
    var half := actions + [SetConfig(u, first)];
    var after := half + [SetConfig(u, second)];
    assert half[..|actions|] == actions && after[..|half|] == half;
    assert after == actions + [SetConfig(u, first), SetConfig(u, second)];
    PoolInvariant(actions);
    assert UnitInv(p, u, RolledBack(actions, u));
    assert ConnectionInv(p, first);
  }

  /** A connection is never used by two open transactions. */
  lemma ConnectionsAreExclusive(actions: seq<Action>, u: Id, v: Id)
    requires u in Run(actions).units && v in Run(actions).units
    requires Run(actions).units[u].connection.Some?
    requires Run(actions).units[u].connection == Run(actions).units[v].connection
    ensures u == v
  {
    PoolInvariant(actions);
    assert UnitInv(Run(actions), u, RolledBack(actions, u)) && UnitInv(Run(actions), v, RolledBack(actions, v));
  }
}
