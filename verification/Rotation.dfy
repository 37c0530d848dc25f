/** The rotation protocol over all runs: what refresh accepts, what stays revoked, and what a
    stolen token can do. */
module Rotation {
  import opened Prelude
  import opened Schema
  import opened Repositories
  import opened Tokens
  import opened TokenHistory

  // -- Acceptance is a fact of the history -----------------------------------

  /** Each answer of refresh, decided by the history alone. */
  lemma RefreshIsDecidedByHistory(lifetime: Time, events: seq<Event>, presented: string, raw: string, id: Id,
                                  clock: Clock)
    ensures var (db, trace) := Run(lifetime, events);
            var r := RefreshOutcome(lifetime, db, presented, raw, id, clock).1;
            match GrantOf(trace, presented)
            case None => r == Failure(InvalidRefreshToken(Unknown))
            case Some(g) =>
              if Ended(trace, presented) then r == Failure(InvalidRefreshToken(Reused))
              else if g.at + lifetime <= clock.check then r == Failure(InvalidRefreshToken(Expired))
              else if !Active(trace, g.user) then r == Failure(InvalidRefreshToken(Unusable))
              else if id in db.tokens || GrantOf(trace, raw).Some? then r == Failure(IntegrityError)
              else r == Success(Granted(g.user, raw))
  {
    var (db, trace) := Run(lifetime, events);
    TableHoldsHistory(lifetime, events);
    RunKeepsConstraints(lifetime, events);
    StoredRow(lifetime, db.tokens, trace, presented);
    StoredRow(lifetime, db.tokens, trace, raw);
    var stored := Pick(ByDigest(db.tokens, Sha256(presented)));
    if stored.Some? {
      var row := db.tokens[stored.value];
      assert UserAgrees(db.users, trace, row.user);
      var revoked := Revoke(db.tokens, stored.value, clock.revoke);
      assert ByDigest(revoked, Sha256(raw)) == ByDigest(db.tokens, Sha256(raw));
    }
  }

  /** A token is accepted if and only if some answer handed it out less than the lifetime ago,
      its user is active, and nothing since has ended it. The new token must not collide. */
  lemma AcceptedIffGrantedAndNotEnded(lifetime: Time, events: seq<Event>, presented: string, raw: string, id: Id,
                                      clock: Clock)
    requires id !in Run(lifetime, events).0.tokens && GrantOf(Run(lifetime, events).1, raw).None?
    ensures var (db, trace) := Run(lifetime, events);
            RefreshOutcome(lifetime, db, presented, raw, id, clock).1.Success? <==>
              exists i | 0 <= i < |trace| ::
                && Grants(trace[i], presented)
                && clock.check < IssuedAt(trace[i].event) + lifetime
                && Active(trace, trace[i].response.value.user)
                && (forall j | i < j < |trace| :: !Ends(trace[..j], trace[j], presented))
  {
    var (db, trace) := Run(lifetime, events);
    RefreshIsDecidedByHistory(lifetime, events, presented, raw, id, clock);
    hide RefreshOutcome, Active, Run, Ends, GrantOf, Ended;
    GrantMeans(trace, presented);
    EndedMeans(trace, presented);
    forall i | 0 <= i < |trace| && Grants(trace[i], presented)
      ensures GrantOf(trace, presented) == Some(Grant(trace[i].response.value.user, IssuedAt(trace[i].event)))
      ensures forall j | 0 <= j <= i :: !Ends(trace[..j], trace[j], presented)
    {
      GrantedOnce(lifetime, events, presented, i);
    }
  }

  lemma {:induction false} RunIsPrefix(lifetime: Time, events: seq<Event>, n: nat)
    requires n <= |events|
    ensures Run(lifetime, events).1[..n] == Run(lifetime, events[..n]).1
  {
    if n == |events| {
      assert events[..n] == events;
    } else {
      RunIsPrefix(lifetime, events[..|events| - 1], n);
      assert events[..|events| - 1][..n] == events[..n];
    }
  }

  lemma RunStep(lifetime: Time, events: seq<Event>, i: nat)
    requires i < |events|
    ensures var (db, response) := Respond(lifetime, Run(lifetime, events[..i]).0, events[i]);
            Run(lifetime, events[..i + 1]).0 == db && Run(lifetime, events).1[i] == Observed(events[i], response)
  {
    assert events[..i + 1][..i] == events[..i];
    RunIsPrefix(lifetime, events, i + 1);
  }

  /** A raw token is handed out at most once, and nothing ends it before that. */
  lemma {:induction false} GrantedOnce(lifetime: Time, events: seq<Event>, raw: string, i: nat)
    requires i < |events| && Grants(Run(lifetime, events).1[i], raw)
    ensures var trace := Run(lifetime, events).1;
            && GrantOf(trace, raw) == Some(Grant(trace[i].response.value.user, IssuedAt(trace[i].event)))
            && forall j | 0 <= j <= i :: !Ends(trace[..j], trace[j], raw)
  {
    var (past, e) := (events[..|events| - 1], events[|events| - 1]);
    var (db, before) := Run(lifetime, past);
    var trace := Run(lifetime, events).1;
    assert trace[..|before|] == before;
    if Grants(trace[|before|], raw) {
      NewlyGranted(lifetime, past, e, raw);
      GrantMeans(before, raw);
      forall j | 0 <= j <= i ensures !Ends(trace[..j], trace[j], raw) {
        assert trace[..j] == before[..j];
        GrantMeans(before[..j], raw);
      }
    } else {
      GrantedOnce(lifetime, past, raw, i);
      forall j | 0 <= j <= i ensures !Ends(trace[..j], trace[j], raw) {
        assert trace[..j] == before[..j];
      }
    }
  }

  lemma NewlyGranted(lifetime: Time, events: seq<Event>, e: Event, raw: string)
    requires Grants(Observed(e, Respond(lifetime, Run(lifetime, events).0, e).1), raw)
    ensures GrantOf(Run(lifetime, events).1, raw).None?
  {
    var (db, trace) := Run(lifetime, events);
    TableHoldsHistory(lifetime, events);
    StoredRow(lifetime, db.tokens, trace, raw);
    hide RowAgrees, TokensAgree, UsersAgree;
    match e
    case Login(_, _, _, _, _) =>
    case Refresh(presented, _, id, clock) =>
      var stored := Pick(ByDigest(db.tokens, Sha256(presented)));
      assert ByDigest(Revoke(db.tokens, stored.value, clock.revoke), Sha256(raw)) == ByDigest(db.tokens, Sha256(raw));
  }

  // -- Revocation is final ---------------------------------------------------

  /** Rows stay, and change at most from unrevoked to revoked. */
  ghost predicate OnlyRevokes(tokens: map<Id, RefreshToken>, tokens': map<Id, RefreshToken>) {
    forall i | i in tokens ::
      && i in tokens'
      && tokens'[i].(revoked := None) == tokens[i].(revoked := None)
      && (tokens[i].revoked.Some? ==> tokens'[i] == tokens[i])
  }

  lemma RespondOnlyRevokes(lifetime: Time, db: AuthDb, e: Event)
    ensures OnlyRevokes(db.tokens, Respond(lifetime, db, e).0.tokens)
  {
    hide UsersByEmail, ByDigest;
  }

  lemma {:induction false} RevocationIsFinal(lifetime: Time, events: seq<Event>, n: nat)
    requires n <= |events|
    ensures OnlyRevokes(Run(lifetime, events[..n]).0.tokens, Run(lifetime, events).0.tokens)
  {
    if n == |events| {
      assert events[..n] == events;
    } else {
      var past := events[..|events| - 1];
      RevocationIsFinal(lifetime, past, n);
      assert past[..n] == events[..n];
      RespondOnlyRevokes(lifetime, Run(lifetime, past).0, events[|events| - 1]);
    }
  }

  // -- The unrevoked tokens of a user ----------------------------------------

  function Live(tokens: map<Id, RefreshToken>, user: Id): set<Id> {
    set i | i in tokens && tokens[i].user == user && tokens[i].revoked.None?
  }

  lemma LiveAfter(tokens: map<Id, RefreshToken>, id: Id, owner: Id, now: Time, user: Id)
    ensures Live(Revoke(tokens, id, now), user) == Live(tokens, user) - {id}
    ensures Live(RevokeAllForUser(tokens, owner, now), user) == if user == owner then {} else Live(tokens, user)
  {
    if user == owner {
      assert Live(RevokeAllForUser(tokens, owner, now), user) == {};
    }
  }

  lemma LiveAfterInsert(tokens: map<Id, RefreshToken>, id: Id, row: RefreshToken, user: Id)
    requires id !in tokens && row.revoked.None?
    ensures Live(tokens[id := row], user) == Live(tokens, user) + if row.user == user then {id} else {}
  {
  }

  lemma LiveAfterTrade(tokens: map<Id, RefreshToken>, stored: Id, id: Id, row: RefreshToken, now: Time, user: Id)
    requires stored in tokens && tokens[stored].user == row.user && tokens[stored].revoked.None?
    requires id !in tokens && row.revoked.None?
    ensures |Live(Revoke(tokens, stored, now)[id := row], user)| == |Live(tokens, user)|
    ensures user != row.user ==> Live(Revoke(tokens, stored, now)[id := row], user) == Live(tokens, user)
  {
    LiveAfter(tokens, stored, row.user, now, user);
    LiveAfterInsert(Revoke(tokens, stored, now), id, row, user);
    assert id !in Live(tokens, user) && (stored in Live(tokens, user) <==> user == row.user);
  }

  /** A successful refresh trades one unrevoked token of its user for another and leaves other
      users' as they were; a failing one adds none. */
  lemma RefreshConservesLive(lifetime: Time, db: AuthDb, presented: string, raw: string, id: Id, clock: Clock, user: Id)
    ensures var (db', r) := RefreshOutcome(lifetime, db, presented, raw, id, clock);
            if r.Success? then
              && |Live(db'.tokens, user)| == |Live(db.tokens, user)|
              && (user != r.value.user ==> Live(db'.tokens, user) == Live(db.tokens, user))
            else Live(db'.tokens, user) <= Live(db.tokens, user)
  {
    var found := Pick(ByDigest(db.tokens, Sha256(presented)));
    if found.Some? {
      var stored := found.value;
      var owner := db.tokens[stored].user;
      LiveAfter(db.tokens, stored, owner, clock.revoke, user);
      assert Revoke(db.tokens, stored, clock.revoke).Keys == db.tokens.Keys;
      if db.tokens[stored].revoked.None? && id !in db.tokens {
        LiveAfterTrade(db.tokens, stored, id, RefreshToken(owner, Sha256(raw), clock.issue + lifetime, None),
                       clock.revoke, user);
      }
      hide Live, Revoke, RevokeAllForUser, ByDigest;
    }
  }

  /** Reuse and an unusable account leave the token's user without an unrevoked token. */
  lemma SweepLeavesNone(lifetime: Time, db: AuthDb, presented: string, raw: string, id: Id, clock: Clock, t: Id)
    requires AuthConstraints(db) && t in ByDigest(db.tokens, Sha256(presented))
    ensures var (db', r) := RefreshOutcome(lifetime, db, presented, raw, id, clock);
            r in {Failure(InvalidRefreshToken(Reused)), Failure(InvalidRefreshToken(Unusable))} ==>
              Live(db'.tokens, db.tokens[t].user) == {}
  {
    var user := db.tokens[t].user;
    assert Pick(ByDigest(db.tokens, Sha256(presented))) == Some(t);
    LiveAfter(db.tokens, t, user, clock.revoke, user);
    hide Live, Revoke, RevokeAllForUser, ByDigest, AuthConstraints;
  }

  lemma LoginAddsOneLive(lifetime: Time, db: AuthDb, email: string, password: string, raw: string, id: Id, now: Time,
                         user: Id)
    ensures var (db', r) := LoginOutcome(lifetime, db, email, password, raw, id, now);
            && (r.Success? && r.value.user == user ==> |Live(db'.tokens, user)| == |Live(db.tokens, user)| + 1)
            && (r.Success? && r.value.user != user ==> Live(db'.tokens, user) == Live(db.tokens, user))
            && (r.Failure? ==> db' == db)
  {
    hide Live, UsersByEmail, ByDigest;
    var (db', r) := LoginOutcome(lifetime, db, email, password, raw, id, now);
    if r.Success? {
      LiveAfterInsert(db.tokens, id, RefreshToken(r.value.user, Sha256(raw), now + lifetime, None), user);
      LiveIsStored(db.tokens, user);
    }
  }

  lemma LiveIsStored(tokens: map<Id, RefreshToken>, user: Id)
    ensures Live(tokens, user) <= tokens.Keys
  {
  }

  lemma PresentedIsRevoked(lifetime: Time, db: AuthDb, presented: string, raw: string, id: Id, clock: Clock, t: Id)
    requires AuthConstraints(db) && t in ByDigest(db.tokens, Sha256(presented))
    ensures var (db', r) := RefreshOutcome(lifetime, db, presented, raw, id, clock);
            if r == Failure(IntegrityError) then db' == db
            else t in db'.tokens && db'.tokens[t].revoked.Some?
  {
  }

  /** The token passes every check of refresh. */
  predicate Valid(lifetime: Time, trace: Trace, presented: string, now: Time) {
    && GrantOf(trace, presented).Some? && !Ended(trace, presented)
    && now < GrantOf(trace, presented).value.at + lifetime
    && Active(trace, GrantOf(trace, presented).value.user)
  }

  /** After this history the refresh gets as far as its new row, and that collides with a stored one. */
  ghost predicate Collides(lifetime: Time, past: seq<Event>, e: Event)
    requires e.Refresh?
  {
    var (db, trace) := Run(lifetime, past);
    Valid(lifetime, trace, e.presented, e.clock.check) && (e.id in db.tokens || GrantOf(trace, e.raw).Some?)
  }

  lemma CollisionMeans(lifetime: Time, past: seq<Event>, e: Event)
    requires e.Refresh?
    ensures var db := Run(lifetime, past).0;
            var (db', r) := Respond(lifetime, db, e);
            && (Collides(lifetime, past, e) <==> r == Failure(IntegrityError))
            && (Collides(lifetime, past, e) ==> db' == db)
  {
    RefreshIsDecidedByHistory(lifetime, past, e.presented, e.raw, e.id, e.clock);
    CollisionKeepsState(lifetime, Run(lifetime, past).0, e);
    hide Run, Respond, RefreshOutcome, GrantOf, Ended, Active;
  }

  lemma CollisionKeepsState(lifetime: Time, db: AuthDb, e: Event)
    requires e.Refresh?
    ensures var out := RefreshOutcome(lifetime, db, e.presented, e.raw, e.id, e.clock);
            Respond(lifetime, db, e) == out && (out.1 == Failure(IntegrityError) ==> out.0 == db)
  {
  }

  /** Presenting a stored token to refresh a second time, however much later, leaves its user
      without a single unrevoked token, unless the first presentation collided. */
  lemma SecondPresentationRevokesEverything(lifetime: Time, events: seq<Event>, i: nat, j: nat, t: Id)
    requires i < j < |events| && events[i].Refresh? && events[j].Refresh? && events[i].presented == events[j].presented
    requires t in ByDigest(Run(lifetime, events[..i]).0.tokens, Sha256(events[i].presented))
    requires !Collides(lifetime, events[..i], events[i])
    ensures Run(lifetime, events).1[j].response == Failure(InvalidRefreshToken(Reused))
    ensures t in Run(lifetime, events[..j]).0.tokens
    ensures Live(Run(lifetime, events[..j + 1]).0.tokens, Run(lifetime, events[..j]).0.tokens[t].user) == {}
  {
    var (first, second) := (events[i], events[j]);
    CollisionMeans(lifetime, events[..i], first);
    hide Run, Live, Collides;
    RunStep(lifetime, events, i);
    RunStep(lifetime, events, j);
    RunKeepsConstraints(lifetime, events[..i]);
    RunKeepsConstraints(lifetime, events[..j]);
    assert events[..j][..i + 1] == events[..i + 1];
    RevocationIsFinal(lifetime, events[..j], i + 1);
    assert events[..j][..i] == events[..i];
    RevocationIsFinal(lifetime, events[..j], i);
    var (before, later) := (Run(lifetime, events[..i]).0, Run(lifetime, events[..j]).0);
    PresentedIsRevoked(lifetime, before, first.presented, first.raw, first.id, first.clock, t);
    assert t in ByDigest(later.tokens, Sha256(second.presented));
    SweepLeavesNone(lifetime, later, second.presented, second.raw, second.id, second.clock, t);
  }

  /** Two presentations in a row, the second in time and with draws of its own that are free: the
      user is left without an unrevoked token if and only if the first did not collide. When it
      did, it changed nothing, and the second is accepted. */
  lemma TwoPresentationsInARow(lifetime: Time, past: seq<Event>, first: Event, second: Event, t: Id)
    requires first.Refresh? && second.Refresh? && first.presented == second.presented
    requires var (db, trace) := Run(lifetime, past);
             && t in ByDigest(db.tokens, Sha256(first.presented))
             && second.clock.check < db.tokens[t].expires
             && second.id !in db.tokens && GrantOf(trace, second.raw).None?
    ensures var (db, after) := (Run(lifetime, past).0, Run(lifetime, past + [first, second]));
            && t in db.tokens
            && (Live(after.0.tokens, db.tokens[t].user) == {} <==> !Collides(lifetime, past, first))
            && (Collides(lifetime, past, first) ==>
                  && Run(lifetime, past + [first]).0 == db
                  && after.1[|past| + 1].response == Success(Granted(db.tokens[t].user, second.raw)))
  {
    var events := past + [first, second];
    var half := past + [first];
    assert events[..|past|] == past && events[..|past| + 1] == half && events[..|events|] == events;
    assert events[..|past| + 2] == events;
    RunStep(lifetime, events, |past|);
    RunStep(lifetime, events, |past| + 1);
    CollisionMeans(lifetime, past, first);
    hide Run, Live, Respond, Collides;
    if Collides(lifetime, past, first) {
      SparedTokenIsAccepted(lifetime, past, first, second, t);
    } else {
      SecondPresentationRevokesEverything(lifetime, events, |past|, |past| + 1, t);
      RunKeepsUsers(lifetime, events, |past|, t);
    }
  }

  lemma RunKeepsUsers(lifetime: Time, events: seq<Event>, n: nat, t: Id)
    requires n < |events| && t in Run(lifetime, events[..n]).0.tokens
    ensures t in Run(lifetime, events[..n + 1]).0.tokens
    ensures Run(lifetime, events[..n + 1]).0.tokens[t].user == Run(lifetime, events[..n]).0.tokens[t].user
  {
    assert events[..n + 1][..n] == events[..n];
    hide Run;
    RevocationIsFinal(lifetime, events[..n + 1], n);
  }

  lemma SparedTokenIsAccepted(lifetime: Time, past: seq<Event>, first: Event, second: Event, t: Id)
    requires first.Refresh? && second.Refresh? && first.presented == second.presented && Collides(lifetime, past, first)
    requires var (db, trace) := Run(lifetime, past);
             && t in ByDigest(db.tokens, Sha256(first.presented)) && second.clock.check < db.tokens[t].expires
             && second.id !in db.tokens && GrantOf(trace, second.raw).None?
    ensures var (db', r) := Respond(lifetime, Run(lifetime, past).0, second);
            && r == Success(Granted(Run(lifetime, past).0.tokens[t].user, second.raw))
            && Live(db'.tokens, Run(lifetime, past).0.tokens[t].user) != {}
  {
    var (db, trace) := Run(lifetime, past);
    RunKeepsConstraints(lifetime, past);
    TableHoldsHistory(lifetime, past);
    StoredRow(lifetime, db.tokens, trace, first.presented);
    assert Pick(ByDigest(db.tokens, Sha256(first.presented))) == Some(t);
    RefreshIsDecidedByHistory(lifetime, past, second.presented, second.raw, second.id, second.clock);
    CollisionKeepsState(lifetime, db, second);
    hide Run, GrantOf, Ended, Active, TokensAgree, UsersAgree, AuthConstraints;
    NewTokenIsLive(lifetime, db, second);
  }

  lemma NewTokenIsLive(lifetime: Time, db: AuthDb, e: Event)
    requires e.Refresh?
    ensures var (db', r) := Respond(lifetime, db, e);
            r.Success? ==> r.value.Granted? && Live(db'.tokens, r.value.user) != {}
  {
    var (db', r) := Respond(lifetime, db, e);
    if r.Success? {
      assert e.id in Live(db'.tokens, r.value.user);
    }
  }

  /** Collisions happen: a refresh that draws the very token it presents collides whenever the
      token is valid, and after this login it is. */
  lemma DrawingThePresentedTokenCollides(lifetime: Time, past: seq<Event>, e: Event)
    requires e.Refresh? && e.raw == e.presented && Valid(lifetime, Run(lifetime, past).1, e.presented, e.clock.check)
    ensures Collides(lifetime, past, e)
  {
  }

  const FIRST_LOGIN := [
    NewUser(0, User("u", Some(Argon2("p")), true)), Login("u", "p", "r", 0, 0)]

  lemma RunAppended(lifetime: Time, past: seq<Event>, e: Event)
    ensures var (db, trace) := Run(lifetime, past);
            var (db', response) := Respond(lifetime, db, e);
            Run(lifetime, past + [e]) == (db', trace + [Observed(e, response)])
  {
    assert (past + [e])[..|past|] == past;
  }

  lemma FirstLoginIsValid(lifetime: Time)
    requires lifetime > 0
    ensures Valid(lifetime, Run(lifetime, FIRST_LOGIN).1, "r", 0)
    ensures Collides(lifetime, FIRST_LOGIN, Refresh("r", "r", 1, Clock(0, 0, 0)))
  {
    var (signUp, login) := (FIRST_LOGIN[0], FIRST_LOGIN[1]);
    var user := User("u", Some(Argon2("p")), true);
    assert [] + [signUp] == [signUp] && [signUp] + [login] == FIRST_LOGIN;
    assert UsersByEmail(map[], "u") == {} && UsersByEmail(map[0 := user], "u") == {0};
    assert ByDigest(map[], Sha256("r")) == {};
    RunAppended(lifetime, [], signUp);
    RunAppended(lifetime, [signUp], login);
    var before := [Observed(signUp, Success(Done))];
    var trace := before + [Observed(login, Success(Granted(0, "r")))];
    assert Run(lifetime, FIRST_LOGIN).1 == trace;
    assert trace[..1] == before && before[..|before| - 1] == [];
    assert GrantOf([], "r").None? && !Ended([], "r") && !Ends([], before[0], "r");
    assert Known(before, 0) && GrantOf(before, "r").None? && !Ended(before, "r");
    DrawingThePresentedTokenCollides(lifetime, FIRST_LOGIN, Refresh("r", "r", 1, Clock(0, 0, 0)));
  }

  // -- Failures --------------------------------------------------------------

  /** A call that raises leaves the committed state as it was, except the three failing branches
      of refresh that commit before they raise: they commit their revocations and nothing else. */
  lemma OnlyThreeFailuresCommit(lifetime: Time, db: AuthDb, e: Event)
    requires AuthConstraints(db)
    ensures var (db', r) := Respond(lifetime, db, e);
            && (r.Failure? && !(r.error.InvalidRefreshToken? && r.error.fault != Unknown) ==> db' == db)
            && (r.Failure? && r.error.InvalidRefreshToken? && r.error.fault != Unknown ==>
                  && e.Refresh? && db'.users == db.users && db'.tokens.Keys == db.tokens.Keys
                  && forall t, i | t in ByDigest(db.tokens, Sha256(e.presented)) && i in db.tokens ::
                      var struck := if r.error.fault == Expired then i == t else db.tokens[i].user == db.tokens[t].user;
                      db'.tokens[i] == if struck && db.tokens[i].revoked.None?
                                       then db.tokens[i].(revoked := Some(e.clock.revoke)) else db.tokens[i])
  {
    hide UsersByEmail, UniqueEmails, TokensBelong;
  }

  // -- Lineage ---------------------------------------------------------------

  /** The login a raw token descends from, by its position in the history. */
  function Lineage(trace: Trace, raw: string): Option<nat> {
    if trace == [] then None
    else
      var (before, last) := (trace[..|trace| - 1], trace[|trace| - 1]);
      if !Grants(last, raw) then Lineage(before, raw)
      else if last.event.Refresh? then Lineage(before, last.event.presented)
      else Some(|trace| - 1)
  }

  /** The raw token last handed out in a lineage. */
  function Newest(trace: Trace, login: nat): Option<string> {
    if trace == [] then None
    else
      var (before, last) := (trace[..|trace| - 1], trace[|trace| - 1]);
      if last.response.Success? && last.response.value.Granted?
         && Lineage(trace, last.response.value.raw) == Some(login)
      then Some(last.response.value.raw)
      else Newest(before, login)
  }

  /** In every lineage only the newest token can be in use. */
  lemma {:induction false} OnlyTheNewestIsInUse(lifetime: Time, events: seq<Event>, raw: string)
    ensures var trace := Run(lifetime, events).1;
            && (GrantOf(trace, raw).Some? <==> Lineage(trace, raw).Some?)
            && (Lineage(trace, raw).Some? ==> Lineage(trace, raw).value < |trace|)
            && (Lineage(trace, raw).Some? && !Ended(trace, raw) ==>
                  Newest(trace, Lineage(trace, raw).value) == Some(raw))
  {
    if events != [] {
      var (past, e) := (events[..|events| - 1], events[|events| - 1]);
      var (db, before) := Run(lifetime, past);
      var response := Respond(lifetime, db, e).1;
      var trace := Run(lifetime, events).1;
      assert trace == before + [Observed(e, response)] && trace[..|before|] == before;
      hide Run, Respond;
      OnlyTheNewestIsInUse(lifetime, past, raw);
      if response.Success? && response.value.Granted? {
        GrantedByLoginOrRefresh(lifetime, past, e);
        if e.Refresh? {
          OnlyTheNewestIsInUse(lifetime, past, e.presented);
        }
      }
    }
  }

  lemma GrantedByLoginOrRefresh(lifetime: Time, events: seq<Event>, e: Event)
    requires var r := Respond(lifetime, Run(lifetime, events).0, e).1; r.Success? && r.value.Granted?
    ensures var (trace, raw) := (Run(lifetime, events).1, Respond(lifetime, Run(lifetime, events).0, e).1.value.raw);
            && GrantOf(trace, raw).None?
            && (e.Login? || (e.Refresh? && GrantOf(trace, e.presented).Some? && !Ended(trace, e.presented)))
  {
    var (db, trace) := Run(lifetime, events);
    var r := Respond(lifetime, db, e).1;
    NewlyGranted(lifetime, events, e, r.value.raw);
    if e.Refresh? {
      RefreshIsDecidedByHistory(lifetime, events, e.presented, e.raw, e.id, e.clock);
    }
  }

  /** In the table: two unrevoked rows of the same lineage are one row. */
  lemma OneLiveRowPerLogin(lifetime: Time, events: seq<Event>, i: Id, j: Id)
    requires var (db, trace) := Run(lifetime, events);
             && i in db.tokens && j in db.tokens && db.tokens[i].revoked.None? && db.tokens[j].revoked.None?
             && Lineage(trace, db.tokens[i].digest.raw) == Lineage(trace, db.tokens[j].digest.raw)
    ensures i == j
    ensures Lineage(Run(lifetime, events).1, Run(lifetime, events).0.tokens[i].digest.raw).Some?
  {
    var (db, trace) := Run(lifetime, events);
    var (a, b) := (db.tokens[i].digest.raw, db.tokens[j].digest.raw);
    TableHoldsHistory(lifetime, events);
    RunKeepsConstraints(lifetime, events);
    assert i in ByDigest(db.tokens, Sha256(a)) && j in ByDigest(db.tokens, Sha256(b));
    StoredRow(lifetime, db.tokens, trace, a);
    StoredRow(lifetime, db.tokens, trace, b);
    OnlyTheNewestIsInUse(lifetime, events, a);
    OnlyTheNewestIsInUse(lifetime, events, b);
  }
}
