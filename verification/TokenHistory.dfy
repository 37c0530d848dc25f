/**
 What the token table means. Every fact a refresh decides on is stated over the history of
 events and answers alone, without the table, and the table is proved to hold exactly it.
 */
module TokenHistory {
  import opened Prelude
  import opened Schema
  import opened Repositories
  import opened Tokens

  type Trace = seq<Observed>

  datatype Grant = Grant(user: Id, at: Time)

  // -- The history -----------------------------------------------------------

  /** The answer hands the raw token out. */
  predicate Grants(o: Observed, raw: string) {
    o.response.Success? && o.response.value.Granted? && o.response.value.raw == raw
  }

  function GrantOf(trace: Trace, raw: string): Option<Grant> {
    if trace == [] then None
    else
      var last := trace[|trace| - 1];
      if Grants(last, raw) then Some(Grant(last.response.value.user, IssuedAt(last.event)))
      else GrantOf(trace[..|trace| - 1], raw)
  }

  predicate GrantedTo(trace: Trace, raw: string, user: Id) {
    GrantOf(trace, raw).Some? && GrantOf(trace, raw).value.user == user
  }

  /** The event takes the token out of use: it was presented to refresh or logged out, or every
      token of its user was revoked. A refresh whose new token collided counts for nothing. */
  predicate Ends(before: Trace, o: Observed, raw: string) {
    match GrantOf(before, raw)
    case None => false
    case Some(grant) =>
      match o.event
      case Refresh(presented, _, _, _) =>
        && o.response != Failure(IntegrityError)
        && (presented == raw
            || (o.response in {Failure(InvalidRefreshToken(Reused)), Failure(InvalidRefreshToken(Unusable))}
                && GrantedTo(before, presented, grant.user)))
      case Logout(presented, _) => presented == raw
      case LogoutAll(user, _) => user == grant.user
      case _ => false
  }

  predicate Ended(trace: Trace, raw: string) {
    trace != []
    && (Ended(trace[..|trace| - 1], raw) || Ends(trace[..|trace| - 1], trace[|trace| - 1], raw))
  }

  predicate Known(trace: Trace, user: Id) {
    exists i | 0 <= i < |trace| ::
      trace[i].event.NewUser? && trace[i].event.user == user && trace[i].response.Success?
  }

  /** What the last change of the account left it as. */
  predicate Active(trace: Trace, user: Id) {
    if trace == [] then false
    else
      var (before, last) := (trace[..|trace| - 1], trace[|trace| - 1]);
      match last.event
      case NewUser(u, account) => if u == user && last.response.Success? then account.active else Active(before, user)
      case SetActive(u, active) => if u == user then active && Known(before, user) else Active(before, user)
      case _ => Active(before, user)
  }

  lemma {:induction false} GrantMeans(trace: Trace, raw: string)
    ensures match GrantOf(trace, raw)
            case None => forall i | 0 <= i < |trace| :: !Grants(trace[i], raw)
            case Some(g) => exists i | 0 <= i < |trace| ::
              Grants(trace[i], raw) && g == Grant(trace[i].response.value.user, IssuedAt(trace[i].event))
  {
    if trace != [] {
      var before := trace[..|trace| - 1];
      GrantMeans(before, raw);
      assert forall i | 0 <= i < |before| :: before[i] == trace[i];
      if Grants(trace[|trace| - 1], raw) {
      } else if GrantOf(before, raw).Some? {
        var i :| 0 <= i < |before| && Grants(before[i], raw)
          && GrantOf(before, raw).value == Grant(before[i].response.value.user, IssuedAt(before[i].event));
        assert Grants(trace[i], raw);
      }
    }
  }

  lemma {:induction false} EndedMeans(trace: Trace, raw: string)
    ensures Ended(trace, raw) <==> exists j | 0 <= j < |trace| :: Ends(trace[..j], trace[j], raw)
  {
    if trace != [] {
      var before := trace[..|trace| - 1];
      EndedMeans(before, raw);
      assert forall j | 0 <= j < |before| :: before[..j] == trace[..j] && before[j] == trace[j];
    }
  }

  // -- The table holds the history -------------------------------------------

  ghost predicate RowAgrees(lifetime: Time, tokens: map<Id, RefreshToken>, raw: string, grant: Option<Grant>,
                            ended: bool) {
    match grant
    case None => !ended && ByDigest(tokens, Sha256(raw)) == {}
    case Some(g) =>
      && ByDigest(tokens, Sha256(raw)) != {}
      && forall i | i in ByDigest(tokens, Sha256(raw)) ::
          tokens[i].user == g.user && tokens[i].expires == g.at + lifetime && (tokens[i].revoked.Some? <==> ended)
  }

  ghost predicate TokensAgree(lifetime: Time, tokens: map<Id, RefreshToken>, trace: Trace) {
    forall raw :: RowAgrees(lifetime, tokens, raw, GrantOf(trace, raw), Ended(trace, raw))
  }

  ghost predicate UsersAgree(users: map<Id, User>, trace: Trace) {
    forall u :: UserAgrees(users, trace, u)
  }

  lemma RevokeOneRow(lifetime: Time, tokens: map<Id, RefreshToken>, id: Id, now: Time, raw: string,
                     grant: Option<Grant>, ended: bool)
    requires RowAgrees(lifetime, tokens, raw, grant, ended) && UniqueDigests(tokens) && id in tokens
    ensures RowAgrees(lifetime, Revoke(tokens, id, now), raw, grant, ended || tokens[id].digest == Sha256(raw))
  {
    assert ByDigest(Revoke(tokens, id, now), Sha256(raw)) == ByDigest(tokens, Sha256(raw));
    assert tokens[id].digest == Sha256(raw) ==> id in ByDigest(tokens, Sha256(raw));
  }

  lemma RevokeAllRow(lifetime: Time, tokens: map<Id, RefreshToken>, user: Id, now: Time, raw: string,
                     grant: Option<Grant>, ended: bool)
    requires RowAgrees(lifetime, tokens, raw, grant, ended)
    ensures RowAgrees(lifetime, RevokeAllForUser(tokens, user, now), raw, grant,
                      ended || (grant.Some? && grant.value.user == user))
  {
    assert ByDigest(RevokeAllForUser(tokens, user, now), Sha256(raw)) == ByDigest(tokens, Sha256(raw));
  }

  lemma InsertRow(lifetime: Time, tokens: map<Id, RefreshToken>, id: Id, user: Id, new': string, now: Time, raw: string,
                  grant: Option<Grant>, ended: bool)
    requires RowAgrees(lifetime, tokens, raw, grant, ended)
    requires id !in tokens && ByDigest(tokens, Sha256(new')) == {}
    ensures var tokens' := tokens[id := RefreshToken(user, Sha256(new'), now + lifetime, None)];
            if raw == new' then RowAgrees(lifetime, tokens', raw, Some(Grant(user, now)), false) && !ended
            else RowAgrees(lifetime, tokens', raw, grant, ended)
  {
    var tokens' := tokens[id := RefreshToken(user, Sha256(new'), now + lifetime, None)];
    if raw == new' {
      assert ByDigest(tokens', Sha256(raw)) == {id};
    } else {
      assert ByDigest(tokens', Sha256(raw)) == ByDigest(tokens, Sha256(raw));
    }
  }

  /** The token's stored row, when it has one. */
  lemma StoredRow(lifetime: Time, tokens: map<Id, RefreshToken>, trace: Trace, raw: string)
    requires TokensAgree(lifetime, tokens, trace)
    ensures match Pick(ByDigest(tokens, Sha256(raw)))
            case None => GrantOf(trace, raw).None? && !Ended(trace, raw)
            case Some(i) =>
              && i in tokens && tokens[i].digest == Sha256(raw)
              && GrantOf(trace, raw) == Some(Grant(tokens[i].user, tokens[i].expires - lifetime))
              && (tokens[i].revoked.Some? <==> Ended(trace, raw))
  {
    assert RowAgrees(lifetime, tokens, raw, GrantOf(trace, raw), Ended(trace, raw));
  }

  ghost predicate UserAgrees(users: map<Id, User>, trace: Trace, u: Id) {
    (u in users <==> Known(trace, u)) && (Active(trace, u) <==> u in users && users[u].active)
  }

  lemma UserStep(lifetime: Time, db: AuthDb, trace: Trace, e: Event, u: Id)
    requires UsersAgree(db.users, trace)
    ensures var (db', response) := Respond(lifetime, db, e);
            UserAgrees(db'.users, trace + [Observed(e, response)], u)
  {
    hide Revoke, RevokeAllForUser, ByDigest, UsersByEmail, Known;
    var (db', response) := Respond(lifetime, db, e);
    var o := Observed(e, response);
    assert (trace + [o])[..|trace|] == trace;
    assert UserAgrees(db.users, trace, u);
    KnownStep(trace, o, u);
    match e
    case NewUser(_, _) =>
    case SetActive(_, _) =>
    case _ => assert db'.users == db.users;
  }

  lemma KnownStep(trace: Trace, o: Observed, user: Id)
    ensures Known(trace + [o], user) <==>
              Known(trace, user) || (o.event.NewUser? && o.event.user == user && o.response.Success?)
  {
    var after := trace + [o];
    assert after[|trace|] == o;
    assert forall i | 0 <= i < |trace| :: after[i] == trace[i];
  }

  lemma TokenStep(lifetime: Time, db: AuthDb, trace: Trace, e: Event, raw: string)
    requires AuthConstraints(db) && TokensAgree(lifetime, db.tokens, trace)
    ensures var (db', response) := Respond(lifetime, db, e);
            var after := trace + [Observed(e, response)];
            RowAgrees(lifetime, db'.tokens, raw, GrantOf(after, raw), Ended(after, raw))
  {
    hide RowAgrees, ByDigest, UsersByEmail, Revoke, RevokeAllForUser;
    var (db', response) := Respond(lifetime, db, e);
    var after := trace + [Observed(e, response)];
    assert after[..|trace|] == trace;
    var (grant, ended) := (GrantOf(trace, raw), Ended(trace, raw));
    assert RowAgrees(lifetime, db.tokens, raw, grant, ended);
    match e
    case NewUser(_, _) =>
    case SetActive(_, _) =>
    case Login(email, _, new', id, now) =>
      if response.Success? {
        InsertRow(lifetime, db.tokens, id, response.value.user, new', now, raw, grant, ended);
      }
    case Refresh(presented, new', id, clock) =>
      StoredRow(lifetime, db.tokens, trace, presented);
      var stored := Pick(ByDigest(db.tokens, Sha256(presented)));
      if stored.Some? {
        var user := db.tokens[stored.value].user;
        RevokeOneRow(lifetime, db.tokens, stored.value, clock.revoke, raw, grant, ended);
        RevokeAllRow(lifetime, db.tokens, user, clock.revoke, raw, grant, ended);
        if response.Success? {
          InsertRow(lifetime, Revoke(db.tokens, stored.value, clock.revoke), id, user, new', clock.issue, raw, grant,
                    ended || presented == raw);
        }
      }
    case Logout(presented, now) =>
      StoredRow(lifetime, db.tokens, trace, presented);
      var stored := Pick(ByDigest(db.tokens, Sha256(presented)));
      if stored.Some? {
        RevokeOneRow(lifetime, db.tokens, stored.value, now, raw, grant, ended);
      }
    case LogoutAll(user, now) =>
      RevokeAllRow(lifetime, db.tokens, user, now, raw, grant, ended);
  }

  lemma {:induction false} TableHoldsHistory(lifetime: Time, events: seq<Event>)
    ensures var (db, trace) := Run(lifetime, events);
            TokensAgree(lifetime, db.tokens, trace) && UsersAgree(db.users, trace)
  {
    hide Respond, RowAgrees;
    if events == [] {
      forall raw ensures RowAgrees(lifetime, map[], raw, GrantOf([], raw), Ended([], raw)) {
        EmptyTable(lifetime, raw);
      }
    } else {
      var (past, e) := (events[..|events| - 1], events[|events| - 1]);
      TableHoldsHistory(lifetime, past);
      RunKeepsConstraints(lifetime, past);
      var (db, trace) := Run(lifetime, past);
      var (db', response) := Respond(lifetime, db, e);
      var after := trace + [Observed(e, response)];
      forall u ensures UserAgrees(db'.users, after, u) {
        UserStep(lifetime, db, trace, e, u);
      }
      forall raw ensures RowAgrees(lifetime, db'.tokens, raw, GrantOf(after, raw), Ended(after, raw)) {
        TokenStep(lifetime, db, trace, e, raw);
      }
    }
  }

  lemma EmptyTable(lifetime: Time, raw: string)
    ensures RowAgrees(lifetime, map[], raw, None, false)
  {
  }
}
