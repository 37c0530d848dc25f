/** The authentication service, step by step on a unit of work without an organization. */
module AuthService {
  import opened Prelude
  import opened Schema
  import opened Repositories
  import opened UnitOfWork
  import opened Tokens

  type AuthWork = SqlAlchemyUnitOfWork<AuthDb>

  /** At the start of a call. Nothing is deferred on these tables. */
  ghost predicate Idle(uow: AuthWork)
    reads uow
  {
    uow.work == uow.committed && DefersNothing(uow)
  }

  ghost predicate DefersNothing(uow: AuthWork) {
    forall db :: uow.deferred(db) == Success(db)
  }

  method SendRevoke(uow: AuthWork, id: Id, now: Time)
    modifies uow`work
    ensures uow.work == old(uow.work).(tokens := Tokens.Revoke(old(uow.work).tokens, id, now))
  {
    var _ := uow.Execute(Success(uow.work.(tokens := Tokens.Revoke(uow.work.tokens, id, now))));
  }

  method SendRevokeAll(uow: AuthWork, user: Id, now: Time)
    modifies uow`work
    ensures uow.work == old(uow.work).(tokens := Tokens.RevokeAllForUser(old(uow.work).tokens, user, now))
  {
    var _ := uow.Execute(Success(uow.work.(tokens := Tokens.RevokeAllForUser(uow.work.tokens, user, now))));
  }

  class AuthService {
    const lifetime: Time

    constructor (lifetime: Time)
      ensures this.lifetime == lifetime
    {
      this.lifetime := lifetime;
    }

    method IssueTokenPair(uow: AuthWork, user: Id, raw: string, id: Id, now: Time) returns (r: AuthResponse)
      requires DefersNothing(uow) && uow.work.users == uow.committed.users
      modifies uow
      ensures (uow.committed, r) == Issue(lifetime, old(uow.committed), old(uow.work).tokens, user, raw, id, now)
    {
      var done := uow.FlushAndCommit(InsertToken(uow.work, id, RefreshToken(user, Sha256(raw), now + lifetime, None)));
      if done.Failure? {
        return Failure(done.error);
      }
      r := Success(Granted(user, raw));
    }

    method Login(uow: AuthWork, email: string, password: string, raw: string, id: Id, now: Time)
      returns (r: AuthResponse)
      requires Idle(uow) && AuthConstraints(uow.committed)
      modifies uow
      ensures (uow.committed, r) == LoginOutcome(lifetime, old(uow.committed), email, password, raw, id, now)
    {
      var user := PickOne(UsersByEmail(uow.work.users, email));
      var hash := if user.Some? then uow.work.users[user.value].password else None;
      if !Verifies(password, hash) {
        return Failure(InvalidCredentials);
      }
      if !uow.work.users[user.value].active {
        return Failure(InactiveUser);
      }
      r := IssueTokenPair(uow, user.value, raw, id, now);
    }

    method Refresh(uow: AuthWork, presented: string, raw: string, id: Id, clock: Clock) returns (r: AuthResponse)
      requires Idle(uow) && AuthConstraints(uow.committed)
      modifies uow
      ensures (uow.committed, r) == RefreshOutcome(lifetime, old(uow.committed), presented, raw, id, clock)
    {
      hide InsertToken, Tokens.Revoke, Tokens.RevokeAllForUser;
      var found := PickOne(ByDigest(uow.work.tokens, Sha256(presented)));
      if found.None? {
        return Failure(InvalidRefreshToken(Unknown));
      }
      var stored := uow.work.tokens[found.value];
      if stored.revoked.Some? {
        SendRevokeAll(uow, stored.user, clock.revoke);
        var _ := uow.Commit();
        return Failure(InvalidRefreshToken(Reused));
      }
      if stored.expires <= clock.check {
        SendRevoke(uow, found.value, clock.revoke);
        var _ := uow.Commit();
        return Failure(InvalidRefreshToken(Expired));
      }
      if !Usable(uow.work, stored.user) {
        SendRevokeAll(uow, stored.user, clock.revoke);
        var _ := uow.Commit();
        return Failure(InvalidRefreshToken(Unusable));
      }
      SendRevoke(uow, found.value, clock.revoke);
      r := IssueTokenPair(uow, stored.user, raw, id, clock.issue);
    }

    method Logout(uow: AuthWork, presented: string, now: Time) returns (r: AuthResponse)
      requires Idle(uow) && AuthConstraints(uow.committed)
      modifies uow
      ensures (uow.committed, r) == LogoutOutcome(old(uow.committed), presented, now)
    {
      var found := PickOne(ByDigest(uow.work.tokens, Sha256(presented)));
      if found.None? || uow.work.tokens[found.value].revoked.Some? {
        return Success(Done);
      }
      SendRevoke(uow, found.value, now);
      var _ := uow.Commit();
      r := Success(Done);
    }

    method LogoutAll(uow: AuthWork, user: Id, now: Time) returns (r: AuthResponse)
      requires Idle(uow)
      modifies uow
      ensures uow.committed
           == old(uow.committed).(tokens := Tokens.RevokeAllForUser(old(uow.committed).tokens, user, now))
      ensures r == Success(Done)
    {
      SendRevokeAll(uow, user, now);
      var _ := uow.Commit();
      r := Success(Done);
    }
  }

  // -- Changes of the accounts made elsewhere --------------------------------

  method NewUser(uow: AuthWork, user: Id, account: User) returns (r: AuthResponse)
    requires Idle(uow)
    modifies uow
    ensures match InsertUser(old(uow.committed).users, user, account)
            case Success(users) => r == Success(Done) && uow.committed == old(uow.committed).(users := users)
            case Failure(e) => r == Failure(e) && uow.committed == old(uow.committed)
  {
    var inserted := InsertUser(uow.work.users, user, account);
    if inserted.Failure? {
      return Failure(inserted.error);
    }
    var _ := uow.FlushAndCommit(Success(uow.work.(users := inserted.value)));
    r := Success(Done);
  }

  method SetActive(uow: AuthWork, user: Id, active: bool) returns (r: AuthResponse)
    requires Idle(uow)
    modifies uow
    ensures r == Success(Done)
    ensures uow.committed ==
      if user !in old(uow.committed).users then old(uow.committed)
      else
        var users := old(uow.committed).users;
        old(uow.committed).(users := users[user := users[user].(active := active)])
  {
    if user in uow.work.users {
      var users := uow.work.users[user := uow.work.users[user].(active := active)];
      var _ := uow.FlushAndCommit(Success(uow.work.(users := users)));
    }
    r := Success(Done);
  }

  /** One request: a fresh unit of work, the call, and the exit, which rolls back when it raised. */
  method Handle(lifetime: Time, db: AuthDb, e: Event) returns (after: AuthDb, r: AuthResponse)
    requires AuthConstraints(db)
    ensures (after, r) == Respond(lifetime, db, e)
  {
    hide AuthConstraints, LoginOutcome, RefreshOutcome, LogoutOutcome;
    var uow := new SqlAlchemyUnitOfWork<AuthDb>(db, tables => Success(tables), true, None, None);
    uow.Enter();
    var service := new AuthService(lifetime);
    match e {
      case NewUser(user, account) => r := NewUser(uow, user, account);
      case SetActive(user, active) => r := SetActive(uow, user, active);
      case Login(email, password, raw, id, now) => r := service.Login(uow, email, password, raw, id, now);
      case Refresh(presented, raw, id, clock) => r := service.Refresh(uow, presented, raw, id, clock);
      case Logout(presented, now) => r := service.Logout(uow, presented, now);
      case LogoutAll(user, now) => r := service.LogoutAll(uow, user, now);
    }
    uow.Exit(r.Failure?);
    after := uow.committed;
  }

  method Serve(lifetime: Time, events: seq<Event>) returns (db: AuthDb, trace: seq<Observed>)
    ensures (db, trace) == Run(lifetime, events)
  {
    hide Respond, AuthConstraints;
    db, trace := NO_ACCOUNTS, [];
    for i := 0 to |events|
      invariant (db, trace) == Run(lifetime, events[..i])
    {
      RunKeepsConstraints(lifetime, events[..i]);
      var response;
      db, response := Handle(lifetime, db, events[i]);
      assert events[..i + 1][..i] == events[..i];
      trace := trace + [Observed(events[i], response)];
    }
    assert events[..|events|] == events;
  }
}
