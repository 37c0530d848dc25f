/**
 Refresh tokens: accounts, the token table, and what each authentication call leaves
 committed and answers. Tables without policies, so no gate appears. Every reading of the
 clock, and the token ids and raw tokens a call would draw at random, are part of the event.
 */
module Tokens {
  import opened Prelude
  import opened Schema
  import opened Repositories

  type Time = int

  /** SHA-256, taken to be injective. */
  datatype Digest = Sha256(raw: string)

  datatype RefreshToken = RefreshToken(user: Id, digest: Digest, expires: Time, revoked: Option<Time>)
  datatype AuthDb = AuthDb(users: map<Id, User>, tokens: map<Id, RefreshToken>)

  datatype Reply = Done | Granted(user: Id, raw: string)
  type AuthResponse = Result<Reply, Error>

  /** The three readings a refresh makes of the clock: for the expiry check, for revoked_at and for
      the new token's expiry. */
  datatype Clock = Clock(check: Time, revoke: Time, issue: Time)

  /** The calls of the service, and two changes of the accounts made elsewhere: a new account,
      by Services.Register or otherwise, and a change of is_active. */
  datatype Event =
    | NewUser(user: Id, account: User)
    | SetActive(user: Id, active: bool)
    | Login(email: string, password: string, raw: string, id: Id, now: Time)
    | Refresh(presented: string, raw: string, id: Id, clock: Clock)
    | Logout(presented: string, now: Time)
    | LogoutAll(user: Id, now: Time)

  /** When a token the event hands out is issued. */
  function IssuedAt(e: Event): Time {
    match e
    case Login(_, _, _, _, now) => now
    case Refresh(_, _, _, clock) => clock.issue
    case _ => 0
  }

  const NO_ACCOUNTS := AuthDb(map[], map[])

  // -- The token repository --------------------------------------------------

  function ByDigest(tokens: map<Id, RefreshToken>, digest: Digest): set<Id> {
    set i | i in tokens && tokens[i].digest == digest
  }

  function Revoke(tokens: map<Id, RefreshToken>, id: Id, now: Time): map<Id, RefreshToken> {
    map i | i in tokens ::
      if i == id && tokens[i].revoked.None? then tokens[i].(revoked := Some(now)) else tokens[i]
  }

  function RevokeAllForUser(tokens: map<Id, RefreshToken>, user: Id, now: Time): map<Id, RefreshToken> {
    map i | i in tokens ::
      if tokens[i].user == user && tokens[i].revoked.None? then tokens[i].(revoked := Some(now)) else tokens[i]
  }

  function InsertToken(db: AuthDb, id: Id, row: RefreshToken): Result<AuthDb, Error> {
    if id in db.tokens || ByDigest(db.tokens, row.digest) != {} || row.user !in db.users then Failure(IntegrityError)
    else Success(db.(tokens := db.tokens[id := row]))
  }

  // -- The service -----------------------------------------------------------

  /** verify_password_or_dummy: no hash, no match. */
  predicate Verifies(password: string, hash: Option<PasswordHash>) {
    hash == Some(Argon2(password))
  }

  predicate Usable(db: AuthDb, user: Id) {
    user in db.users && db.users[user].active
  }

  /** The new row is flushed by the commit: a collision leaves nothing of the call. */
  function Issue(lifetime: Time, before: AuthDb, tokens: map<Id, RefreshToken>, user: Id, raw: string, id: Id,
                 now: Time)
    : (AuthDb, AuthResponse)
  {
    match InsertToken(before.(tokens := tokens), id, RefreshToken(user, Sha256(raw), now + lifetime, None))
    case Failure(e) => (before, Failure(e))
    case Success(db) => (db, Success(Granted(user, raw)))
  }

  ghost function LoginOutcome(lifetime: Time, db: AuthDb, email: string, password: string, raw: string, id: Id,
                              now: Time)
    : (AuthDb, AuthResponse)
  {
    match Pick(UsersByEmail(db.users, email))
    case None => (db, Failure(InvalidCredentials))
    case Some(user) =>
      if !Verifies(password, db.users[user].password) then (db, Failure(InvalidCredentials))
      else if !db.users[user].active then (db, Failure(InactiveUser))
      else Issue(lifetime, db, db.tokens, user, raw, id, now)
  }

  ghost function RefreshOutcome(lifetime: Time, db: AuthDb, presented: string, raw: string, id: Id, clock: Clock)
    : (AuthDb, AuthResponse)
  {
    match Pick(ByDigest(db.tokens, Sha256(presented)))
    case None => (db, Failure(InvalidRefreshToken(Unknown)))
    case Some(stored) =>
      var row := db.tokens[stored];
      if row.revoked.Some? then
        (db.(tokens := RevokeAllForUser(db.tokens, row.user, clock.revoke)), Failure(InvalidRefreshToken(Reused)))
      else if row.expires <= clock.check then
        (db.(tokens := Revoke(db.tokens, stored, clock.revoke)), Failure(InvalidRefreshToken(Expired)))
      else if !Usable(db, row.user) then
        (db.(tokens := RevokeAllForUser(db.tokens, row.user, clock.revoke)), Failure(InvalidRefreshToken(Unusable)))
      else
        Issue(lifetime, db, Revoke(db.tokens, stored, clock.revoke), row.user, raw, id, clock.issue)
  }

  ghost function LogoutOutcome(db: AuthDb, presented: string, now: Time): (AuthDb, AuthResponse) {
    match Pick(ByDigest(db.tokens, Sha256(presented)))
    case None => (db, Success(Done))
    case Some(stored) =>
      if db.tokens[stored].revoked.Some? then (db, Success(Done))
      else (db.(tokens := Revoke(db.tokens, stored, now)), Success(Done))
  }

  ghost function Respond(lifetime: Time, db: AuthDb, e: Event): (AuthDb, AuthResponse) {
    match e
    case NewUser(user, account) =>
      var inserted := InsertUser(db.users, user, account);
      if inserted.Failure? then (db, Failure(inserted.error))
      else (db.(users := inserted.value), Success(Done))
    case SetActive(user, active) =>
      if user !in db.users then (db, Success(Done))
      else (db.(users := db.users[user := db.users[user].(active := active)]), Success(Done))
    case Login(email, password, raw, id, now) => LoginOutcome(lifetime, db, email, password, raw, id, now)
    case Refresh(presented, raw, id, clock) => RefreshOutcome(lifetime, db, presented, raw, id, clock)
    case Logout(presented, now) => LogoutOutcome(db, presented, now)
    case LogoutAll(user, now) => (db.(tokens := RevokeAllForUser(db.tokens, user, now)), Success(Done))
  }

  /** An event and the answer it got. */
  datatype Observed = Observed(event: Event, response: AuthResponse)

  ghost function Run(lifetime: Time, events: seq<Event>): (r: (AuthDb, seq<Observed>))
    ensures |r.1| == |events|
    ensures forall i | 0 <= i < |events| :: r.1[i].event == events[i]
  {
    if events == [] then (NO_ACCOUNTS, [])
    else
      var (db, trace) := Run(lifetime, events[..|events| - 1]);
      var e := events[|events| - 1];
      var (db', response) := Respond(lifetime, db, e);
      (db', trace + [Observed(e, response)])
  }

  // -- Constraints -----------------------------------------------------------

  ghost predicate UniqueDigests(tokens: map<Id, RefreshToken>) {
    forall i, j | i in tokens && j in tokens && tokens[i].digest == tokens[j].digest :: i == j
  }

  ghost predicate TokensBelong(tokens: map<Id, RefreshToken>, users: set<Id>) {
    forall i | i in tokens :: tokens[i].user in users
  }

  ghost predicate AuthConstraints(db: AuthDb) {
    UniqueEmails(db.users) && UniqueDigests(db.tokens) && TokensBelong(db.tokens, db.users.Keys)
  }

  lemma InsertKeepsConstraints(db: AuthDb, id: Id, row: RefreshToken)
    requires AuthConstraints(db) && InsertToken(db, id, row).Success?
    ensures AuthConstraints(InsertToken(db, id, row).value)
  {
    forall i | i in db.tokens ensures db.tokens[i].digest != row.digest {
      assert i in ByDigest(db.tokens, db.tokens[i].digest);
    }
  }

  lemma RevocationKeepsConstraints(db: AuthDb, id: Id, user: Id, now: Time)
    requires AuthConstraints(db)
    ensures AuthConstraints(db.(tokens := Revoke(db.tokens, id, now)))
    ensures AuthConstraints(db.(tokens := RevokeAllForUser(db.tokens, user, now)))
  {
    hide UniqueEmails;
    SameDigests(db.tokens, Revoke(db.tokens, id, now));
    SameDigests(db.tokens, RevokeAllForUser(db.tokens, user, now));
    hide UniqueDigests;
  }

  lemma SameDigests(tokens: map<Id, RefreshToken>, tokens': map<Id, RefreshToken>)
    requires UniqueDigests(tokens) && tokens'.Keys == tokens.Keys
    requires forall i | i in tokens :: tokens'[i].digest == tokens[i].digest
    ensures UniqueDigests(tokens')
  {
  }

  lemma IssueKeepsConstraints(lifetime: Time, db: AuthDb, tokens: map<Id, RefreshToken>, user: Id, raw: string,
                              id: Id, now: Time)
    requires AuthConstraints(db) && AuthConstraints(db.(tokens := tokens))
    ensures AuthConstraints(Issue(lifetime, db, tokens, user, raw, id, now).0)
  {
    var row := RefreshToken(user, Sha256(raw), now + lifetime, None);
    if InsertToken(db.(tokens := tokens), id, row).Success? {
      InsertKeepsConstraints(db.(tokens := tokens), id, row);
    }
  }

  lemma NewUserKeepsConstraints(db: AuthDb, user: Id, account: User)
    requires AuthConstraints(db) && user !in db.users && UsersByEmail(db.users, account.email) == {}
    ensures AuthConstraints(db.(users := db.users[user := account]))
  {
    forall i | i in db.users ensures db.users[i].email != account.email {
      assert i in UsersByEmail(db.users, db.users[i].email);
    }
  }

  lemma SetActiveKeepsConstraints(db: AuthDb, user: Id, active: bool)
    requires AuthConstraints(db) && user in db.users
    ensures AuthConstraints(db.(users := db.users[user := db.users[user].(active := active)]))
  {
  }

  lemma RespondKeepsConstraints(lifetime: Time, db: AuthDb, e: Event)
    requires AuthConstraints(db)
    ensures AuthConstraints(Respond(lifetime, db, e).0)
  {
    hide AuthConstraints, Issue, Revoke, RevokeAllForUser;
    match e
    case NewUser(user, account) =>
      if user !in db.users && UsersByEmail(db.users, account.email) == {} {
        NewUserKeepsConstraints(db, user, account);
      }
    case SetActive(user, active) =>
      if user in db.users {
        SetActiveKeepsConstraints(db, user, active);
      }
    case Login(email, _, raw, id, now) =>
      var user := Pick(UsersByEmail(db.users, email));
      if user.Some? {
        IssueKeepsConstraints(lifetime, db, db.tokens, user.value, raw, id, now);
      }
    case Refresh(presented, raw, id, clock) =>
      var stored := Pick(ByDigest(db.tokens, Sha256(presented)));
      if stored.Some? {
        var user := db.tokens[stored.value].user;
        RevocationKeepsConstraints(db, stored.value, user, clock.revoke);
        IssueKeepsConstraints(lifetime, db, Revoke(db.tokens, stored.value, clock.revoke), user, raw, id, clock.issue);
      }
    case Logout(presented, now) =>
      var stored := Pick(ByDigest(db.tokens, Sha256(presented)));
      if stored.Some? {
        RevocationKeepsConstraints(db, stored.value, 0, now);
      }
    case LogoutAll(user, now) =>
      RevocationKeepsConstraints(db, 0, user, now);
  }

  lemma {:induction false} RunKeepsConstraints(lifetime: Time, events: seq<Event>)
    ensures AuthConstraints(Run(lifetime, events).0)
  {
    if events != [] {
      RunKeepsConstraints(lifetime, events[..|events| - 1]);
      RespondKeepsConstraints(lifetime, Run(lifetime, events[..|events| - 1]).0, events[|events| - 1]);
    }
  }
}
