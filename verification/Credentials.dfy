/** Each answer of login and logout, and the rows every call on the tokens leaves, over the two tables alone. */
module Credentials {
  import opened Prelude
  import opened Schema
  import opened Repositories
  import opened Tokens

  // -- login -----------------------------------------------------------------

  /** The account with this email, and this is its password. */
  predicate Matches(db: AuthDb, user: Id, email: string, password: string) {
    user in db.users && db.users[user].email == email && db.users[user].password == Some(Argon2(password))
  }

  predicate TokenInUse(db: AuthDb, id: Id, raw: string) {
    id in db.tokens || exists t :: t in db.tokens && db.tokens[t].digest == Sha256(raw)
  }

  ghost predicate LoginAnswers(lifetime: Time, db: AuthDb, e: Event, after: AuthDb, r: AuthResponse)
    requires e.Login?
  {
    if forall user :: !Matches(db, user, e.email, e.password) then after == db && r == Failure(InvalidCredentials)
    else
      forall user | Matches(db, user, e.email, e.password) ::
        if !db.users[user].active then after == db && r == Failure(InactiveUser)
        else if TokenInUse(db, e.id, e.raw) then after == db && r == Failure(IntegrityError)
        else
          && r == Success(Granted(user, e.raw))
          && after == db.(tokens := db.tokens[e.id := RefreshToken(user, Sha256(e.raw), e.now + lifetime, None)])
  }

  lemma DigestsSeen(db: AuthDb, id: Id, raw: string)
    ensures TokenInUse(db, id, raw) <==> id in db.tokens || ByDigest(db.tokens, Sha256(raw)) != {}
  {
    if t :| t in db.tokens && db.tokens[t].digest == Sha256(raw) {
      assert t in ByDigest(db.tokens, Sha256(raw));
    }
    if ByDigest(db.tokens, Sha256(raw)) != {} {
      var t :| t in ByDigest(db.tokens, Sha256(raw));
      assert t in db.tokens;
    }
  }

  /** Only the account's own password logs in, only while it is active, and all that is written is
      one unrevoked token that lives for the configured time. */
  lemma LoginChecksThePassword(lifetime: Time, db: AuthDb, e: Event)
    requires AuthConstraints(db) && e.Login?
    ensures var (after, r) := Respond(lifetime, db, e); LoginAnswers(lifetime, db, e, after, r)
  {
    DigestsSeen(db, e.id, e.raw);
    hide TokenInUse, ByDigest, UniqueDigests, TokensBelong;
    var found := Pick(UsersByEmail(db.users, e.email));
    forall user | Matches(db, user, e.email, e.password) ensures found == Some(user) {
      assert user in UsersByEmail(db.users, e.email);
    }
    if found.Some? && Verifies(e.password, db.users[found.value].password) {
      assert Matches(db, found.value, e.email, e.password);
    }
  }

  // -- logout ----------------------------------------------------------------

  /** The rows named are revoked at that time if they were not revoked before; all else stays. */
  ghost predicate Revokes(db: AuthDb, after: AuthDb, named: set<Id>, now: Time) {
    && after.users == db.users && after.tokens.Keys == db.tokens.Keys
    && forall i | i in db.tokens ::
         after.tokens[i] == if i in named && db.tokens[i].revoked.None? then db.tokens[i].(revoked := Some(now))
                            else db.tokens[i]
  }

  /** Logging out always answers the same. A stored token is revoked; an unknown or revoked one
      changes nothing. */
  lemma LogoutRevokesTheToken(lifetime: Time, db: AuthDb, e: Event)
    requires AuthConstraints(db) && e.Logout?
    ensures var (after, r) := Respond(lifetime, db, e);
            && r == Success(Done)
            && Revokes(db, after, (set i | i in db.tokens && db.tokens[i].digest == Sha256(e.presented)), e.now)
    ensures (forall i | i in db.tokens && db.tokens[i].digest == Sha256(e.presented) :: db.tokens[i].revoked.Some?) ==>
              Respond(lifetime, db, e).0 == db
  {
    hide UniqueEmails, TokensBelong;
    var stored := Pick(ByDigest(db.tokens, Sha256(e.presented)));
    assert forall i | i in db.tokens && db.tokens[i].digest == Sha256(e.presented) ::
             i in ByDigest(db.tokens, Sha256(e.presented));
  }

  lemma LogoutAllRevokesTheUsersTokens(lifetime: Time, db: AuthDb, e: Event)
    requires e.LogoutAll?
    ensures var (after, r) := Respond(lifetime, db, e);
            && r == Success(Done)
            && Revokes(db, after, (set i | i in db.tokens && db.tokens[i].user == e.user), e.now)
  {
  }

  // -- refresh ---------------------------------------------------------------

  /** A successful refresh revokes the token presented and adds one row, for the same user, that
      lives for the configured time. */
  lemma RefreshTradesRows(lifetime: Time, db: AuthDb, e: Event)
    requires AuthConstraints(db) && e.Refresh? && Respond(lifetime, db, e).1.Success?
    ensures var (after, r) := Respond(lifetime, db, e);
            && r.value.Granted? && r.value.raw == e.raw && !TokenInUse(db, e.id, e.raw) && e.id in after.tokens
            && after.tokens[e.id] == RefreshToken(r.value.user, Sha256(e.raw), e.clock.issue + lifetime, None)
            && (exists i :: i in db.tokens && db.tokens[i].digest == Sha256(e.presented)
                            && db.tokens[i].user == r.value.user && e.clock.check < db.tokens[i].expires
                            && db.tokens[i].revoked.None?)
            && Revokes(db, after.(tokens := after.tokens - {e.id}),
                       (set i | i in db.tokens && db.tokens[i].digest == Sha256(e.presented)), e.clock.revoke)
  {
    DigestsSeen(db, e.id, e.raw);
    hide UniqueEmails, TokensBelong, TokenInUse;
    var presented := ByDigest(db.tokens, Sha256(e.presented));
    var stored := Pick(presented).value;
    assert stored in presented;
    var revoked := Revoke(db.tokens, stored, e.clock.revoke);
    assert ByDigest(revoked, Sha256(e.raw)) == ByDigest(db.tokens, Sha256(e.raw));
    assert Respond(lifetime, db, e).0.tokens - {e.id} == revoked;
  }

  // -- Accounts --------------------------------------------------------------

  /** A new account takes a free id and a free email; (de)activation changes that one column. */
  lemma AccountsChangeExactly(lifetime: Time, db: AuthDb, e: Event)
    requires e.NewUser? || e.SetActive?
    ensures var (after, r) := Respond(lifetime, db, e);
            after.tokens == db.tokens
            && match e
               case NewUser(user, account) =>
                 if user in db.users || exists u :: u in db.users && db.users[u].email == account.email
                 then after == db && r == Failure(IntegrityError)
                 else r == Success(Done) && after.users == db.users[user := account]
               case SetActive(user, active) =>
                 && r == Success(Done) && after.users.Keys == db.users.Keys
                 && (forall u | u in db.users ::
                       after.users[u] == if u == user then db.users[u].(active := active) else db.users[u])
               case _ => true
  {
    if e.NewUser? {
      if u :| u in db.users && db.users[u].email == e.account.email {
        assert u in UsersByEmail(db.users, e.account.email);
      } else {
        assert UsersByEmail(db.users, e.account.email) == {};
      }
    }
  }

  // -- Statuses --------------------------------------------------------------

  /** The exceptions of the service, with their statuses: a wrong password and a bad token are one
      status, an inactive account another; a colliding draw is an internal error. */
  lemma AuthErrorsHaveTheirStatus(lifetime: Time, db: AuthDb, e: Event)
    requires !e.NewUser?
    ensures var r := Respond(lifetime, db, e).1;
            r.Failure? ==>
              || (e.Login? && r.error == InvalidCredentials && Status(r.error) == 401)
              || (e.Login? && r.error == InactiveUser && Status(r.error) == 403)
              || (e.Refresh? && r.error.InvalidRefreshToken? && Status(r.error) == 401)
              || ((e.Login? || e.Refresh?) && r.error == IntegrityError && Status(r.error) == 500)
  {
    hide UsersByEmail, ByDigest;
  }
}
