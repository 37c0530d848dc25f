/**
 The unit of work: one session, its transaction's view of the database, and the two
 transaction-local settings policies read. A commit publishes the view and sets the
 context again, because the settings die with the transaction; a rollback does neither.
 */
module UnitOfWork {
  import opened Prelude
  import opened Schema
  import opened Policies
  import opened Repositories
  import opened Services

  /** scalar_one_or_none: the one matching row, when the constraints leave at most one. */
  method PickOne(ids: set<Id>) returns (r: Option<Id>)
    requires AtMostOne(ids)
    ensures r == Pick(ids)
  {
    if ids == {} {
      r := None;
    } else {
      var i :| i in ids;
      r := Some(i);
    }
  }

  /** Over the tables a service uses: all of them, or accounts and refresh tokens. */
  class SqlAlchemyUnitOfWork<T> {
    const enforced: bool
    const userId: Option<Id>
    const orgId: Option<Id>
    /** The checks the schema defers to the commit. */
    const deferred: T -> Result<T, Error>
    var committed: T
    var work: T
    var localUser: Option<Id>
    var localOrg: Option<Id>

    constructor (db: T, deferred: T -> Result<T, Error>, enforced: bool, userId: Option<Id>, orgId: Option<Id>)
      ensures committed == db && work == db && this.deferred == deferred
      ensures this.enforced == enforced && this.userId == userId && this.orgId == orgId
      ensures localUser.None? && localOrg.None?
    {
      this.deferred, this.enforced, this.userId, this.orgId := deferred, enforced, userId, orgId;
      committed, work := db, db;
      localUser, localOrg := None, None;
    }

    /** What a statement is checked against right now. */
    function Gate(): Gate
      reads this
    {
      Policies.Gate(enforced, localUser, localOrg)
    }

    /** The gate of a statement in this unit's own context. */
    function OwnGate(): Gate {
      Policies.Gate(enforced, userId, orgId)
    }

    /** Inside the block, in context, with nothing written since the last commit. */
    ghost predicate Entered()
      reads this
    {
      Gate() == OwnGate() && work == committed
    }

    method SetRlsContext()
      modifies this`localUser, this`localOrg
      ensures Gate() == OwnGate()
    {
      localUser := userId;
      localOrg := orgId;
    }

    method Enter()
      requires work == committed
      modifies this`localUser, this`localOrg
      ensures Entered()
    {
      SetRlsContext();
    }

    /** Sends a statement. A failing one leaves the view as it was. */
    method Execute(statement: Result<T, Error>) returns (r: Result<(), Error>)
      modifies this`work
      ensures match statement
              case Success(db) => r == Success(()) && work == db
              case Failure(e) => r == Failure(e) && work == old(work)
    {
      if statement.Failure? {
        return Failure(statement.error);
      }
      work := statement.value;
      r := Success(());
    }

    method Commit() returns (r: Result<(), Error>)
      modifies this`committed, this`work, this`localUser, this`localOrg
      ensures match deferred(old(work))
              case Success(db) => r == Success(()) && committed == db && work == db && Gate() == OwnGate()
              case Failure(e) =>
                && r == Failure(e) && committed == old(committed) && work == committed
                && localUser.None? && localOrg.None?
    {
      var checked := deferred(work);
      if checked.Failure? {
        Rollback();
        return Failure(checked.error);
      }
      committed, work := checked.value, checked.value;
      localUser, localOrg := None, None;
      SetRlsContext();
      r := Success(());
    }

    /** Commit of a session holding one pending change: the flush sends it, then COMMIT runs. */
    method FlushAndCommit(pending: Result<T, Error>) returns (r: Result<(), Error>)
      modifies this`committed, this`work, this`localUser, this`localOrg
      ensures match pending
              case Failure(e) => r == Failure(e) && committed == old(committed)
              case Success(db) =>
                match deferred(db)
                case Success(db') => r == Success(()) && committed == db' && work == db' && Gate() == OwnGate()
                case Failure(e) => r == Failure(e) && committed == old(committed)
    {
      r := Execute(pending);
      if r.Success? {
        r := Commit();
      }
    }

    method Rollback()
      modifies this`work, this`localUser, this`localOrg
      ensures work == committed && localUser.None? && localOrg.None?
    {
      work := committed;
      localUser, localOrg := None, None;
    }

    /** Leaving the block: an exception rolls back, and closing the session ends the transaction. */
    method Exit(raised: bool)
      modifies this`work, this`localUser, this`localOrg
      ensures work == committed && localUser.None? && localOrg.None?
    {
      if raised {
        Rollback();
      }
      work := committed;
      localUser, localOrg := None, None;
    }
  }

  // -- A unit of work on the tenant tables -----------------------------------

  type TenantWork = SqlAlchemyUnitOfWork<Db>

  /** The unit of work of a tenant service, at the start of the service's call. */
  ghost predicate Ready(uow: TenantWork)
    reads uow
  {
    uow.Entered() && uow.deferred == Repositories.Commit && Constraints(uow.committed)
  }

  /** The call did what the outcome says: its new state is committed, or it raised and what is
      committed is what was. */
  ghost predicate Did(uow: TenantWork, before: Db, outcome: Outcome, r: Result<Answer, Error>)
    reads uow
  {
    match outcome
    case Success((db, answer)) =>
      r == Success(answer) && uow.committed == db && uow.work == db && uow.Gate() == uow.OwnGate()
    case Failure(e) => r == Failure(e) && uow.committed == before
  }

  // -- At most one row matches -----------------------------------------------

  lemma OneMembership(db: Db, g: Gate, user: Id, org: Id)
    requires TableConstraints(db)
    ensures AtMostOne(MembershipsOf(db, g, user, org))
  {
    hide MembershipSelect;
  }

  lemma OneOrganizationBySlug(db: Db, g: Gate, slug: string)
    requires TableConstraints(db)
    ensures AtMostOne(OrganizationsBySlug(db, g, slug))
  {
    hide OrganizationSelect;
  }

  lemma OneProjectBySlug(db: Db, g: Gate, org: Id, slug: string)
    requires TableConstraints(db)
    ensures AtMostOne(ProjectsBySlug(db, g, org, slug))
  {
    hide ProjectPolicy;
  }

  lemma OneEnvironmentByName(db: Db, g: Gate, project: Id, name: string)
    requires TableConstraints(db)
    ensures AtMostOne(EnvironmentsByName(db, g, project, name))
  {
    hide EnvironmentPolicy;
  }

  lemma OneLiveSecretByName(db: Db, g: Gate, env: Id, name: string)
    requires TableConstraints(db)
    ensures AtMostOne(LiveSecretsByName(db, g, env, name))
  {
    hide SecretPolicy;
  }

  lemma OneActiveKey(db: Db, g: Gate, env: Id)
    requires TableConstraints(db)
    ensures AtMostOne(ActiveKeys(db, g, env))
  {
    hide KeyPolicy;
  }

  lemma OneUserByEmail(db: Db, email: string)
    requires TableConstraints(db)
    ensures AtMostOne(UsersByEmail(db.users, email))
  {
  }

  lemma OneLatestVersion(db: Db, g: Gate, secret: Id)
    requires TableConstraints(db)
    ensures AtMostOne(LatestVersions(db, g, secret))
  {
    hide VersionPolicy;
    forall i, j | i in LatestVersions(db, g, secret) && j in LatestVersions(db, g, secret) ensures i == j {
      assert i in VersionsOf(db, g, secret) && j in VersionsOf(db, g, secret);
    }
  }

  /** A committed state passes the deferred checks again. */
  lemma CommittedAgain(db: Db)
    requires Constraints(db)
    ensures Repositories.Commit(db) == Success(db)
  {
  }

  // -- The deferred trigger under policies -----------------------------------

  /** The trigger as it runs at COMMIT, still in the transaction's context: for each row whose
      pointer was written, its query on the versions is itself filtered by their policy. */
  ghost predicate TriggerPasses(db: Db, g: Gate, written: set<Id>) {
    forall i | i in written && i in db.secrets && db.secrets[i].current.Some? ::
      var v := db.secrets[i].current.value;
      v in db.versions && VersionPolicy(db, g, db.versions[v]) && db.versions[v].secret == i
  }

  /** Repositories.Commit checks every pointer and no policy. That is the same: the transaction
      sees the secrets it wrote, and with a secret all its versions; and every other pointer was
      valid before and its version is still there. */
  lemma TriggerAgrees(before: Db, db: Db, g: Gate, written: set<Id>)
    requires CurrentPointersValid(before.secrets, before.versions)
    requires forall v | v in before.versions :: v in db.versions && db.versions[v] == before.versions[v]
    requires forall i | i in db.secrets && i !in written ::
               i in before.secrets && db.secrets[i].current == before.secrets[i].current
    requires forall i | i in written && i in db.secrets :: SecretPolicy(db, g, db.secrets[i])
    ensures Commit(db).Success? <==> TriggerPasses(db, g, written)
  {
    forall i, v | i in written && i in db.secrets && v in db.versions && db.versions[v].secret == i
      ensures VersionPolicy(db, g, db.versions[v])
    {
      SecretShowsVersions(db, g, i, db.versions[v]);
    }
  }

  lemma SecretShowsVersions(db: Db, g: Gate, secret: Id, version: SecretVersion)
    requires secret in db.secrets && version.secret == secret
    ensures VersionPolicy(db, g, version) <==> SecretPolicy(db, g, db.secrets[secret])
  {
  }

  /** The writers meet that lemma's conditions: PointSecret only goes through on a row the context
      sees, and nothing the policy reads changes before COMMIT. */
  lemma WrittenSecretIsSeen(db: Db, g: Gate, id: Id, version: Id)
    requires PointSecret(db, g, id, version).Success?
    ensures var db' := PointSecret(db, g, id, version).value; id in db'.secrets && SecretPolicy(db', g, db'.secrets[id])
  {
  }
}
