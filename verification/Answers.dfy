/** Every call from every reachable state: the exceptions it can end in, and their statuses. */
module Answers {
  import opened Prelude
  import opened Envelope
  import opened Schema
  import opened Repositories
  import Services
  import opened Calls
  import opened Reachable
  import opened Agreement
  import opened Vault
  import VaultRuns
  import opened Writes
  import opened Reads
  import opened Creations
  import opened Changes
  import opened Grants

  /** The exceptions of the services that the status map lists, by status; and the two that reach
      the client as an internal error: a constraint no pre-check catches, and the project error
      of the environment service. */
  ghost predicate Expected(e: Error) {
    if e in {MembershipRequired, InsufficientRole, LastOwner} then Status(e) == 403
    else if e in {UserNotFound, MembershipNotFound, ProjectNotFound, EnvironmentNotFound, SecretNotFound} then
      Status(e) == 404
    else if e in {EmailAlreadyRegistered, OrganizationAlreadyExists, ProjectAlreadyExists, EnvironmentAlreadyExists,
                  SecretAlreadyExists, MembershipAlreadyExists} then Status(e) == 409
    else if e == InvalidMembershipRole then Status(e) == 422
    else e in {IntegrityError, EnvironmentProjectNotFound} && Status(e) == 500
  }

  lemma ListedAreExpected()
    ensures forall e | e in {MembershipRequired, InsufficientRole, LastOwner, UserNotFound, MembershipNotFound,
                             ProjectNotFound, EnvironmentNotFound, SecretNotFound, EmailAlreadyRegistered,
                             OrganizationAlreadyExists, ProjectAlreadyExists, EnvironmentAlreadyExists,
                             SecretAlreadyExists, MembershipAlreadyExists, InvalidMembershipRole, IntegrityError,
                             EnvironmentProjectNotFound} :: Expected(e)
  {
  }

  lemma SecretErrors(s: Suite, enforced: bool, db: Db, v: Vault, call: Call)
    requires Authenticated(s) && VaultInv(s, db, v) && OnSecrets(call.op)
    ensures var r := Step(s, enforced, db, call).1; r.Failure? ==> Expected(r.error)
  {
    hide Step, VaultInv, Expected, HasRole, MayUse, NameUsed, IvUsed, LiveSecretsOf, EnvironmentIn, Authenticated;
    ListedAreExpected();
    if call.op.ListSecrets? {
      VaultRuns.VaultIsWellFormed(s, db, v);
      ReadsShowExactly(s, enforced, db, call);
    } else if call.op.CreateSecret? {
      CreateSecretAnswers(s, enforced, db, v, call);
    } else if call.op.AddNewVersion? {
      UsableIsThere(db, v, call, call.op.secret);
      AddNewVersionAnswers(s, enforced, db, v, call);
    } else if call.op.Reveal? {
      RevealAnswers(s, enforced, db, v, call);
    } else {
      DeleteSecretAnswers(s, enforced, db, v, call);
    }
  }

  lemma OtherErrors(s: Suite, enforced: bool, db: Db, call: Call)
    requires Constraints(db) && !OnSecrets(call.op) && !call.op.SwitchActiveKey?
    ensures var r := Step(s, enforced, db, call).1; r.Failure? ==> Expected(r.error)
  {
    hide Step, Constraints, Expected, HasRole, EnvironmentsOf, ProjectsOf, MembersOf, ProjectIn, EnvironmentIn, IsOwner;
    ListedAreExpected();
    match call.op
    case ListEnvironments(_) => ReadsShowExactly(s, enforced, db, call);
    case GetEnvironment(_) => ReadsShowExactly(s, enforced, db, call);
    case ListProjects => ReadsShowExactly(s, enforced, db, call);
    case GetProject(_) => ReadsShowExactly(s, enforced, db, call);
    case ListMembers => ReadsShowExactly(s, enforced, db, call);
    case CreateEnvironment(_, _, _, _, _, _) => CreateEnvironmentAnswers(s, enforced, db, call);
    case CreateProject(_, _, _, _) => CreateProjectAnswers(s, enforced, db, call);
    case UpdateProject(_, _, _, _) => UpdateProjectAnswers(s, enforced, db, call);
    case Invite(_, _, _) => InviteAddsExactly(s, enforced, db, call);
    case UpdateRole(_, _) => UpdateRoleChangesExactly(s, enforced, db, call);
    case Remove(_) => RemoveTakesExactly(s, enforced, db, call);
    case Register(_, _, _) => RegistersExactly(s, enforced, db, call);
    case CreateOrganization(_, _, _, _) => CreateOrganizationAnswers(s, enforced, db, call);
    case UpdateOrganization(_, _) => UpdateOrganizationAnswers(s, enforced, db, call);
  }

  /** In every run, whatever is called by whomever, with policies or without: a call fails only with
      an expected exception. Refusals by a policy, stale rows, the deferred trigger, missing keys
      and versions, and failures of the cipher do not occur. */
  lemma OnlyExpectedErrors(s: Suite, enforced: bool, calls: seq<Call>, i: nat)
    requires Authenticated(s) && i < |calls| && !calls[i].op.SwitchActiveKey?
    ensures var r := ResponseAt(s, enforced, calls, i); r.Failure? ==> Expected(r.error)
  {
    hide Step, VaultInv, Expected, Authenticated;
    var (db, v) := (Run(s, enforced, calls[..i]), VaultRuns.VaultAfter(s, enforced, calls[..i]));
    VaultRuns.RunRefines(s, enforced, calls[..i]);
    if OnSecrets(calls[i].op) {
      SecretErrors(s, enforced, db, v, calls[i]);
    } else {
      VaultRuns.VaultIsWellFormed(s, db, v);
      OtherErrors(s, enforced, db, calls[i]);
    }
  }
}
