/** Every request that can change the tables, served as one database transaction. */
module Bank {
  import opened Prelude
  import opened Errors
  import opened Tables
  import opened OnboardingAccounts
  import Onboarding
  import Transfers
  import AccountService

  datatype Call =
    | Start(subject: string, id: Option<string>, draw: Draw)
    | Attach(subject: string, allowedType: bool, id: Option<string>, draw: Draw)
    | Skip(subject: string, id: Option<string>, draw: Draw)
    | Complete(subject: string, form: Onboarding.Form, id: Option<string>, draw: Draw)
    | OpenAdditional(subject: string, draw: Draw)
    | Transfer(subject: string, amount: string, source: Option<string>, destination: Transfers.Destination,
               key: Option<string>)
    | Withdraw(subject: string, amount: string, requestId: Option<string>, key: Option<string>)
    | LegacyDeposit(target: string, units: int)
    | LegacyWithdraw(origin: string, units: int)
    | LegacyTransfer(origin: string, target: string, units: int)
  {
    predicate Legacy() {
      LegacyDeposit? || LegacyWithdraw? || LegacyTransfer?
    }
  }

  /** A call and the start time of its transaction. */
  datatype Request = Request(call: Call, now: int)

  /** What the service called by the route does: the new tables, or the exception it raises. */
  function CallEffect(db: Db, cfg: Settings, req: Request): Result<Db, Error> {
    match req.call
    case Start(subject, id, draw) => Onboarding.StartEffect(db, cfg, subject, id, draw, req.now)
    case Attach(subject, allowed, id, draw) =>
      Onboarding.AttachEffect(db, cfg, subject, allowed, id, draw, req.now)
    case Skip(subject, id, draw) => Onboarding.SkipEffect(db, cfg, subject, id, draw, req.now)
    case Complete(subject, form, id, draw) =>
      Onboarding.CompleteEffect(db, cfg, subject, form, id, draw, req.now)
    case OpenAdditional(subject, draw) => Onboarding.OpenAdditionalEffect(db, cfg, subject, draw, req.now)
    case Transfer(subject, amount, source, destination, key) =>
      Transfers.TransferEffect(db, cfg, subject, amount, source, destination, key, req.now)
    case Withdraw(subject, amount, requestId, key) =>
      Transfers.WithdrawEffect(db, cfg, subject, amount, requestId, key, req.now)
    case LegacyDeposit(target, units) => AccountService.DepositEffect(db, target, units, req.now)
    case LegacyWithdraw(origin, units) => AccountService.WithdrawEffect(db, origin, units, req.now)
    case LegacyTransfer(origin, target, units) => AccountService.TransferEffect(db, origin, target, units, req.now)
  }

  /** `get_db`: commit on success, roll back on any exception. */
  function Apply(db: Db, cfg: Settings, req: Request): Db {
    match CallEffect(db, cfg, req)
    case Success(after) => after
    case Failure(_) => db
  }

  function Run(db: Db, cfg: Settings, reqs: seq<Request>): Db {
    if reqs == [] then db else Apply(Run(db, cfg, reqs[..|reqs| - 1]), cfg, reqs[|reqs| - 1])
  }

  method Dispatch(session: Session, cfg: Settings, call: Call) returns (r: Result<(), Error>)
    requires session.pendingNumber == None
    modifies session
    ensures match CallEffect(old(session.Tables()), cfg, Request(call, session.now))
            case Success(db) => r == Success(()) && session.Tables() == db
            case Failure(e) => r == Failure(e)
  {
    hide Onboarding.StartEffect, Onboarding.AttachEffect, Onboarding.SkipEffect, Onboarding.CompleteEffect,
         Onboarding.OpenAdditionalEffect, Transfers.TransferEffect, Transfers.WithdrawEffect,
         AccountService.DepositEffect, AccountService.WithdrawEffect, AccountService.TransferEffect;
    match call {
      case Start(subject, id, draw) =>
        var service := new Onboarding.OnboardingService(session, cfg);
        var _ :- service.Start(subject, id, draw);
      case Attach(subject, allowed, id, draw) =>
        var service := new Onboarding.OnboardingService(session, cfg);
        var _ :- service.AttachDocument(subject, allowed, id, draw);
      case Skip(subject, id, draw) =>
        var service := new Onboarding.OnboardingCompletionService(session, cfg);
        var _ :- service.SkipAndOpen(subject, id, draw);
      case Complete(subject, form, id, draw) =>
        var service := new Onboarding.OnboardingCompletionService(session, cfg);
        var _ :- service.Complete(subject, form, id, draw);
      case OpenAdditional(subject, draw) =>
        var service := new Onboarding.OnboardingCompletionService(session, cfg);
        var _ :- service.OpenAdditional(subject, draw);
      case Transfer(subject, amount, source, destination, key) =>
        var service := new Transfers.TransferService(session, cfg);
        var _ :- service.Transfer(subject, amount, source, destination, key);
      case Withdraw(subject, amount, requestId, key) =>
        var service := new Transfers.TransferService(session, cfg);
        var _ :- service.Withdraw(subject, amount, requestId, key);
      case LegacyDeposit(target, units) =>
        var service := new AccountService.Service(session);
        var _ :- service.Deposit(target, units);
      case LegacyWithdraw(origin, units) =>
        var service := new AccountService.Service(session);
        var _ :- service.Withdraw(origin, units);
      case LegacyTransfer(origin, target, units) =>
        var service := new AccountService.Service(session);
        var _ :- service.Transfer(origin, target, units);
    }
    r := Success(());
  }

  /** One request, one transaction: a half-done service call leaves nothing behind. */
  method Serve(db: Db, cfg: Settings, req: Request) returns (after: Db, r: Result<(), Error>)
    ensures after == Apply(db, cfg, req)
    ensures r.Success? <==> CallEffect(db, cfg, req).Success?
    ensures r.Failure? ==> r.error == CallEffect(db, cfg, req).error
  {
    var session := new Session(db, req.now);
    r := Dispatch(session, cfg, req.call);
    if r.Failure? {
      session.Rollback(db);
    }
    after := session.Tables();
  }
}
