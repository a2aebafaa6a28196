/** Onboarding: starting, attaching documents, skipping, completing, and opening further drafts. */
module Onboarding {
  import opened Prelude
  import opened Errors
  import opened Digits
  import opened Tables
  import opened Ledger
  import opened OnboardingAccounts
  import opened OnboardingSessions
  import Validation

  const WELCOME_PREFIX := "welcome:"

  function WelcomeKey(id: string): string {
    WELCOME_PREFIX + id
  }

  predicate IsGrantTo(t: Txn, id: string) {
    t.account == id && t.kind == DemoGrant
  }

  predicate Granted(txns: seq<Txn>, id: string) {
    exists i | 0 <= i < |txns| :: IsGrantTo(txns[i], id)
  }

  /** `_ensure_welcome`: the log is asked first, then the ledger's own key check. */
  function WelcomeEffect(db: Db, cfg: Settings, id: string, now: int): Result<Db, Error> {
    if Granted(db.txns, id) then Success(db)
    else match WelcomeGrantEffect(db, id, cfg.welcome, Some(WelcomeKey(id)), now)
      case Success(after) => Success(after)
      case Failure(IdempotentReplay(_)) => Success(WithLedgerAccount(db, id))
      case Failure(e) => Failure(e)
  }

  function WithStatus(db: Db, id: string, status: Onboarding): Db
    requires id in db.accounts
  {
    db.(accounts := db.accounts[id := db.accounts[id].(onboarding := status)])
  }

  function WithHolder(db: Db, subject: string, holder: Option<Holder>): Db {
    if holder.Some? then db.(holders := db.holders[subject := holder.value]) else db
  }

  /** An account without number or digit receives them when it is finished. */
  function Numbered(db: Db, cfg: Settings, id: string, digit: nat): Db
    requires id in db.accounts
  {
    var account := db.accounts[id];
    if account.number.Some? && account.digit.Some? then db
    else
      var number := NextNumber(db.accounts, None, cfg.numberStart);
      db.(accounts := db.accounts[id := account.(number := Some(number), digit := Some(digit))])
  }

  datatype Outcome = Outcome(onboarding: Onboarding, session: SessionStatus)

  const COMPLETION := Outcome(Completed, ApprovedDemo)
  const SKIP := Outcome(Skipped, SkippedSession)

  /** `_finish_account` */
  function FinishEffect(db: Db, cfg: Settings, subject: string, id: string, holder: Option<Holder>, digit: nat,
                        outcome: Outcome, now: int): Result<Db, Error>
    requires id in db.accounts
  {
    var named := WithHolder(db, subject, holder);
    var numbered := Numbered(named, cfg, id, digit);
    var credited :- WelcomeEffect(numbered, cfg, id, now);
    WelcomeKeepsAccount(numbered, cfg, id, now);
    Success(WithStatus(WithClosedSession(credited, subject, id, outcome.session), id, outcome.onboarding))
  }

  lemma WelcomeKeepsAccount(db: Db, cfg: Settings, id: string, now: int)
    requires WelcomeEffect(db, cfg, id, now).Success?
    ensures WelcomeEffect(db, cfg, id, now).value.accounts.Keys == db.accounts.Keys
  {
    var p := Posted(WelcomeGrant, [Line(SYS_CASH, Debit, cfg.welcome), Line(id, Credit, cfg.welcome)],
                    Some(WelcomeKey(id)), true, now);
    MirrorKeepsKeys(Book(db.accounts, db.txns), p, 2);
  }

  // ---------------------------------------------------------------- the calls

  function StartEffect(db: Db, cfg: Settings, subject: string, id: Option<string>, draw: Draw, now: int)
    : Result<Db, Error>
  {
    var (resolved, target) :- ResolveEffect(db, cfg, subject, id, draw, now);
    Success(WithStatus(WithSession(resolved, subject, target, now), target, InProgress))
  }

  function AttachEffect(db: Db, cfg: Settings, subject: string, allowedType: bool, id: Option<string>, draw: Draw,
                        now: int): Result<Db, Error>
  {
    if !allowedType then Failure(OnboardingError(UnsupportedDocumentType))
    else
      var (resolved, target) :- ResolveEffect(db, cfg, subject, id, draw, now);
      var opened' := WithSession(resolved, subject, target, now);
      Success(if opened'.accounts[target].onboarding.Ready() then opened' else WithStatus(opened', target, InProgress))
  }

  function SkipEffect(db: Db, cfg: Settings, subject: string, id: Option<string>, draw: Draw, now: int)
    : Result<Db, Error>
  {
    var (resolved, target) :- ResolveEffect(db, cfg, subject, id, draw, now);
    var opened' := WithSession(resolved, subject, target, now);
    var holder := if subject in db.holders then None else Some(Holder(None));
    FinishEffect(opened', cfg, subject, target, holder, draw.digit, SKIP, now)
  }

  /** What the completion form carries; e-mail, phone, CEP and address checks are one flag. */
  datatype Form = Form(fullName: string, adult: bool, document: string, contactValid: bool, termsAccepted: bool)

  /** `_validate_full`: the document number to store. */
  function ValidateForm(form: Form): Result<string, Error> {
    if |Strip(form.fullName)| < 2 then Failure(OnboardingError(FullNameRequired))
    else if !form.adult then Failure(OnboardingError(NotAdult))
    else if Strip(form.document) == "" then Failure(OnboardingError(DocumentRequired))
    else
      var document :- Validation.ValidateDocument(Strip(form.document));
      if !form.contactValid then Failure(OnboardingError(InvalidContact))
      else if !form.termsAccepted then Failure(OnboardingError(TermsNotAccepted))
      else Success(document)
  }

  function CompleteEffect(db: Db, cfg: Settings, subject: string, form: Form, id: Option<string>, draw: Draw, now: int)
    : Result<Db, Error>
  {
    var (resolved, target) :- ResolveEffect(db, cfg, subject, id, draw, now);
    var opened' := WithSession(resolved, subject, target, now);
    var document :- ValidateForm(form);
    FinishEffect(opened', cfg, subject, target, Some(Holder(Some(document))), draw.digit, COMPLETION, now)
  }

  predicate AnyReady(accounts: map<string, Account>, subject: string) {
    exists id | id in accounts :: id in Owned(accounts, subject) && accounts[id].onboarding.Ready()
  }

  /** `open_additional_account` with `open_extra_draft`. */
  function OpenAdditionalEffect(db: Db, cfg: Settings, subject: string, draw: Draw, now: int): Result<Db, Error> {
    if !AnyReady(db.accounts, subject) || subject !in db.holders then
      Failure(OnboardingError(OnboardingIncomplete))
    else if |Owned(db.accounts, subject)| >= cfg.maxAccounts then Failure(OnboardingError(AccountLimitReached))
    else
      var created :- DraftEffect(db, cfg, subject, draw, now);
      Success(WithNewSession(created, subject, draw.id, now))
  }

  // ---------------------------------------------------------------- services

  class OnboardingService {
    const session: Session
    const sessions: OnboardingRepository
    const cfg: Settings

    constructor (session: Session, cfg: Settings)
      ensures this.session == session && sessions.session == session && this.cfg == cfg
    {
      this.session := session;
      this.cfg := cfg;
      sessions := new OnboardingRepository(session);
    }

    method Start(subject: string, id: Option<string>, draw: Draw) returns (r: Result<string, Error>)
      requires sessions.session == session && session.pendingNumber == None
      modifies session
      ensures match StartEffect(old(session.Tables()), cfg, subject, id, draw, session.now)
              case Success(db) => r.Success? && session.Tables() == db
              case Failure(e) => r == Failure(e)
    {
      var target :- Resolve(session, cfg, subject, id, draw);
      sessions.EnsureSession(subject, target);
      session.accounts := session.accounts[target := session.accounts[target].(onboarding := InProgress)];
      r := Success(target);
    }

    method AttachDocument(subject: string, allowedType: bool, id: Option<string>, draw: Draw)
      returns (r: Result<string, Error>)
      requires sessions.session == session && session.pendingNumber == None
      modifies session
      ensures match AttachEffect(old(session.Tables()), cfg, subject, allowedType, id, draw, session.now)
              case Success(db) => r.Success? && session.Tables() == db
              case Failure(e) => r == Failure(e)
    {
      if !allowedType {
        return Failure(OnboardingError(UnsupportedDocumentType));
      }
      var target :- Resolve(session, cfg, subject, id, draw);
      sessions.EnsureSession(subject, target);
      var status := session.accounts[target].onboarding;
      if status == NotStarted || status == InProgress {
        session.accounts := session.accounts[target := session.accounts[target].(onboarding := InProgress)];
      }
      r := Success(target);
    }
  }

  class OnboardingCompletionService {
    const session: Session
    const sessions: OnboardingRepository
    const ledger: LedgerService
    const cfg: Settings

    constructor (session: Session, cfg: Settings)
      ensures this.session == session && sessions.session == session && ledger.session == session && this.cfg == cfg
    {
      this.session := session;
      this.cfg := cfg;
      sessions := new OnboardingRepository(session);
      ledger := new LedgerService(session);
    }

    predicate Wired() {
      sessions.session == session && ledger.session == session
    }

    method EnsureWelcome(id: string) returns (r: Result<bool, Error>)
      requires Wired()
      modifies session
      ensures match WelcomeEffect(old(session.Tables()), cfg, id, session.now)
              case Success(db) => r == Success(true) && session.Tables() == db
              case Failure(e) => r == Failure(e)
      ensures session.pendingNumber == old(session.pendingNumber)
    {
      session.LockRow(id);
      if Granted(session.txns, id) {
        return Success(true);
      }
      var granted := ledger.GrantWelcome(id, cfg.welcome, Some(WelcomeKey(id)));
      if granted.Failure? && !granted.error.IdempotentReplay? {
        return Failure(granted.error);
      }
      r := Success(true);
    }

    method FinishAccount(subject: string, id: string, holder: Option<Holder>, digit: nat, outcome: Outcome)
      returns (r: Result<string, Error>)
      requires Wired() && id in session.accounts
      requires session.pendingNumber.None? || (session.accounts[id].number.Some? && session.accounts[id].digit.Some?)
      modifies session
      ensures match FinishEffect(old(session.Tables()), cfg, subject, id, holder, digit, outcome, session.now)
              case Success(db) => r == Success(id) && session.Tables() == db
              case Failure(e) => r == Failure(e)
    {
      hide WelcomeEffect, Closed, NextNumber;
      if holder.Some? {
        session.holders := session.holders[subject := holder.value];
      }
      var account := session.accounts[id];
      if account.number.None? || account.digit.None? {
        var generator := new AccountNumberGenerator(session, cfg.numberStart);
        var number := generator.Next();
        session.accounts := session.accounts[id := account.(number := Some(number), digit := Some(digit))];
      }
      ghost var numbered := session.Tables();
      var credited := EnsureWelcome(id);
      if credited.Failure? {
        return Failure(credited.error);
      }
      WelcomeKeepsAccount(numbered, cfg, id, session.now);
      sessions.CloseSession(subject, id, outcome.session);
      session.accounts := session.accounts[id := session.accounts[id].(onboarding := outcome.onboarding)];
      r := Success(id);
    }

    method SkipAndOpen(subject: string, id: Option<string>, draw: Draw) returns (r: Result<string, Error>)
      requires Wired() && session.pendingNumber == None
      modifies session
      ensures match SkipEffect(old(session.Tables()), cfg, subject, id, draw, session.now)
              case Success(db) => r.Success? && session.Tables() == db
              case Failure(e) => r == Failure(e)
    {
      var target :- Resolve(session, cfg, subject, id, draw);
      sessions.EnsureSession(subject, target);
      var holder := None;
      if subject !in session.holders {
        holder := Some(Holder(None));
      }
      r := FinishAccount(subject, target, holder, draw.digit, SKIP);
    }

    method Complete(subject: string, form: Form, id: Option<string>, draw: Draw) returns (r: Result<string, Error>)
      requires Wired() && session.pendingNumber == None
      modifies session
      ensures match CompleteEffect(old(session.Tables()), cfg, subject, form, id, draw, session.now)
              case Success(db) => r.Success? && session.Tables() == db
              case Failure(e) => r == Failure(e)
    {
      var target :- Resolve(session, cfg, subject, id, draw);
      sessions.EnsureSession(subject, target);
      var document :- ValidateForm(form);
      r := FinishAccount(subject, target, Some(Holder(Some(document))), draw.digit, COMPLETION);
    }

    method OpenAdditional(subject: string, draw: Draw) returns (r: Result<string, Error>)
      requires Wired() && session.pendingNumber == None
      modifies session
      ensures match OpenAdditionalEffect(old(session.Tables()), cfg, subject, draw, session.now)
              case Success(db) => r.Success? && session.Tables() == db
              case Failure(e) => r == Failure(e)
    {
      if !AnyReady(session.accounts, subject) || subject !in session.holders {
        return Failure(OnboardingError(OnboardingIncomplete));
      }
      if |Owned(session.accounts, subject)| >= cfg.maxAccounts {
        return Failure(OnboardingError(AccountLimitReached));
      }
      var created :- CreateDraft(session, cfg, subject, draw);
      sessions.CreateSession(subject, created);
      r := Success(created);
    }
  }
}
