/** The onboarding calls: which account each works on, when it is refused, and exactly what it leaves behind. */
module OnboardingLaws {
  import opened Prelude
  import opened Errors
  import opened Digits
  import opened Tables
  import opened OnboardingAccounts
  import opened OnboardingSessions
  import opened Onboarding
  import opened Bank
  import opened Steps
  import opened Movements
  import Ledger
  import Validation

  // ---------------------------------------------------------------- the account worked on

  /** The account named, which must be the caller's own; without a name a new one, if the caller has none yet. */
  predicate WorksOn(db: Db, subject: string, id: Option<string>, draw: Draw, target: string) {
    if id.Some? && id.value != "" then target == id.value && Mine(db, subject, target)
    else (forall other | other in db.accounts :: !Mine(db, subject, other))
         && target == draw.id && draw.id !in db.accounts
  }

  /** A number above all numbers issued, and no higher than it must be. */
  predicate NextFree(accounts: map<string, Account>, start: nat, number: nat) {
    && number >= start
    && (forall id | id in accounts && accounts[id].number.Some? :: accounts[id].number.value < number)
    && (number == start || exists id :: id in accounts && accounts[id].number == Some(number - 1))
  }

  lemma NextFreeIs(accounts: map<string, Account>, start: nat, number: nat)
    ensures NextFree(accounts, start, number) <==> NextNumber(accounts, None, start) == number
  {
    var next := NextNumber(accounts, None, start);
    assert NextFree(accounts, start, next);
    forall id | id in accounts && accounts[id].number == Some(number - 1) ensures number <= next {
      assert number - 1 < next;
    }
  }

  /** The row a new account starts as. */
  predicate IsDraft(db: Db, cfg: Settings, subject: string, draw: Draw, now: int, account: Account) {
    && account.number.Some? && NextFree(db.accounts, cfg.numberStart, account.number.value)
    && account == Account(Some(subject), true, true, InProgress, account.number, Some(draw.digit), 0, 0, now)
  }

  /** The row the call works on, as it stands or as it is created. */
  predicate StartsAs(db: Db, cfg: Settings, subject: string, draw: Draw, now: int, target: string, account: Account) {
    if target in db.accounts then account == db.accounts[target] else IsDraft(db, cfg, subject, draw, now, account)
  }

  lemma ResolvedIs(db: Db, cfg: Settings, subject: string, id: Option<string>, draw: Draw, now: int, target: string)
    ensures var r := ResolveEffect(db, cfg, subject, id, draw, now);
            r.Success? && r.value.1 == target <==> WorksOn(db, subject, id, draw, target)
  {
    forall other ensures other in Owned(db.accounts, subject) <==> Mine(db, subject, other) {
    }
  }

  lemma ResolvedTables(db: Db, cfg: Settings, subject: string, id: Option<string>, draw: Draw, now: int)
    requires ResolveEffect(db, cfg, subject, id, draw, now).Success?
    ensures var (resolved, target) := ResolveEffect(db, cfg, subject, id, draw, now).value;
            && target in resolved.accounts
            && StartsAs(db, cfg, subject, draw, now, target, resolved.accounts[target])
            && resolved == db.(accounts := db.accounts[target := resolved.accounts[target]])
  {
    hide NextNumber, Owned;
    var (resolved, target) := ResolveEffect(db, cfg, subject, id, draw, now).value;
    NextFreeIs(db.accounts, cfg.numberStart, NextNumber(db.accounts, None, cfg.numberStart));
    if target in db.accounts {
      OwnedIsMine(db, subject, target);
      assert db.accounts[target := db.accounts[target]] == db.accounts;
    }
  }

  /** Why an account cannot be resolved. */
  lemma ResolveRefusals(db: Db, cfg: Settings, subject: string, id: Option<string>, draw: Draw, now: int)
    ensures var r := ResolveEffect(db, cfg, subject, id, draw, now);
            if id.Some? && id.value != "" then
              if id.value !in db.accounts || !db.accounts[id.value].checking then
                r == Failure(AccountNotFound(id.value))
              else db.accounts[id.value].owner != Some(subject) ==> r == Failure(ForbiddenAccountAccess(id.value))
            else if exists other :: other in db.accounts && Mine(db, subject, other) then
              r == Failure(OnboardingError(AccountIdRequired))
            else draw.id in db.accounts ==> r == Failure(IntegrityError)
  {
    forall other ensures other in Owned(db.accounts, subject) <==> Mine(db, subject, other) {
    }
  }

  // ---------------------------------------------------------------- finishing an account

  /** No grant yet, and nothing else filed under its key. */
  predicate GrantDue(db: Db, id: string) {
    (forall t | t in db.txns :: t.account != id || t.kind != DemoGrant) && !KeyUsed(db, "welcome:" + id)
  }

  lemma DueIs(db: Db, id: string)
    ensures GrantDue(db, id) <==> !Granted(db.txns, id) && Ledger.KeyIndex(db.journals, WelcomeKey(id)).None?
  {
    hide KeyUsed;
    UsedIff(db, "welcome:" + id);
    if i :| 0 <= i < |db.txns| && IsGrantTo(db.txns[i], id) {
      assert db.txns[i] in db.txns;
    }
    forall t | t in db.txns && t.account == id && t.kind == DemoGrant ensures Granted(db.txns, id) {
      var i :| 0 <= i < |db.txns| && db.txns[i] == t;
      assert IsGrantTo(db.txns[i], id);
    }
  }

  /** An account that lacks its number or digit is given the next number and the drawn digit, and nothing else. */
  lemma NumberedExactly(db: Db, cfg: Settings, id: string, digit: nat)
    requires id in db.accounts
    ensures var was, after := db.accounts[id], Numbered(db, cfg, id, digit);
            if was.number.Some? && was.digit.Some? then after == db
            else exists n :: NextFree(db.accounts, cfg.numberStart, n)
                             && after == db.(accounts := db.accounts[id := was.(number := Some(n),
                                                                                digit := Some(digit))])
  {
    hide NextNumber, NextFree;
    NextFreeIs(db.accounts, cfg.numberStart, NextNumber(db.accounts, None, cfg.numberStart));
  }

  /** What finishing leaves: the status, the grant if it was due, the holder; nothing else of anybody's. */
  ghost predicate FinishedAs(db: Db, after: Db, cfg: Settings, id: string, was: Account,
                             holders: map<string, Holder>, status: Tables.Onboarding, now: int)
  {
    var granted := GrantDue(db, id);
    && id in after.accounts
    && after.accounts == db.accounts[id := after.accounts[id]]
    && after.accounts[id] == was.(balance := was.balance + (if granted then cfg.welcome else 0), onboarding := status,
                                  number := after.accounts[id].number, digit := after.accounts[id].digit)
    && (was.number.Some? && was.digit.Some? ==>
          after.accounts[id].number == was.number && after.accounts[id].digit == was.digit)
    && after.holders == holders
    && (granted ==>
          && after.txns == db.txns + [Txn(id, cfg.welcome, DemoGrant, None, Some("welcome:" + id), now)]
          && after.journals == db.journals + [Journal(WelcomeGrant, Some("welcome:" + id))]
          && after.postings == db.postings + [Posting(|db.journals|, Line(SYS_CASH, Debit, cfg.welcome)),
                                              Posting(|db.journals|, Line(id, Credit, cfg.welcome))])
    && (!granted ==> after.txns == db.txns && after.journals == db.journals && after.postings == db.postings)
  }

  lemma WelcomeOutcome(db: Db, cfg: Settings, id: string, now: int)
    requires id in db.accounts && id != SYS_CASH
    ensures var r := WelcomeEffect(db, cfg, id, now);
            if GrantDue(db, id) && cfg.welcome <= 0 then r == Failure(LedgerError(NoAmount))
            else r.Success? && FinishedAs(db, r.value, cfg, id, db.accounts[id], db.holders,
                                          db.accounts[id].onboarding, now)
                 && r.value.sessions == db.sessions
  {
    hide Granted, Ledger.KeyIndex, Ledger.MirrorLines, GrantDue, KeyUsed;
    DueIs(db, id);
    assert WelcomeKey(id)[0] == 'w';
    var debit, credit := Line(SYS_CASH, Debit, cfg.welcome), Line(id, Credit, cfg.welcome);
    TwoLines(debit, credit);
    if WelcomeEffect(db, cfg, id, now).Success? {
      WelcomeShape(db, cfg, id, now);
    }
    assert db.accounts[id := db.accounts[id]] == db.accounts;
  }

  lemma FinishOutcome(db: Db, cfg: Settings, subject: string, id: string, holder: Option<Holder>, digit: nat,
                      outcome: Outcome, now: int)
    requires id in db.accounts && id != SYS_CASH
    ensures var r := FinishEffect(db, cfg, subject, id, holder, digit, outcome, now);
            if GrantDue(db, id) && cfg.welcome <= 0 then r == Failure(LedgerError(NoAmount))
            else r.Success?
                 && FinishedAs(db, r.value, cfg, id, db.accounts[id],
                               if holder.Some? then db.holders[subject := holder.value] else db.holders,
                               outcome.onboarding, now)
                 && r.value.sessions == Closed(db.sessions, subject, id, outcome.session)
  {
    hide WelcomeEffect, GrantDue, KeyUsed, Closed, FinishedAs, Numbered;
    var named := WithHolder(db, subject, holder);
    var numbered := Numbered(named, cfg, id, digit);
    NumberedShape(named, cfg, id, digit);
    SameDue(db, numbered, id);
    WelcomeOutcome(numbered, cfg, id, now);
    if !(GrantDue(db, id) && cfg.welcome <= 0) {
      var credited := WelcomeEffect(numbered, cfg, id, now).value;
      WelcomeKeeps(numbered, cfg, id, now);
      FinishedAround(db, numbered, credited, cfg, subject, id, outcome, now);
    }
  }

  /** Number, holder, session and status around the welcome step. */
  lemma FinishedAround(db: Db, numbered: Db, credited: Db, cfg: Settings, subject: string, id: string,
                       outcome: Outcome, now: int)
    requires id in db.accounts && id in numbered.accounts && id in credited.accounts
    requires numbered.accounts == db.accounts[id := numbered.accounts[id]]
    requires SameHolding(db.accounts[id], numbered.accounts[id])
    requires numbered.accounts[id].balance == db.accounts[id].balance
    requires numbered.txns == db.txns && numbered.journals == db.journals && numbered.postings == db.postings
    requires FinishedAs(numbered, credited, cfg, id, numbered.accounts[id], numbered.holders,
                        numbered.accounts[id].onboarding, now)
    ensures var closed := WithClosedSession(credited, subject, id, outcome.session);
            FinishedAs(db, WithStatus(closed, id, outcome.onboarding), cfg, id, db.accounts[id], numbered.holders,
                       outcome.onboarding, now)
  {
    hide GrantDue, Closed;
    SameDue(db, numbered, id);
  }

  lemma WelcomeKeeps(db: Db, cfg: Settings, id: string, now: int)
    requires WelcomeEffect(db, cfg, id, now).Success? && id in db.accounts
    ensures id in WelcomeEffect(db, cfg, id, now).value.accounts
  {
    hide WelcomeEffect;
    WelcomeKeepsAccount(db, cfg, id, now);
  }

  lemma SameDue(db: Db, other: Db, id: string)
    requires other.txns == db.txns && other.journals == db.journals
    ensures GrantDue(other, id) <==> GrantDue(db, id)
  {
  }

  /** The newest session of the account has the status. */
  predicate NewestSession(sessions: seq<OnboardingSession>, subject: string, id: string, status: SessionStatus) {
    var newest := Latest(sessions, subject, id);
    newest.Some? && sessions[newest.value].status == status
  }

  lemma {:induction false} OpenedHasOne(sessions: seq<OnboardingSession>, subject: string, id: string, now: int)
    ensures Latest(Opened(sessions, subject, id, now), subject, id).Some?
  {
    var s := OnboardingSession(subject, id, Draft, now);
    assert BelongsTo(s, subject, id);
    assert (sessions + [s])[|sessions|] == s;
  }

  lemma {:induction false} StatusKeepsLatest(sessions: seq<OnboardingSession>, subject: string, id: string, i: nat,
                                             status: SessionStatus)
    requires i < |sessions|
    ensures Latest(sessions[i := sessions[i].(status := status)], subject, id) == Latest(sessions, subject, id)
  {
    var n, changed := |sessions| - 1, sessions[i := sessions[i].(status := status)];
    if i < n {
      assert changed[..n] == sessions[..n][i := sessions[..n][i].(status := status)];
      StatusKeepsLatest(sessions[..n], subject, id, i, status);
    } else {
      assert changed[..n] == sessions[..n];
    }
  }

  lemma ClosedIsNewest(sessions: seq<OnboardingSession>, subject: string, id: string, now: int, status: SessionStatus)
    ensures NewestSession(Closed(Opened(sessions, subject, id, now), subject, id, status), subject, id, status)
  {
    hide Latest, Opened;
    OpenedHasOne(sessions, subject, id, now);
    var opened' := Opened(sessions, subject, id, now);
    StatusKeepsLatest(opened', subject, id, Latest(opened', subject, id).value, status);
  }

  // ---------------------------------------------------------------- completing and skipping

  /** A call that finishes its account leaves this. */
  ghost predicate Finishes(db: Db, after: Db, cfg: Settings, req: Request, target: string, holders: map<string, Holder>,
                           status: Tables.Onboarding, session: SessionStatus)
    requires req.call.Complete? || req.call.Skip?
  {
    && (exists was :: StartsAs(db, cfg, req.call.subject, req.call.draw, req.now, target, was)
                      && FinishedAs(db, after, cfg, target, was, holders, status, req.now))
    && NewestSession(after.sessions, req.call.subject, target, session)
  }

  lemma FinishesFrom(db: Db, middle: Db, after: Db, cfg: Settings, req: Request, target: string,
                     holders: map<string, Holder>, status: Tables.Onboarding, session: SessionStatus)
    requires req.call.Complete? || req.call.Skip?
    requires target in middle.accounts && middle.accounts == db.accounts[target := middle.accounts[target]]
    requires middle.txns == db.txns && middle.journals == db.journals && middle.postings == db.postings
    requires StartsAs(db, cfg, req.call.subject, req.call.draw, req.now, target, middle.accounts[target])
    requires FinishedAs(middle, after, cfg, target, middle.accounts[target], holders, status, req.now)
    requires NewestSession(after.sessions, req.call.subject, target, session)
    ensures Finishes(db, after, cfg, req, target, holders, status, session)
  {
    hide GrantDue, NewestSession, StartsAs;
    SameDue(db, middle, target);
    assert FinishedAs(db, after, cfg, target, middle.accounts[target], holders, status, req.now);
  }

  lemma MiddleOf(db: Db, cfg: Settings, req: Request, target: string)
    requires req.call.Complete? || req.call.Skip?
    requires WorksOn(db, req.call.subject, req.call.id, req.call.draw, target)
    ensures var call := req.call;
            && ResolveEffect(db, cfg, call.subject, call.id, call.draw, req.now).Success?
            && ResolveEffect(db, cfg, call.subject, call.id, call.draw, req.now).value.1 == target
            && var middle := Prepared(db, cfg, call.subject, call.id, call.draw, req.now);
            && target in middle.accounts && middle.accounts == db.accounts[target := middle.accounts[target]]
            && middle.txns == db.txns && middle.journals == db.journals && middle.postings == db.postings
            && middle.holders == db.holders && middle.sessions == Opened(db.sessions, call.subject, target, req.now)
            && StartsAs(db, cfg, call.subject, call.draw, req.now, target, middle.accounts[target])
  {
    hide ResolveEffect, WorksOn, StartsAs, Opened;
    ResolvedIs(db, cfg, req.call.subject, req.call.id, req.call.draw, req.now, target);
    ResolvedTables(db, cfg, req.call.subject, req.call.id, req.call.draw, req.now);
  }

  /** The form's first fault, if it has one: name, age, document, contact, terms. */
  function Fault(form: Form): Option<Refusal> {
    if |Strip(form.fullName)| < 2 then Some(FullNameRequired)
    else if !form.adult then Some(NotAdult)
    else if Strip(form.document) == "" then Some(DocumentRequired)
    else if !Validation.ValidateCpf(form.document).Success? && !Validation.ValidateCnpj(form.document).Success? then
      Some(if |DigitsOnly(form.document)| == 11 then InvalidCpf
           else if |DigitsOnly(form.document)| == 14 then InvalidCnpj else UnknownDocumentKind)
    else if !form.contactValid then Some(InvalidContact)
    else if !form.termsAccepted then Some(TermsNotAccepted)
    else None
  }

  lemma FormIs(form: Form)
    ensures ValidateForm(form) == if Fault(form).Some? then Failure(OnboardingError(Fault(form).value))
                                  else Success(DigitsOnly(form.document))
  {
    hide Strip, DigitsOnly, Validation.ValidateCpf, Validation.ValidateCnpj, Validation.ValidateDocument;
    SpacesAreNoDigits(form.document);
    Validation.DocumentExactly(Strip(form.document));
    SameDigitsSameCheck(Strip(form.document), form.document);
  }

  lemma SameDigitsSameCheck(a: string, b: string)
    requires DigitsOnly(a) == DigitsOnly(b)
    ensures Validation.ValidateCpf(a) == Validation.ValidateCpf(b)
    ensures Validation.ValidateCnpj(a) == Validation.ValidateCnpj(b)
  {
    hide DigitsOnly;
  }

  /** Completing an account that resolves: the form's first fault refuses it; then a grant that is due but has no
      amount; otherwise it is completed, the grant made if due, and the caller's holder carries the cleaned document. */
  lemma CompleteExactly(db: Db, cfg: Settings, req: Request, target: string)
    requires req.call.Complete? && Proper(req.call) && SYS_CASH !in db.accounts
    requires WorksOn(db, req.call.subject, req.call.id, req.call.draw, target)
    ensures var call, r := req.call, CallEffect(db, cfg, req);
            if Fault(call.form).Some? then r == Failure(OnboardingError(Fault(call.form).value))
            else if GrantDue(db, target) && cfg.welcome <= 0 then r == Failure(LedgerError(NoAmount))
            else r.Success?
                 && Finishes(db, r.value, cfg, req, target,
                             db.holders[call.subject := Holder(Some(DigitsOnly(call.form.document)))],
                             Completed, ApprovedDemo)
  {
    hide FinishEffect, ResolveEffect, WorksOn, StartsAs, FinishedAs, Finishes, GrantDue, Fault, ValidateForm,
         DigitsOnly, Opened, Closed;
    var call := req.call;
    MiddleOf(db, cfg, req, target);
    FormIs(call.form);
    var middle := Prepared(db, cfg, call.subject, call.id, call.draw, req.now);
    assert target != SYS_CASH by { TargetIsCustomer(db, call.subject, call.id, call.draw, target); }
    SameDue(db, middle, target);
    if Fault(call.form).None? {
      var holder := Some(Holder(Some(DigitsOnly(call.form.document))));
      FinishOutcome(middle, cfg, call.subject, target, holder, call.draw.digit, COMPLETION, req.now);
      ClosedIsNewest(db.sessions, call.subject, target, req.now, ApprovedDemo);
      if !(GrantDue(db, target) && cfg.welcome <= 0) {
        FinishesFrom(db, middle, CallEffect(db, cfg, req).value, cfg, req, target,
                     db.holders[call.subject := holder.value], Completed, ApprovedDemo);
      }
    }
  }

  lemma TargetIsCustomer(db: Db, subject: string, id: Option<string>, draw: Draw, target: string)
    requires WorksOn(db, subject, id, draw, target) && SYS_CASH !in db.accounts && draw.id != SYS_CASH
    ensures target != SYS_CASH
  {
  }

  /** And it succeeds for no other account: exactly when one resolves, the form has no fault and the grant is not due
      without an amount. */
  lemma CompleteSucceedsExactly(db: Db, cfg: Settings, req: Request)
    requires req.call.Complete? && Proper(req.call) && SYS_CASH !in db.accounts
    ensures CallEffect(db, cfg, req).Success? <==>
              && Fault(req.call.form).None?
              && exists target :: WorksOn(db, req.call.subject, req.call.id, req.call.draw, target)
                                  && !(GrantDue(db, target) && cfg.welcome <= 0)
  {
    hide FinishEffect, ResolveEffect, WorksOn, GrantDue, Fault, ValidateForm, Finishes;
    var call := req.call;
    var resolved := ResolveEffect(db, cfg, call.subject, call.id, call.draw, req.now);
    forall target
      ensures resolved.Success? && resolved.value.1 == target <==> WorksOn(db, call.subject, call.id, call.draw, target)
    {
      ResolvedIs(db, cfg, call.subject, call.id, call.draw, req.now, target);
    }
    if resolved.Success? {
      CompleteExactly(db, cfg, req, resolved.value.1);
    }
  }

  /** Skipping finishes the account likewise, and puts an empty holder on file for a caller who has none. */
  lemma SkipExactly(db: Db, cfg: Settings, req: Request, target: string)
    requires req.call.Skip? && Proper(req.call) && SYS_CASH !in db.accounts
    requires WorksOn(db, req.call.subject, req.call.id, req.call.draw, target)
    ensures var call, r := req.call, CallEffect(db, cfg, req);
            if GrantDue(db, target) && cfg.welcome <= 0 then r == Failure(LedgerError(NoAmount))
            else r.Success?
                 && Finishes(db, r.value, cfg, req, target,
                             if call.subject in db.holders then db.holders
                             else db.holders[call.subject := Holder(None)], Skipped, SkippedSession)
  {
    hide FinishEffect, ResolveEffect, WorksOn, StartsAs, FinishedAs, Finishes, GrantDue, Opened, Closed;
    var call := req.call;
    MiddleOf(db, cfg, req, target);
    var middle := Prepared(db, cfg, call.subject, call.id, call.draw, req.now);
    assert target != SYS_CASH by { TargetIsCustomer(db, call.subject, call.id, call.draw, target); }
    SameDue(db, middle, target);
    var holder := if call.subject in db.holders then None else Some(Holder(None));
    FinishOutcome(middle, cfg, call.subject, target, holder, call.draw.digit, SKIP, req.now);
    ClosedIsNewest(db.sessions, call.subject, target, req.now, SkippedSession);
    if !(GrantDue(db, target) && cfg.welcome <= 0) {
      FinishesFrom(db, middle, CallEffect(db, cfg, req).value, cfg, req, target,
                   if call.subject in db.holders then db.holders else db.holders[call.subject := Holder(None)], Skipped,
                   SkippedSession);
    }
  }

  // ---------------------------------------------------------------- starting, attaching, opening another

  /** Everything but accounts and sessions is as it was. */
  predicate NoMoneyMoved(db: Db, after: Db) {
    && after.txns == db.txns && after.journals == db.journals && after.postings == db.postings
    && after.ledgerAccounts == db.ledgerAccounts && after.holders == db.holders
  }

  lemma DraftIsNewest(sessions: seq<OnboardingSession>, subject: string, id: string, now: int)
    requires forall s | s in sessions :: s.createdAt <= now
    ensures NewestSession(Opened(sessions, subject, id, now), subject, id, Draft)
  {
    var s := OnboardingSession(subject, id, Draft, now);
    assert (sessions + [s])[..|sessions|] == sessions && (sessions + [s])[|sessions|] == s;
    assert BelongsTo(s, subject, id);
  }

  /** Starting puts the account back in progress and moves no money, whatever its status was. */
  lemma StartExactly(db: Db, cfg: Settings, req: Request, target: string)
    requires req.call.Start? && WorksOn(db, req.call.subject, req.call.id, req.call.draw, target)
    ensures var call, r := req.call, CallEffect(db, cfg, req);
            && r.Success? && NoMoneyMoved(db, r.value)
            && r.value.sessions == Opened(db.sessions, call.subject, target, req.now)
            && ((forall s | s in db.sessions :: s.createdAt <= req.now) ==>
                  NewestSession(r.value.sessions, call.subject, target, Draft))
            && exists was :: StartsAs(db, cfg, call.subject, call.draw, req.now, target, was)
                             && r.value.accounts == db.accounts[target := was.(onboarding := InProgress)]
  {
    hide ResolveEffect, WorksOn, StartsAs, Opened, NewestSession;
    var call := req.call;
    ResolvedIs(db, cfg, call.subject, call.id, call.draw, req.now, target);
    ResolvedTables(db, cfg, call.subject, call.id, call.draw, req.now);
    var was := ResolveEffect(db, cfg, call.subject, call.id, call.draw, req.now).value.0.accounts[target];
    if forall s | s in db.sessions :: s.createdAt <= req.now {
      DraftIsNewest(db.sessions, call.subject, target, req.now);
    }
    assert CallEffect(db, cfg, req).value.accounts == db.accounts[target := was.(onboarding := InProgress)];
  }

  /** Attaching a document of an allowed kind does the same, but leaves a finished account finished. */
  lemma AttachExactly(db: Db, cfg: Settings, req: Request, target: string)
    requires req.call.Attach? && WorksOn(db, req.call.subject, req.call.id, req.call.draw, target)
    ensures var call, r := req.call, CallEffect(db, cfg, req);
            if !call.allowedType then r == Failure(OnboardingError(UnsupportedDocumentType))
            else
              && r.Success? && NoMoneyMoved(db, r.value)
              && r.value.sessions == Opened(db.sessions, call.subject, target, req.now)
              && ((forall s | s in db.sessions :: s.createdAt <= req.now) ==>
                    NewestSession(r.value.sessions, call.subject, target, Draft))
              && exists was :: StartsAs(db, cfg, call.subject, call.draw, req.now, target, was)
                               && r.value.accounts
                                  == db.accounts[target := if was.onboarding == Completed || was.onboarding == Skipped
                                                           then was else was.(onboarding := InProgress)]
  {
    hide ResolveEffect, WorksOn, StartsAs, Opened, NewestSession;
    var call := req.call;
    ResolvedIs(db, cfg, call.subject, call.id, call.draw, req.now, target);
    ResolvedTables(db, cfg, call.subject, call.id, call.draw, req.now);
    var was := ResolveEffect(db, cfg, call.subject, call.id, call.draw, req.now).value.0.accounts[target];
    if forall s | s in db.sessions :: s.createdAt <= req.now {
      DraftIsNewest(db.sessions, call.subject, target, req.now);
    }
    if call.allowedType {
      assert CallEffect(db, cfg, req).value.accounts
          == db.accounts[target := if was.onboarding == Completed || was.onboarding == Skipped then was
                                   else was.(onboarding := InProgress)];
    }
  }

  /** An account the call cannot work on refuses it. */
  lemma UnresolvedFails(db: Db, cfg: Settings, req: Request)
    requires req.call.Start? || req.call.Attach? || req.call.Skip? || req.call.Complete?
    requires forall target :: !WorksOn(db, req.call.subject, req.call.id, req.call.draw, target)
    requires req.call.Attach? ==> req.call.allowedType
    ensures var resolved := ResolveEffect(db, cfg, req.call.subject, req.call.id, req.call.draw, req.now);
            resolved.Failure? && CallEffect(db, cfg, req) == Failure(resolved.error)
  {
    hide ResolveEffect, WorksOn, FinishEffect, ValidateForm;
    var call := req.call;
    var resolved := ResolveEffect(db, cfg, call.subject, call.id, call.draw, req.now);
    if resolved.Success? {
      ResolvedIs(db, cfg, call.subject, call.id, call.draw, req.now, resolved.value.1);
    }
  }

  ghost function AllMine(db: Db, subject: string): set<string> {
    set x | x in db.accounts && Mine(db, subject, x)
  }

  /** Opening another account needs a finished one, a holder on file and room below the cap; it starts as a draft with
      a session of its own. */
  lemma OpenAdditionalExactly(db: Db, cfg: Settings, req: Request)
    requires req.call.OpenAdditional?
    ensures var call, r := req.call, CallEffect(db, cfg, req);
            if (forall x | x in db.accounts && Mine(db, call.subject, x) ::
                  db.accounts[x].onboarding != Completed && db.accounts[x].onboarding != Skipped)
               || call.subject !in db.holders
            then r == Failure(OnboardingError(OnboardingIncomplete))
            else if |AllMine(db, call.subject)| >= cfg.maxAccounts then
              r == Failure(OnboardingError(AccountLimitReached))
            else if call.draw.id in db.accounts then r == Failure(IntegrityError)
            else
              && r.Success? && NoMoneyMoved(db, r.value)
              && r.value.sessions == db.sessions + [OnboardingSession(call.subject, call.draw.id, Draft, req.now)]
              && exists draft :: IsDraft(db, cfg, call.subject, call.draw, req.now, draft)
                                 && r.value.accounts == db.accounts[call.draw.id := draft]
  {
    hide NextNumber;
    var call := req.call;
    NextFreeIs(db.accounts, cfg.numberStart, NextNumber(db.accounts, None, cfg.numberStart));
    assert AllMine(db, call.subject) == Owned(db.accounts, call.subject);
    assert AnyReady(db.accounts, call.subject) <==>
             exists x :: x in db.accounts && Mine(db, call.subject, x) && db.accounts[x].onboarding.Ready();
    if CallEffect(db, cfg, req).Success? {
      var draft := DraftAccount(call.subject, NextNumber(db.accounts, None, cfg.numberStart), call.draw.digit, req.now);
      assert IsDraft(db, cfg, call.subject, call.draw, req.now, draft);
    }
  }
}
