/** What every run keeps about onboarding sessions, and the money freeze while onboarding is open. */
module SessionLaws {
  import opened Prelude
  import opened Tables
  import opened OnboardingAccounts
  import opened OnboardingSessions
  import opened Onboarding
  import opened LedgerLaws
  import opened Bank
  import opened Steps
  import opened MoneyLaws
  import AccountRepository
  import Money
  import Transfers

  // ---------------------------------------------------------------- session tables

  /** Creation times increase, and a draft is the newest session of its account. */
  ghost predicate Orderly(sessions: seq<OnboardingSession>) {
    && (forall i, j | 0 <= i < j < |sessions| :: sessions[i].createdAt < sessions[j].createdAt)
    && (forall i, j | 0 <= i < j < |sessions| && sessions[i].account == sessions[j].account ::
          sessions[i].status.Terminal())
  }

  ghost predicate Before(sessions: seq<OnboardingSession>, now: int) {
    forall s | s in sessions :: s.createdAt < now
  }

  ghost predicate HasDraft(sessions: seq<OnboardingSession>, account: string) {
    exists i :: 0 <= i < |sessions| && sessions[i].account == account && sessions[i].status == Draft
  }

  /** Every session belongs to the owner of its account. */
  ghost predicate OwnedSessions(sessions: seq<OnboardingSession>, accounts: map<string, Account>) {
    forall s | s in sessions :: s.account in accounts && accounts[s.account].owner == Some(s.subject)
  }

  /** Rows are only appended, and a row with a final status is never written again. */
  ghost predicate TerminalIsFinal(before: seq<OnboardingSession>, after: seq<OnboardingSession>) {
    && |before| <= |after|
    && forall i | 0 <= i < |before| ::
         && after[i].subject == before[i].subject && after[i].account == before[i].account
         && after[i].createdAt == before[i].createdAt
         && (before[i].status.Terminal() ==> after[i] == before[i])
  }

  ghost predicate SoleOwner(sessions: seq<OnboardingSession>, subject: string, account: string) {
    forall s | s in sessions && s.account == account :: s.subject == subject
  }

  /** With increasing times, the latest session of an account is the last one. */
  lemma LatestIsLast(sessions: seq<OnboardingSession>, subject: string, account: string)
    requires Orderly(sessions) && SoleOwner(sessions, subject, account)
    ensures var latest := Latest(sessions, subject, account);
            && (latest.None? ==> forall s | s in sessions :: s.account != account)
            && (latest.Some? ==> forall j | latest.value < j < |sessions| :: sessions[j].account != account)
  {
    var latest := Latest(sessions, subject, account);
    if latest.Some? {
      forall j | latest.value < j < |sessions| ensures sessions[j].account != account {
        if sessions[j].account == account {
          assert sessions[j] in sessions;
          assert BelongsTo(sessions[j], subject, account);
        }
      }
    } else {
      forall s | s in sessions ensures s.account != account {
        assert !BelongsTo(s, subject, account);
      }
    }
  }

  lemma OpenedIsOrderly(sessions: seq<OnboardingSession>, subject: string, account: string, now: int)
    requires Orderly(sessions) && SoleOwner(sessions, subject, account) && Before(sessions, now)
    ensures var after := Opened(sessions, subject, account, now);
            && Orderly(after) && SoleOwner(after, subject, account) && Before(after, now + 1)
            && TerminalIsFinal(sessions, after)
            && HasDraft(after, account)
            && (forall other | HasDraft(sessions, other) :: HasDraft(after, other))
  {
    var after := Opened(sessions, subject, account, now);
    var latest := Latest(sessions, subject, account);
    LatestIsLast(sessions, subject, account);
    if latest.None? || sessions[latest.value].status.Terminal() {
      assert after[|sessions|].account == account && after[|sessions|].status == Draft;
      forall i | 0 <= i < |sessions| && sessions[i].account == account ensures sessions[i].status.Terminal() {
        assert sessions[i] in sessions;
        if latest.Some? && i != latest.value {
          assert i < latest.value;
        }
      }
      forall other | HasDraft(sessions, other) ensures HasDraft(after, other) {
        var i :| 0 <= i < |sessions| && sessions[i].account == other && sessions[i].status == Draft;
        assert after[i] == sessions[i];
      }
    }
  }

  lemma DraftIsLatest(sessions: seq<OnboardingSession>, subject: string, account: string, d: nat)
    requires Orderly(sessions) && SoleOwner(sessions, subject, account)
    requires d < |sessions| && sessions[d].account == account && sessions[d].status == Draft
    ensures Latest(sessions, subject, account) == Some(d)
  {
    LatestIsLast(sessions, subject, account);
    assert sessions[d] in sessions;
  }

  lemma ClosingKeepsOrder(sessions: seq<OnboardingSession>, account: string, d: nat, status: SessionStatus)
    requires Orderly(sessions) && d < |sessions| && sessions[d].account == account && sessions[d].status == Draft
    requires status.Terminal()
    ensures var after := sessions[d := sessions[d].(status := status)];
            Orderly(after) && TerminalIsFinal(sessions, after) && !HasDraft(after, account)
  {
    var after := sessions[d := sessions[d].(status := status)];
    forall i | 0 <= i < |after| && after[i].account == account ensures after[i].status.Terminal() {
      assert i != d ==> after[i] == sessions[i];
    }
  }

  lemma ClosingKeepsOthers(sessions: seq<OnboardingSession>, account: string, d: nat, status: SessionStatus, now: int)
    requires d < |sessions| && sessions[d].account == account && Before(sessions, now)
    ensures var after := sessions[d := sessions[d].(status := status)];
            Before(after, now) && forall other | other != account && HasDraft(sessions, other) :: HasDraft(after, other)
  {
    var after := sessions[d := sessions[d].(status := status)];
    forall other | other != account && HasDraft(sessions, other) ensures HasDraft(after, other) {
      var i :| 0 <= i < |sessions| && sessions[i].account == other && sessions[i].status == Draft;
      assert after[i] == sessions[i];
    }
    forall s | s in after ensures s.createdAt < now {
      var i :| 0 <= i < |after| && after[i] == s;
      assert sessions[i] in sessions;
    }
  }

  lemma ClosedIsOrderly(sessions: seq<OnboardingSession>, subject: string, account: string, status: SessionStatus,
                        now: int)
    requires Orderly(sessions) && SoleOwner(sessions, subject, account) && Before(sessions, now)
    requires HasDraft(sessions, account) && status.Terminal()
    ensures var after := Closed(sessions, subject, account, status);
            && Orderly(after) && Before(after, now)
            && TerminalIsFinal(sessions, after)
            && !HasDraft(after, account)
            && (forall other | other != account && HasDraft(sessions, other) :: HasDraft(after, other))
  {
    var d :| 0 <= d < |sessions| && sessions[d].account == account && sessions[d].status == Draft;
    DraftIsLatest(sessions, subject, account, d);
    ClosingKeepsOrder(sessions, account, d, status);
    ClosingKeepsOthers(sessions, account, d, status, now);
  }

  // ---------------------------------------------------------------- the run invariant

  /** An account in progress has an open draft; with `Orderly` that draft is its only one and its newest session. */
  ghost predicate DraftsCover(db: Db) {
    forall id | id in db.accounts && db.accounts[id].onboarding == InProgress :: HasDraft(db.sessions, id)
  }

  ghost predicate SessionsKept(db: Db, now: int) {
    && SYS_CASH !in db.accounts
    && Orderly(db.sessions) && Before(db.sessions, now) && OwnedSessions(db.sessions, db.accounts) && DraftsCover(db)
  }

  /** What a committed onboarding request does to status and sessions. */
  ghost predicate StatusStep(db: Db, after: Db, req: Request, target: string)
    requires IsOnboarding(req.call) && target in after.accounts
  {
    var opened' := Opened(db.sessions, req.call.subject, target, req.now);
    var status := after.accounts[target].onboarding;
    match req.call
    case Start(_, _, _) => status == InProgress && after.sessions == opened'
    case Attach(_, _, _, _) =>
      && (status == InProgress || (target in db.accounts && status == db.accounts[target].onboarding && status.Ready()))
      && after.sessions == opened'
    case Skip(_, _, _) =>
      status == Skipped && after.sessions == Closed(opened', req.call.subject, target, SkippedSession)
    case Complete(_, _, _, _) =>
      status == Completed && after.sessions == Closed(opened', req.call.subject, target, ApprovedDemo)
    case OpenAdditional(_, _) =>
      && target !in db.accounts && status == InProgress
      && after.sessions == db.sessions + [OnboardingSession(req.call.subject, target, Draft, req.now)]
  }

  lemma OnboardingStatus(db: Db, cfg: Settings, req: Request)
    requires IsOnboarding(req.call) && Proper(req.call) && SYS_CASH !in db.accounts
    requires CallEffect(db, cfg, req).Success?
    ensures var after := CallEffect(db, cfg, req).value;
            var target := Target(db, cfg, req.call, req.now);
            target in after.accounts && StatusStep(db, after, req, target)
  {
    OnboardingShape(db, cfg, req);
    var now := req.now;
    if !req.call.OpenAdditional? {
      PreparedShape(db, cfg, req.call.subject, req.call.id, req.call.draw, now);
      var middle := Prepared(db, cfg, req.call.subject, req.call.id, req.call.draw, now);
      if req.call.Skip? {
        FinishedShape(db, cfg, req.call.subject, req.call.id, req.call.draw,
                      if req.call.subject in middle.holders then None else Some(Holder(None)), SKIP, now);
      } else if req.call.Complete? {
        FinishedShape(db, cfg, req.call.subject, req.call.id, req.call.draw,
                      Some(Holder(Some(ValidateForm(req.call.form).value))), COMPLETION, now);
      }
    }
  }

  /** The part of a status step that concerns the session table alone. */
  ghost predicate SessionStep(before: seq<OnboardingSession>, after: seq<OnboardingSession>, target: string, now: int) {
    && Orderly(after) && Before(after, now + 1) && TerminalIsFinal(before, after)
    && (forall id | id != target && HasDraft(before, id) :: HasDraft(after, id))
  }

  lemma AppendedSessions(sessions: seq<OnboardingSession>, subject: string, target: string, now: int)
    requires forall s | s in sessions :: s.account != target
    ensures Opened(sessions, subject, target, now) == sessions + [OnboardingSession(subject, target, Draft, now)]
  {
    forall i | 0 <= i < |sessions| ensures !BelongsTo(sessions[i], subject, target) {
      assert sessions[i] in sessions;
    }
  }

  /** The only session a status step can add is one of the target's. */
  lemma NewSessionsAreTheTargets(sessions: seq<OnboardingSession>, subject: string, target: string, now: int,
                                 status: SessionStatus, i: nat)
    ensures var after := Opened(sessions, subject, target, now);
            |sessions| <= i < |after| ==> after[i].account == target && after[i].subject == subject
    ensures var after := Closed(Opened(sessions, subject, target, now), subject, target, status);
            |sessions| <= i < |after| ==> after[i].account == target && after[i].subject == subject
  {
  }

  /** What opening a session, and then perhaps closing it, does to the session table. */
  lemma OpenedStep(sessions: seq<OnboardingSession>, subject: string, target: string, now: int)
    requires Orderly(sessions) && Before(sessions, now) && SoleOwner(sessions, subject, target)
    ensures SessionStep(sessions, Opened(sessions, subject, target, now), target, now)
    ensures HasDraft(Opened(sessions, subject, target, now), target)
  {
    hide Orderly, Before, SoleOwner, HasDraft, TerminalIsFinal, Opened;
    OpenedIsOrderly(sessions, subject, target, now);
  }

  lemma ClosedStep(sessions: seq<OnboardingSession>, subject: string, target: string, now: int, status: SessionStatus)
    requires Orderly(sessions) && Before(sessions, now) && SoleOwner(sessions, subject, target) && status.Terminal()
    ensures SessionStep(sessions, Closed(Opened(sessions, subject, target, now), subject, target, status), target, now)
  {
    hide Orderly, Before, SoleOwner, HasDraft, TerminalIsFinal, Opened, Closed;
    var middle := Opened(sessions, subject, target, now);
    OpenedIsOrderly(sessions, subject, target, now);
    ClosedIsOrderly(middle, subject, target, status, now + 1);
    FinalComposes(sessions, middle, Closed(middle, subject, target, status));
  }

  lemma StatusStepSessions(db: Db, after: Db, req: Request, target: string)
    requires IsOnboarding(req.call) && target in after.accounts && StatusStep(db, after, req, target)
    requires Orderly(db.sessions) && Before(db.sessions, req.now)
    requires SoleOwner(db.sessions, req.call.subject, target)
    requires req.call.OpenAdditional? ==> forall s | s in db.sessions :: s.account != target
    ensures SessionStep(db.sessions, after.sessions, target, req.now)
    ensures after.accounts[target].onboarding == InProgress ==> HasDraft(after.sessions, target)
    ensures forall i | |db.sessions| <= i < |after.sessions| ::
              after.sessions[i].account == target && after.sessions[i].subject == req.call.subject
  {
    hide Orderly, Before, SoleOwner, HasDraft, SessionStep, Opened, Closed;
    var subject := req.call.subject;
    var status := if req.call.Skip? then SkippedSession else ApprovedDemo;
    if req.call.Skip? || req.call.Complete? {
      ClosedStep(db.sessions, subject, target, req.now, status);
    } else {
      OpenedStep(db.sessions, subject, target, req.now);
      if req.call.OpenAdditional? {
        AppendedSessions(db.sessions, subject, target, req.now);
      }
    }
    forall i | |db.sessions| <= i < |after.sessions|
      ensures after.sessions[i].account == target && after.sessions[i].subject == subject
    {
      NewSessionsAreTheTargets(db.sessions, subject, target, req.now, status, i);
    }
  }

  lemma FinalComposes(a: seq<OnboardingSession>, b: seq<OnboardingSession>, c: seq<OnboardingSession>)
    requires TerminalIsFinal(a, b) && TerminalIsFinal(b, c)
    ensures TerminalIsFinal(a, c)
  {
    forall i | 0 <= i < |a|
      ensures c[i].subject == a[i].subject && c[i].account == a[i].account && c[i].createdAt == a[i].createdAt
      ensures a[i].status.Terminal() ==> c[i] == a[i]
    {
      assert b[i].account == a[i].account;
    }
  }

  lemma OnboardingKeepsSessions(db: Db, after: Db, cfg: Settings, req: Request, target: string, granted: bool)
    requires IsOnboarding(req.call) && SessionsKept(db, req.now) && SYS_CASH !in after.accounts
    requires OnboardingStep(db, after, cfg, req.call.subject, target, granted, req.now)
    requires StatusStep(db, after, req, target)
    ensures SessionsKept(after, req.now + 1) && TerminalIsFinal(db.sessions, after.sessions)
  {
    var subject := req.call.subject;
    forall s | s in db.sessions && s.account == target ensures s.subject == subject {
      assert db.accounts[target].owner == Some(s.subject);
    }
    StatusStepSessions(db, after, req, target);
    ForeignDrafts(db, after, target, req.now);
    SessionsFollowOwners(db, after, subject, target);
  }

  /** Accounts other than the target keep both their status and their draft. */
  lemma ForeignDrafts(db: Db, after: Db, target: string, now: int)
    requires SessionsKept(db, now) && target in after.accounts
    requires after.accounts.Keys == db.accounts.Keys + {target}
    requires forall id | id in db.accounts && id != target :: after.accounts[id] == db.accounts[id]
    requires forall id | id != target && HasDraft(db.sessions, id) :: HasDraft(after.sessions, id)
    requires after.accounts[target].onboarding == InProgress ==> HasDraft(after.sessions, target)
    ensures DraftsCover(after)
  {
  }

  lemma SessionsFollowOwners(db: Db, after: Db, subject: string, target: string)
    requires OwnedSessions(db.sessions, db.accounts) && TerminalIsFinal(db.sessions, after.sessions)
    requires target in after.accounts && after.accounts[target].owner == Some(subject)
    requires forall id | id in db.accounts ::
               id in after.accounts && after.accounts[id].owner == db.accounts[id].owner
    requires forall i | |db.sessions| <= i < |after.sessions| ::
               after.sessions[i].account == target && after.sessions[i].subject == subject
    ensures OwnedSessions(after.sessions, after.accounts)
  {
    forall s | s in after.sessions
      ensures s.account in after.accounts && after.accounts[s.account].owner == Some(s.subject)
    {
      var i :| 0 <= i < |after.sessions| && after.sessions[i] == s;
      if i < |db.sessions| {
        assert db.sessions[i] in db.sessions;
      }
    }
  }

  /** Nothing but balances changes on existing rows; a new row is unowned and has not started onboarding. */
  ghost predicate MoneyOnly(db: Db, after: Db) {
    && after.sessions == db.sessions
    && (forall id | id in db.accounts ::
          id in after.accounts && after.accounts[id] == db.accounts[id].(balance := after.accounts[id].balance))
    && (forall id | id in after.accounts && id !in db.accounts ::
          after.accounts[id].onboarding == NotStarted && after.accounts[id].owner.None?
          && after.accounts[id].number.None?)
  }

  lemma SendIsMoneyOnly(db: Db, after: Db, origin: string, target: string, cents: int, key: Option<string>, now: int)
    requires origin in db.accounts && target in db.accounts && HasText(key)
    requires SendStep(db, after, origin, target, cents, key, now)
    ensures MoneyOnly(db, after) && after.accounts.Keys == db.accounts.Keys
  {
    assert after.accounts.Keys == db.accounts.Keys;
  }

  lemma TransferIsMoneyOnly(db: Db, cfg: Settings, req: Request)
    requires req.call.Transfer? && SYS_CASH !in db.accounts && CallEffect(db, cfg, req).Success?
    ensures MoneyOnly(db, CallEffect(db, cfg, req).value)
    ensures CallEffect(db, cfg, req).value.accounts.Keys == db.accounts.Keys
  {
    hide CallEffect, SendStep, MoneyOnly;
    TransferCallShape(db, cfg, req);
    var call := req.call;
    var (origin, target) := Transfers.Parties(db, call.subject, call.source, call.destination).value;
    SendIsMoneyOnly(db, CallEffect(db, cfg, req).value, origin, target, Money.ParsePositiveMoney(call.amount).value,
                    call.key, req.now);
  }

  lemma WithdrawIsMoneyOnly(db: Db, cfg: Settings, req: Request)
    requires req.call.Withdraw? && SYS_CASH !in db.accounts && CallEffect(db, cfg, req).Success?
    ensures MoneyOnly(db, CallEffect(db, cfg, req).value)
    ensures CallEffect(db, cfg, req).value.accounts.Keys == db.accounts.Keys
  {
    hide CallEffect;
    WithdrawCallShape(db, cfg, req);
    var after := CallEffect(db, cfg, req).value;
    assert after.sessions == db.sessions && after.accounts.Keys == db.accounts.Keys;
  }

  lemma RecordedIsMoneyOnly(db: Db, middle: Db, id: string, amount: int, kind: Kind, counterparty: Option<string>,
                            now: int)
    requires MoneyOnly(db, middle) && id in middle.accounts
    ensures MoneyOnly(db, AccountRepository.Recorded(middle, id, amount, kind, counterparty, now))
  {
  }

  lemma LegacyIsMoneyOnly(db: Db, cfg: Settings, req: Request)
    requires req.call.Legacy() && CallEffect(db, cfg, req).Success?
    ensures MoneyOnly(db, CallEffect(db, cfg, req).value)
  {
    match req.call {
      case LegacyDeposit(target, units) =>
        var ensured := AccountRepository.Ensured(db, target, req.now);
        assert MoneyOnly(db, ensured);
        RecordedIsMoneyOnly(db, ensured, target, 100 * units, Deposit, None, req.now);
      case LegacyWithdraw(origin, units) =>
        assert MoneyOnly(db, db);
        RecordedIsMoneyOnly(db, db, origin, -100 * units, Withdrawal, None, req.now);
      case LegacyTransfer(origin, target, units) =>
        var ensured := AccountRepository.Ensured(db, target, req.now);
        assert MoneyOnly(db, ensured);
        var debited := AccountRepository.Recorded(ensured, origin, -100 * units, TransferOut, Some(target), req.now);
        RecordedIsMoneyOnly(db, ensured, origin, -100 * units, TransferOut, Some(target), req.now);
        RecordedIsMoneyOnly(db, debited, target, 100 * units, TransferIn, Some(origin), req.now);
    }
  }

  /** Money movements and legacy routes touch no session, no owner and no status. */
  lemma OthersKeepSessions(db: Db, cfg: Settings, req: Request)
    requires !IsOnboarding(req.call) && SYS_CASH !in db.accounts
    ensures MoneyOnly(db, Apply(db, cfg, req))
    ensures !req.call.Legacy() ==> Apply(db, cfg, req).accounts.Keys == db.accounts.Keys
  {
    if CallEffect(db, cfg, req).Success? {
      if req.call.Transfer? {
        TransferIsMoneyOnly(db, cfg, req);
      } else if req.call.Withdraw? {
        WithdrawIsMoneyOnly(db, cfg, req);
      } else {
        LegacyIsMoneyOnly(db, cfg, req);
      }
    }
  }

  lemma StepKeepsSessions(db: Db, cfg: Settings, req: Request)
    requires SessionsKept(db, req.now) && Proper(req.call)
    ensures SessionsKept(Apply(db, cfg, req), req.now + 1)
    ensures TerminalIsFinal(db.sessions, Apply(db, cfg, req).sessions)
  {
    var after := Apply(db, cfg, req);
    if IsOnboarding(req.call) && CallEffect(db, cfg, req).Success? {
      var target := Target(db, cfg, req.call, req.now);
      OnboardingShape(db, cfg, req);
      OnboardingStatus(db, cfg, req);
      TargetIsProper(db, cfg, req);
      OnboardingKeepsSessions(db, after, cfg, req, target, |after.journals| > |db.journals|);
    } else if !IsOnboarding(req.call) {
      OthersKeepSessions(db, cfg, req);
      NoNewCash(db, cfg, req);
    }
  }

  lemma TargetIsProper(db: Db, cfg: Settings, req: Request)
    requires IsOnboarding(req.call) && Proper(req.call) && SYS_CASH !in db.accounts
    requires CallEffect(db, cfg, req).Success?
    ensures Target(db, cfg, req.call, req.now) != SYS_CASH
  {
    if !req.call.OpenAdditional? {
      PreparedShape(db, cfg, req.call.subject, req.call.id, req.call.draw, req.now);
    }
  }

  lemma NoNewCash(db: Db, cfg: Settings, req: Request)
    requires !IsOnboarding(req.call) && Proper(req.call) && SYS_CASH !in db.accounts
    ensures SYS_CASH !in Apply(db, cfg, req).accounts
  {
    OthersKeepSessions(db, cfg, req);
  }

  /** Transactions start one after the other. */
  ghost predicate Timed(reqs: seq<Request>) {
    forall i, j | 0 <= i < j < |reqs| :: reqs[i].now < reqs[j].now
  }

  /** Over every timed run: at most one draft per account, always its newest session; in-progress accounts have one. */
  lemma {:induction false} RunKeepsSessions(cfg: Settings, reqs: seq<Request>, now: int)
    requires AllProper(reqs) && Timed(reqs) && forall req | req in reqs :: req.now < now
    ensures SessionsKept(Run(EMPTY, cfg, reqs), now)
  {
    if reqs == [] {
    } else {
      var front, last := reqs[..|reqs| - 1], reqs[|reqs| - 1];
      forall req | req in front ensures req.now < last.now {
        var i :| 0 <= i < |front| && front[i] == req;
        assert reqs[i] == req;
      }
      RunKeepsSessions(cfg, front, last.now);
      StepKeepsSessions(Run(EMPTY, cfg, front), cfg, last);
    }
  }

  /** Terminal sessions stay as they are for the rest of the run. */
  lemma {:induction false} TerminalSessionsAreFinal(cfg: Settings, reqs: seq<Request>, cut: nat)
    requires AllProper(reqs) && Timed(reqs) && cut <= |reqs|
    ensures TerminalIsFinal(Run(EMPTY, cfg, reqs[..cut]).sessions, Run(EMPTY, cfg, reqs).sessions)
  {
    if cut == |reqs| {
      assert reqs[..cut] == reqs;
    } else {
      hide Apply, SessionsKept, TerminalIsFinal;
      var front, last := reqs[..|reqs| - 1], reqs[|reqs| - 1];
      TerminalSessionsAreFinal(cfg, front, cut);
      assert front[..cut] == reqs[..cut];
      forall req | req in front ensures req.now < last.now {
        var i :| 0 <= i < |front| && front[i] == req;
        assert reqs[i] == req;
      }
      RunKeepsSessions(cfg, front, last.now);
      StepKeepsSessions(Run(EMPTY, cfg, front), cfg, last);
      FinalComposes(Run(EMPTY, cfg, reqs[..cut]).sessions, Run(EMPTY, cfg, front).sessions,
                    Run(EMPTY, cfg, reqs).sessions);
    }
  }

  /** Spelled out: an in-progress account has exactly one draft session, and no session of it is newer. */
  lemma InProgressHasExactlyOneDraft(cfg: Settings, reqs: seq<Request>, now: int, id: string)
    requires AllProper(reqs) && Timed(reqs) && forall req | req in reqs :: req.now < now
    requires id in Run(EMPTY, cfg, reqs).accounts && Run(EMPTY, cfg, reqs).accounts[id].onboarding == InProgress
    ensures var sessions := Run(EMPTY, cfg, reqs).sessions;
            exists d :: 0 <= d < |sessions| && sessions[d].account == id && sessions[d].status == Draft
              && forall i | 0 <= i < |sessions| && sessions[i].account == id && i != d ::
                   sessions[i].status.Terminal() && sessions[i].createdAt < sessions[d].createdAt
  {
    RunKeepsSessions(cfg, reqs, now);
    var sessions := Run(EMPTY, cfg, reqs).sessions;
    assert HasDraft(sessions, id);
    var d :| 0 <= d < |sessions| && sessions[d].account == id && sessions[d].status == Draft;
    forall i | 0 <= i < |sessions| && sessions[i].account == id && i != d
      ensures sessions[i].status.Terminal() && sessions[i].createdAt < sessions[d].createdAt
    {
      assert i < d || d < i;
    }
  }

  // ---------------------------------------------------------------- freeze

  /** No transfer or withdrawal touches an owned account whose onboarding is open. */
  lemma FrozenWhileOnboarding(db: Db, cfg: Settings, req: Request, id: string)
    requires SYS_CASH !in db.accounts && (req.call.Transfer? || req.call.Withdraw?)
    requires id in db.accounts && db.accounts[id].owner.Some? && !db.accounts[id].onboarding.Ready()
    ensures id in Apply(db, cfg, req).accounts && Apply(db, cfg, req).accounts[id] == db.accounts[id]
  {
    if CallEffect(db, cfg, req).Success? {
      if req.call.Transfer? {
        TransferCallShape(db, cfg, req);
      } else {
        WithdrawCallShape(db, cfg, req);
      }
    }
  }

  /** Starting onboarding freezes its own account and nothing else: no other row and no balance changes. */
  lemma StartIsLocal(db: Db, cfg: Settings, req: Request)
    requires req.call.Start? && Proper(req.call) && SYS_CASH !in db.accounts
    requires CallEffect(db, cfg, req).Success?
    ensures var after := CallEffect(db, cfg, req).value;
            var target := Target(db, cfg, req.call, req.now);
            && target in after.accounts && after.accounts[target].onboarding == InProgress
            && (forall id | id in db.accounts && id != target ::
                  id in after.accounts && after.accounts[id] == db.accounts[id])
            && (forall id | id in db.accounts :: after.accounts[id].balance == db.accounts[id].balance)
            && after.txns == db.txns && after.journals == db.journals
  {
    OnboardingShape(db, cfg, req);
    PreparedShape(db, cfg, req.call.subject, req.call.id, req.call.draw, req.now);
  }
}
