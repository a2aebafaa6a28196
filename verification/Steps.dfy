/** The shape of every committed request: which rows it adds, whose balance and status it changes. */
module Steps {
  import opened Prelude
  import opened Tables
  import opened OnboardingAccounts
  import opened OnboardingSessions
  import opened Onboarding
  import opened LedgerLaws
  import opened Bank
  import Ledger
  import Money
  import Transfers

  /** Ids drawn for new accounts and ids named by legacy callers are never the internal cash account. */
  predicate Proper(call: Call) {
    match call
    case Start(_, _, draw) => draw.id != SYS_CASH && draw.digit < 10
    case Attach(_, _, _, draw) => draw.id != SYS_CASH && draw.digit < 10
    case Skip(_, _, draw) => draw.id != SYS_CASH && draw.digit < 10
    case Complete(_, _, _, draw) => draw.id != SYS_CASH && draw.digit < 10
    case OpenAdditional(_, draw) => draw.id != SYS_CASH && draw.digit < 10
    case Transfer(_, _, _, _, _) => true
    case Withdraw(_, _, _, _) => true
    case LegacyDeposit(target, _) => target != SYS_CASH
    case LegacyWithdraw(origin, _) => origin != SYS_CASH
    case LegacyTransfer(origin, target, _) => origin != SYS_CASH && target != SYS_CASH
  }

  function GrantRow(cfg: Settings, id: string, now: int): Txn {
    Txn(id, cfg.welcome, DemoGrant, None, Some(WelcomeKey(id)), now)
  }

  /** Everything about an account that onboarding never changes. */
  predicate SameHolding(a: Account, b: Account) {
    a.owner == b.owner && a.checking == b.checking && a.active == b.active && a.floor == b.floor
    && a.createdAt == b.createdAt
    && (a.number.Some? && a.digit.Some? ==> a.number == b.number && a.digit == b.digit)
  }

  function GrantCents(cfg: Settings, granted: bool): int {
    if granted then cfg.welcome else 0
  }

  /** A new account carries the next number and a check digit. */
  ghost predicate IsNewlyNumbered(db: Db, cfg: Settings, account: Account) {
    && account.number == Some(NextNumber(db.accounts, None, cfg.numberStart))
    && account.digit.Some? && account.digit.value < 10
  }

  /** An onboarding request touches one account of its subject, and moves at most one welcome grant to it. */
  ghost predicate OnboardingStep(db: Db, after: Db, cfg: Settings, subject: string, target: string, granted: bool,
                                 now: int)
  {
    && target in Owned(after.accounts, subject)
    && after.accounts.Keys == db.accounts.Keys + {target}
    && (forall id | id in db.accounts && id != target :: after.accounts[id] == db.accounts[id])
    && (if target in db.accounts
        then SameHolding(db.accounts[target], after.accounts[target])
             && after.accounts[target].balance == db.accounts[target].balance + GrantCents(cfg, granted)
        else after.accounts[target].active && after.accounts[target].floor == 0
             && after.accounts[target].balance == GrantCents(cfg, granted)
             && IsNewlyNumbered(db, cfg, after.accounts[target]))
    && after.txns == db.txns + (if granted then [GrantRow(cfg, target, now)] else [])
    && (granted ==> cfg.welcome > 0 && !Granted(db.txns, target))
    && after.journals == db.journals + (if granted then [Journal(WelcomeGrant, Some(WelcomeKey(target)))] else [])
  }

  predicate IsOnboarding(call: Call) {
    call.Start? || call.Attach? || call.Skip? || call.Complete? || call.OpenAdditional?
  }

  /** The account an onboarding request works on. */
  function Target(db: Db, cfg: Settings, call: Call, now: int): string
    requires IsOnboarding(call)
  {
    match call
    case OpenAdditional(_, draw) => draw.id
    case _ =>
      var resolved := ResolveEffect(db, cfg, call.subject, call.id, call.draw, now);
      if resolved.Success? then resolved.value.1 else call.draw.id
  }

  lemma ResolveShape(db: Db, cfg: Settings, subject: string, id: Option<string>, draw: Draw, now: int)
    requires ResolveEffect(db, cfg, subject, id, draw, now).Success?
    ensures var (resolved, target) := ResolveEffect(db, cfg, subject, id, draw, now).value;
            if target in db.accounts then resolved == db && target in Owned(db.accounts, subject)
            else
              && target == draw.id && Owned(db.accounts, subject) == {}
              && resolved == db.(accounts := db.accounts[target :=
                   DraftAccount(subject, NextNumber(db.accounts, None, cfg.numberStart), draw.digit, now)])
  {
  }

  lemma WelcomeShape(db: Db, cfg: Settings, id: string, now: int)
    requires Customer(db, id) && WelcomeEffect(db, cfg, id, now).Success?
    ensures var after := WelcomeEffect(db, cfg, id, now).value;
            && after.sessions == db.sessions && after.holders == db.holders
            && (if |after.journals| == |db.journals|
                then after.accounts == db.accounts && after.txns == db.txns && after.journals == db.journals
                     && after.postings == db.postings
                     && (after.ledgerAccounts == db.ledgerAccounts
                         || after.ledgerAccounts == db.ledgerAccounts + {SYS_CASH, id})
                     && (Granted(db.txns, id) || Ledger.KeyIndex(db.journals, WelcomeKey(id)).Some?)
                else after.accounts == Adjusted(db.accounts, id, cfg.welcome)
                     && after.txns == db.txns + [GrantRow(cfg, id, now)]
                     && after.journals == db.journals + [Journal(WelcomeGrant, Some(WelcomeKey(id)))]
                     && cfg.welcome > 0 && !Granted(db.txns, id)
                     && Ledger.WelcomeGrantEffect(db, id, cfg.welcome, Some(WelcomeKey(id)), now) == Success(after))
  {
    if !Granted(db.txns, id) {
      var key := Some(WelcomeKey(id));
      assert WelcomeKey(id)[0] == 'w';
      assert HasText(key);
      if Ledger.WelcomeGrantEffect(db, id, cfg.welcome, key, now).Success? {
        GrantShape(db, id, cfg.welcome, key, now);
      }
    }
  }

  lemma NumberedShape(db: Db, cfg: Settings, id: string, digit: nat)
    requires id in db.accounts
    ensures var after := Numbered(db, cfg, id, digit);
            && after == db.(accounts := db.accounts[id := after.accounts[id]])
            && SameHolding(db.accounts[id], after.accounts[id])
            && after.accounts[id].balance == db.accounts[id].balance
            && after.accounts[id].onboarding == db.accounts[id].onboarding
  {
    if db.accounts[id].number.Some? && db.accounts[id].digit.Some? {
      assert db.accounts == db.accounts[id := db.accounts[id]];
    }
  }

  /** The welcome step alone. */
  lemma CreditedShape(db: Db, cfg: Settings, subject: string, id: string, now: int)
    requires id in Owned(db.accounts, subject) && id != SYS_CASH
    requires WelcomeEffect(db, cfg, id, now).Success?
    ensures var after := WelcomeEffect(db, cfg, id, now).value;
            && OnboardingStep(db, after, cfg, subject, id, |after.journals| > |db.journals|, now)
            && after.sessions == db.sessions
  {
    WelcomeShape(db, cfg, id, now);
    WelcomeKeepsAccount(db, cfg, id, now);
    assert db.accounts.Keys + {id} == db.accounts.Keys;
    assert db.txns + [] == db.txns && db.journals + [] == db.journals;
  }

  /** Changing the target's number, holder, session or status around the welcome step keeps its shape. */
  lemma Wrapped(db: Db, inner: Db, credited: Db, after: Db, cfg: Settings, subject: string, id: string, granted: bool,
                now: int)
    requires id in db.accounts && id in inner.accounts
    requires inner.accounts == db.accounts[id := inner.accounts[id]]
    requires SameHolding(db.accounts[id], inner.accounts[id])
    requires inner.accounts[id].balance == db.accounts[id].balance
    requires inner.txns == db.txns && inner.journals == db.journals
    requires OnboardingStep(inner, credited, cfg, subject, id, granted, now)
    requires id in after.accounts && after.accounts == credited.accounts[id := after.accounts[id]]
    requires after.accounts[id] == credited.accounts[id].(onboarding := after.accounts[id].onboarding)
    requires after.txns == credited.txns && after.journals == credited.journals
    ensures OnboardingStep(db, after, cfg, subject, id, granted, now)
  {
    assert after.accounts.Keys == db.accounts.Keys + {id};
  }

  /** Finishing an account, seen from before the session was opened. */
  lemma FinishShape(db: Db, cfg: Settings, subject: string, id: string, holder: Option<Holder>, digit: nat,
                    outcome: Outcome, now: int)
    requires id in Owned(db.accounts, subject) && id != SYS_CASH
    requires FinishEffect(db, cfg, subject, id, holder, digit, outcome, now).Success?
    ensures var after := FinishEffect(db, cfg, subject, id, holder, digit, outcome, now).value;
            && OnboardingStep(db, after, cfg, subject, id, |after.journals| > |db.journals|, now)
            && after.accounts[id].onboarding == outcome.onboarding
            && after.sessions == Closed(db.sessions, subject, id, outcome.session)
  {
    var named := WithHolder(db, subject, holder);
    assert named.accounts == db.accounts && named.txns == db.txns && named.journals == db.journals
           && named.sessions == db.sessions;
    var numbered := Numbered(named, cfg, id, digit);
    NumberedShape(named, cfg, id, digit);
    CreditedShape(numbered, cfg, subject, id, now);
    var credited := WelcomeEffect(numbered, cfg, id, now).value;
    var closed := WithClosedSession(credited, subject, id, outcome.session);
    assert closed.accounts == credited.accounts && closed.txns == credited.txns && closed.journals == credited.journals;
    var after := WithStatus(closed, id, outcome.onboarding);
    Wrapped(db, numbered, credited, after, cfg, subject, id, |credited.journals| > |db.journals|, now);
  }

  /** Opening the account and its session first does not change the shape of what follows. */
  lemma StepAfterResolve(db: Db, middle: Db, after: Db, cfg: Settings, subject: string, target: string, granted: bool,
                         now: int)
    requires middle.accounts.Keys == db.accounts.Keys + {target} && target in middle.accounts
    requires forall id | id in db.accounts :: middle.accounts[id] == db.accounts[id]
    requires target !in db.accounts ==>
               middle.accounts[target].active && middle.accounts[target].floor == 0
               && middle.accounts[target].balance == 0 && IsNewlyNumbered(db, cfg, middle.accounts[target])
    requires middle.txns == db.txns && middle.journals == db.journals
    requires OnboardingStep(middle, after, cfg, subject, target, granted, now)
    ensures OnboardingStep(db, after, cfg, subject, target, granted, now)
  {
    assert middle.accounts.Keys + {target} == db.accounts.Keys + {target};
  }

  /** Resolving the account and opening its session, which every call but OpenAdditional does first. */
  function Prepared(db: Db, cfg: Settings, subject: string, id: Option<string>, draw: Draw, now: int): Db
    requires ResolveEffect(db, cfg, subject, id, draw, now).Success?
  {
    var (resolved, target) := ResolveEffect(db, cfg, subject, id, draw, now).value;
    WithSession(resolved, subject, target, now)
  }

  lemma PreparedShape(db: Db, cfg: Settings, subject: string, id: Option<string>, draw: Draw, now: int)
    requires SYS_CASH !in db.accounts && draw.id != SYS_CASH && draw.digit < 10
    requires ResolveEffect(db, cfg, subject, id, draw, now).Success?
    ensures var middle := Prepared(db, cfg, subject, id, draw, now);
            var target := ResolveEffect(db, cfg, subject, id, draw, now).value.1;
            && OnboardingStep(db, middle, cfg, subject, target, false, now)
            && target != SYS_CASH && SYS_CASH !in middle.accounts
            && (target in db.accounts ==> middle.accounts == db.accounts)
            && (target !in db.accounts ==> middle.accounts[target].onboarding == InProgress)
            && middle.txns == db.txns && middle.journals == db.journals
            && middle.postings == db.postings && middle.ledgerAccounts == db.ledgerAccounts
            && middle.holders == db.holders
            && middle.sessions == Opened(db.sessions, subject, target, now)
  {
    ResolveShape(db, cfg, subject, id, draw, now);
    var (resolved, target) := ResolveEffect(db, cfg, subject, id, draw, now).value;
    assert resolved.sessions == db.sessions;
    assert resolved.accounts.Keys == db.accounts.Keys + {target};
    assert db.txns + [] == db.txns && db.journals + [] == db.journals;
  }

  lemma StatusShape(db: Db, cfg: Settings, subject: string, id: Option<string>, draw: Draw, now: int,
                    status: Tables.Onboarding)
    requires SYS_CASH !in db.accounts && draw.id != SYS_CASH && draw.digit < 10
    requires ResolveEffect(db, cfg, subject, id, draw, now).Success?
    ensures var target := ResolveEffect(db, cfg, subject, id, draw, now).value.1;
            && target in Prepared(db, cfg, subject, id, draw, now).accounts
            && OnboardingStep(db, WithStatus(Prepared(db, cfg, subject, id, draw, now), target, status), cfg,
                              subject, target, false, now)
  {
    PreparedShape(db, cfg, subject, id, draw, now);
    var target := ResolveEffect(db, cfg, subject, id, draw, now).value.1;
    var middle := Prepared(db, cfg, subject, id, draw, now);
    assert WithStatus(middle, target, status).accounts.Keys == middle.accounts.Keys;
  }

  lemma FinishedShape(db: Db, cfg: Settings, subject: string, id: Option<string>, draw: Draw, holder: Option<Holder>,
                      outcome: Outcome, now: int)
    requires SYS_CASH !in db.accounts && draw.id != SYS_CASH && draw.digit < 10
    requires ResolveEffect(db, cfg, subject, id, draw, now).Success?
    requires var target := ResolveEffect(db, cfg, subject, id, draw, now).value.1;
             FinishEffect(Prepared(db, cfg, subject, id, draw, now), cfg, subject, target, holder, draw.digit,
                          outcome, now).Success?
    ensures var target := ResolveEffect(db, cfg, subject, id, draw, now).value.1;
            var middle := Prepared(db, cfg, subject, id, draw, now);
            var after := FinishEffect(middle, cfg, subject, target, holder, draw.digit, outcome, now).value;
            && OnboardingStep(db, after, cfg, subject, target, |after.journals| > |db.journals|, now)
            && after.accounts[target].onboarding == outcome.onboarding
            && after.sessions == Closed(middle.sessions, subject, target, outcome.session)
  {
    PreparedShape(db, cfg, subject, id, draw, now);
    var target := ResolveEffect(db, cfg, subject, id, draw, now).value.1;
    var middle := Prepared(db, cfg, subject, id, draw, now);
    FinishShape(middle, cfg, subject, target, holder, draw.digit, outcome, now);
    var after := FinishEffect(middle, cfg, subject, target, holder, draw.digit, outcome, now).value;
    StepAfterResolve(db, middle, after, cfg, subject, target, |after.journals| > |db.journals|, now);
  }

  lemma DraftShape(db: Db, cfg: Settings, subject: string, draw: Draw, now: int)
    requires OpenAdditionalEffect(db, cfg, subject, draw, now).Success? && draw.digit < 10
    ensures OnboardingStep(db, OpenAdditionalEffect(db, cfg, subject, draw, now).value, cfg, subject, draw.id, false,
                           now)
  {
    var after := OpenAdditionalEffect(db, cfg, subject, draw, now).value;
    assert after.accounts.Keys == db.accounts.Keys + {draw.id};
    assert db.txns + [] == db.txns && db.journals + [] == db.journals;
  }

  /** Every committed onboarding request has this shape. */
  lemma OnboardingShape(db: Db, cfg: Settings, req: Request)
    requires IsOnboarding(req.call) && Proper(req.call) && SYS_CASH !in db.accounts
    requires CallEffect(db, cfg, req).Success?
    ensures var after := CallEffect(db, cfg, req).value;
            OnboardingStep(db, after, cfg, req.call.subject, Target(db, cfg, req.call, req.now),
                           |after.journals| > |db.journals|, req.now)
  {
    hide OnboardingStep, FinishEffect, Opened, Closed;
    var now := req.now;
    match req.call {
      case OpenAdditional(subject, draw) => DraftShape(db, cfg, subject, draw, now);
      case Start(subject, id, draw) => StatusShape(db, cfg, subject, id, draw, now, InProgress);
      case Attach(subject, _, id, draw) =>
        PreparedShape(db, cfg, subject, id, draw, now);
        StatusShape(db, cfg, subject, id, draw, now, InProgress);
      case Skip(subject, id, draw) =>
        var middle := Prepared(db, cfg, subject, id, draw, now);
        FinishedShape(db, cfg, subject, id, draw, if subject in middle.holders then None else Some(Holder(None)), SKIP,
                      now);
      case Complete(subject, form, id, draw) =>
        FinishedShape(db, cfg, subject, id, draw, Some(Holder(Some(ValidateForm(form).value))), COMPLETION, now);
    }
  }

  // ---------------------------------------------------------------- money movements

  /** The ledger call inside a transfer either posts its two rows or, on a replayed key, moves nothing at all. */
  ghost predicate SendStep(db: Db, after: Db, origin: string, target: string, cents: int, key: Option<string>, now: int)
    requires origin in db.accounts && target in db.accounts && HasText(key)
  {
    if |after.journals| == |db.journals| then
      after == Transfers.BothLedgerAccounts(db, origin, target) && Ledger.KeyIndex(db.journals, key.value).Some?
    else
      && Ledger.TransferEffect(db, origin, target, cents, key, now) == Success(after)
      && db.accounts[origin].balance - cents >= db.accounts[origin].floor
      && Ledger.KeyIndex(db.journals, key.value).None?
      && after.accounts == Adjusted(Adjusted(db.accounts, origin, -cents), target, cents)
      && after.txns == db.txns + TransferRows(origin, target, cents, key, now)
      && after.journals == db.journals + [Journal(TransferEntry, key)]
      && after.sessions == db.sessions && after.holders == db.holders
  }

  lemma SendShape(db: Db, origin: string, target: string, cents: int, key: Option<string>, now: int)
    requires Customer(db, origin) && Customer(db, target) && origin != target && HasText(key)
    requires Transfers.SendEffect(db, origin, target, cents, key, now).Success?
    ensures SendStep(db, Transfers.SendEffect(db, origin, target, cents, key, now).value, origin, target, cents, key,
                     now)
  {
    if Ledger.TransferEffect(db, origin, target, cents, key, now).Success? {
      TransferShape(db, origin, target, cents, key, now);
    }
  }

  lemma TransferCallShape(db: Db, cfg: Settings, req: Request)
    requires req.call.Transfer? && SYS_CASH !in db.accounts
    requires CallEffect(db, cfg, req).Success?
    ensures var call := req.call;
            var parties := Transfers.Parties(db, call.subject, call.source, call.destination);
            var parsed := Money.ParsePositiveMoney(call.amount);
            && HasText(call.key) && parties.Success? && parsed.Success?
            && 0 < parsed.value <= cfg.maxTransfer
            && SendStep(db, CallEffect(db, cfg, req).value, parties.value.0, parties.value.1, parsed.value, call.key,
                        req.now)
  {
    var call := req.call;
    var (origin, target) := Transfers.Parties(db, call.subject, call.source, call.destination).value;
    var cents := Money.ParsePositiveMoney(call.amount).value;
    assert CallEffect(db, cfg, req) == Transfers.SendEffect(db, origin, target, cents, call.key, req.now);
    SendShape(db, origin, target, cents, call.key, req.now);
  }

  /** A committed withdrawal posts one row; there is no committed replay. */
  lemma WithdrawCallShape(db: Db, cfg: Settings, req: Request)
    requires req.call.Withdraw? && SYS_CASH !in db.accounts
    requires CallEffect(db, cfg, req).Success?
    ensures var call := req.call;
            var after := CallEffect(db, cfg, req).value;
            var origin := Transfers.Origin(db, call.subject, None);
            var parsed := Money.ParsePositiveMoney(call.amount);
            var key := Transfers.WithdrawKey(call.subject, call.requestId, call.key);
            && origin.Success? && parsed.Success? && key != ""
            && var cents := parsed.value;
            && 0 < cents <= cfg.maxWithdraw
            && Ledger.WithdrawEffect(db, origin.value, cents, Some(key), req.now) == Success(after)
            && db.accounts[origin.value].balance - cents >= db.accounts[origin.value].floor
            && Ledger.KeyIndex(db.journals, key).None?
            && after.accounts == Adjusted(db.accounts, origin.value, -cents)
            && after.txns == db.txns + [Txn(origin.value, -cents, Withdrawal, None, Some(key), req.now)]
            && after.journals == db.journals + [Journal(WithdrawEntry, Some(key))]
            && after.sessions == db.sessions && after.holders == db.holders
  {
    hide Money.ParsePositiveMoney, Ledger.PostEffect, Ledger.KeyIndex, Transfers.WithdrawKey, Primary;
    var call := req.call;
    var origin := Transfers.Origin(db, call.subject, None).value;
    var cents := Money.ParsePositiveMoney(call.amount).value;
    var key := Transfers.WithdrawKey(call.subject, call.requestId, call.key);
    WithdrawKeyIsText(call.subject, call.requestId, call.key);
    WithdrawShape(db, origin, cents, Some(key), req.now);
    FreshKeyPosted(db, origin, cents, key, req.now);
  }

  lemma FreshKeyPosted(db: Db, id: string, cents: int, key: string, now: int)
    requires id in db.accounts && key != "" && Ledger.WithdrawEffect(db, id, cents, Some(key), now).Success?
    ensures Ledger.KeyIndex(db.journals, key).None?
  {
    hide Ledger.MirrorLines, Ledger.KeyIndex;
  }

  lemma WithdrawKeyIsText(subject: string, requestId: Option<string>, key: Option<string>)
    ensures Transfers.WithdrawKey(subject, requestId, key) != ""
    ensures !HasText(key) ==> !(WELCOME_PREFIX <= Transfers.WithdrawKey(subject, requestId, key))
  {
    if !HasText(key) {
      var text := "withdraw:" + subject + ":" + Transfers.RequestText(requestId);
      assert text[1] == 'i' && WELCOME_PREFIX[1] == 'e';
    }
  }
}
