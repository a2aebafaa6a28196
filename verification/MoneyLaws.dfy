/** What every run of the bank keeps about money. */
module MoneyLaws {
  import opened Prelude
  import opened Tables
  import opened OnboardingAccounts
  import opened OnboardingSessions
  import opened Onboarding
  import opened LedgerLaws
  import opened Bank
  import opened Steps
  import opened AccountRepository
  import Ledger
  import Money
  import Transfers
  import AccountService

  /** Agreement, double entry, unique keys, foreign keys; and no customer account shadows the cash account. */
  ghost predicate Safe(db: Db) {
    Sound(db) && SYS_CASH !in db.accounts
  }

  ghost predicate SameMoney(db: Db, after: Db) {
    && after.txns == db.txns && after.journals == db.journals && after.postings == db.postings
    && after.ledgerAccounts == db.ledgerAccounts && after.accounts.Keys == db.accounts.Keys
    && forall id | id in db.accounts :: after.accounts[id].balance == db.accounts[id].balance
  }

  lemma SameMoneyIsSafe(db: Db, after: Db)
    requires Safe(db) && SameMoney(db, after)
    ensures Safe(after)
  {
  }

  lemma LedgerAccountIsSafe(db: Db, id: string)
    requires Safe(db) && id in db.accounts
    ensures Safe(Ledger.WithLedgerAccount(db, id))
  {
  }

  lemma WelcomeIsSafe(db: Db, cfg: Settings, id: string, now: int)
    requires Safe(db) && id in db.accounts && WelcomeEffect(db, cfg, id, now).Success?
    ensures Safe(WelcomeEffect(db, cfg, id, now).value)
  {
    WelcomeShape(db, cfg, id, now);
    LedgerAccountIsSafe(db, id);
    var lines := [Line(SYS_CASH, Debit, cfg.welcome), Line(id, Credit, cfg.welcome)];
    var p := Ledger.Posted(WelcomeGrant, lines, Some(WelcomeKey(id)), true, now);
    if !Granted(db.txns, id) && Ledger.PostEffect(Ledger.WithLedgerAccount(db, id), p).Success? {
      PostKeepsSound(Ledger.WithLedgerAccount(db, id), p);
    }
  }

  lemma NumberedIsSafe(db: Db, cfg: Settings, subject: string, holder: Option<Holder>, id: string, digit: nat)
    requires Safe(db) && id in db.accounts
    ensures Safe(Numbered(WithHolder(db, subject, holder), cfg, id, digit))
  {
    NumberedShape(WithHolder(db, subject, holder), cfg, id, digit);
    SameMoneyIsSafe(db, Numbered(WithHolder(db, subject, holder), cfg, id, digit));
  }

  lemma StatusIsSafe(db: Db, id: string, status: Tables.Onboarding)
    requires Safe(db) && id in db.accounts
    ensures Safe(WithStatus(db, id, status))
  {
    SameMoneyIsSafe(db, WithStatus(db, id, status));
  }

  lemma ClosedIsSafe(db: Db, subject: string, id: string, status: SessionStatus)
    requires Safe(db)
    ensures Safe(WithClosedSession(db, subject, id, status))
  {
    SameMoneyIsSafe(db, WithClosedSession(db, subject, id, status));
  }

  lemma FinishIsSafe(db: Db, cfg: Settings, subject: string, id: string, holder: Option<Holder>, digit: nat,
                     outcome: Outcome, now: int)
    requires Safe(db) && id in db.accounts
    requires FinishEffect(db, cfg, subject, id, holder, digit, outcome, now).Success?
    ensures Safe(FinishEffect(db, cfg, subject, id, holder, digit, outcome, now).value)
  {
    var numbered := Numbered(WithHolder(db, subject, holder), cfg, id, digit);
    NumberedIsSafe(db, cfg, subject, holder, id, digit);
    WelcomeIsSafe(numbered, cfg, id, now);
    WelcomeKeepsAccount(numbered, cfg, id, now);
    var credited := WelcomeEffect(numbered, cfg, id, now).value;
    ClosedIsSafe(credited, subject, id, outcome.session);
    StatusIsSafe(WithClosedSession(credited, subject, id, outcome.session), id, outcome.onboarding);
  }

  lemma DraftIsSafe(db: Db, cfg: Settings, subject: string, draw: Draw, now: int)
    requires Safe(db) && draw.id != SYS_CASH && DraftEffect(db, cfg, subject, draw, now).Success?
    ensures Safe(DraftEffect(db, cfg, subject, draw, now).value)
  {
    NewAccountKeepsSound(db, draw.id,
                         DraftAccount(subject, NextNumber(db.accounts, None, cfg.numberStart), draw.digit, now));
  }

  lemma PreparedIsSafe(db: Db, cfg: Settings, subject: string, id: Option<string>, draw: Draw, now: int)
    requires Safe(db) && draw.id != SYS_CASH && ResolveEffect(db, cfg, subject, id, draw, now).Success?
    ensures Safe(Prepared(db, cfg, subject, id, draw, now))
  {
    var (resolved, target) := ResolveEffect(db, cfg, subject, id, draw, now).value;
    ResolveShape(db, cfg, subject, id, draw, now);
    if target !in db.accounts {
      DraftIsSafe(db, cfg, subject, draw, now);
    }
    SameMoneyIsSafe(resolved, Prepared(db, cfg, subject, id, draw, now));
  }

  lemma OpenedIsSafe(db: Db, cfg: Settings, subject: string, draw: Draw, now: int)
    requires Safe(db) && draw.id != SYS_CASH && OpenAdditionalEffect(db, cfg, subject, draw, now).Success?
    ensures Safe(OpenAdditionalEffect(db, cfg, subject, draw, now).value)
  {
    DraftIsSafe(db, cfg, subject, draw, now);
    SameMoneyIsSafe(DraftEffect(db, cfg, subject, draw, now).value,
                    OpenAdditionalEffect(db, cfg, subject, draw, now).value);
  }

  lemma OnboardingIsSafe(db: Db, cfg: Settings, req: Request)
    requires Safe(db) && Proper(req.call) && IsOnboarding(req.call) && CallEffect(db, cfg, req).Success?
    ensures Safe(CallEffect(db, cfg, req).value)
  {
    if req.call.OpenAdditional? {
      OpenedIsSafe(db, cfg, req.call.subject, req.call.draw, req.now);
    } else {
      var target := ResolveEffect(db, cfg, req.call.subject, req.call.id, req.call.draw, req.now).value.1;
      var middle := Prepared(db, cfg, req.call.subject, req.call.id, req.call.draw, req.now);
      PreparedIsSafe(db, cfg, req.call.subject, req.call.id, req.call.draw, req.now);
      PreparedShape(db, cfg, req.call.subject, req.call.id, req.call.draw, req.now);
      match req.call {
        case Start(subject, id, draw) =>
          StatusIsSafe(middle, target, InProgress);
        case Attach(subject, _, id, draw) =>
          StatusIsSafe(middle, target, InProgress);
        case Skip(subject, id, draw) =>
          FinishIsSafe(middle, cfg, subject, target, if subject in middle.holders then None else Some(Holder(None)),
                       draw.digit, SKIP, req.now);
        case Complete(subject, form, id, draw) =>
          FinishIsSafe(middle, cfg, subject, target, Some(Holder(Some(ValidateForm(form).value))), draw.digit,
                       COMPLETION, req.now);
        case _ =>
      }
    }
  }

  lemma TransferIsSafe(db: Db, cfg: Settings, req: Request)
    requires Safe(db) && req.call.Transfer? && CallEffect(db, cfg, req).Success?
    ensures Safe(CallEffect(db, cfg, req).value)
  {
    TransferCallShape(db, cfg, req);
    var call := req.call;
    var (origin, target) := Transfers.Parties(db, call.subject, call.source, call.destination).value;
    var cents := Money.ParsePositiveMoney(call.amount).value;
    LedgerAccountIsSafe(db, origin);
    LedgerAccountIsSafe(Ledger.WithLedgerAccount(db, origin), target);
    var p := Ledger.Posted(TransferEntry, Ledger.TransferLines(origin, target, cents), call.key, true, req.now);
    var ensured := Transfers.BothLedgerAccounts(db, origin, target);
    if Ledger.PostEffect(ensured, p).Success? {
      PostKeepsSound(ensured, p);
    }
  }

  lemma WithdrawIsSafe(db: Db, cfg: Settings, req: Request)
    requires Safe(db) && req.call.Withdraw? && CallEffect(db, cfg, req).Success?
    ensures Safe(CallEffect(db, cfg, req).value)
  {
    WithdrawCallShape(db, cfg, req);
    var call := req.call;
    var origin := Transfers.Origin(db, call.subject, None).value;
    var cents := Money.ParsePositiveMoney(call.amount).value;
    var key := Transfers.WithdrawKey(call.subject, call.requestId, call.key);
    LedgerAccountIsSafe(db, origin);
    var lines := [Line(origin, Debit, cents), Line(SYS_CASH, Credit, cents)];
    PostKeepsSound(Ledger.WithLedgerAccount(db, origin), Ledger.Posted(WithdrawEntry, lines, Some(key), true, req.now));
  }

  lemma EnsuredIsSafe(db: Db, id: string, now: int)
    requires Safe(db) && id != SYS_CASH
    ensures Safe(Ensured(db, id, now))
  {
    if id !in db.accounts {
      NewAccountKeepsSound(db, id, BareAccount(now));
    }
  }

  lemma LegacyIsSafe(db: Db, cfg: Settings, req: Request)
    requires Safe(db) && Proper(req.call) && req.call.Legacy() && CallEffect(db, cfg, req).Success?
    ensures Safe(CallEffect(db, cfg, req).value)
  {
    hide Sound;
    match req.call {
      case LegacyDeposit(target, units) =>
        EnsuredIsSafe(db, target, req.now);
        RecordKeepsSound(Ensured(db, target, req.now), target, 100 * units, Tables.Deposit, None, req.now);
      case LegacyWithdraw(origin, units) =>
        RecordKeepsSound(db, origin, -100 * units, Withdrawal, None, req.now);
      case LegacyTransfer(origin, target, units) =>
        var ensured := Ensured(db, target, req.now);
        EnsuredIsSafe(db, target, req.now);
        RecordKeepsSound(ensured, origin, -100 * units, TransferOut, Some(target), req.now);
        RecordKeepsSound(Recorded(ensured, origin, -100 * units, TransferOut, Some(target), req.now), target,
                         100 * units, TransferIn, Some(origin), req.now);
    }
  }

  lemma StepIsSafe(db: Db, cfg: Settings, req: Request)
    requires Safe(db) && Proper(req.call)
    ensures Safe(Apply(db, cfg, req))
  {
    if CallEffect(db, cfg, req).Success? {
      if IsOnboarding(req.call) {
        OnboardingIsSafe(db, cfg, req);
      } else if req.call.Transfer? {
        TransferIsSafe(db, cfg, req);
      } else if req.call.Withdraw? {
        WithdrawIsSafe(db, cfg, req);
      } else {
        LegacyIsSafe(db, cfg, req);
      }
    }
  }

  ghost predicate AllProper(reqs: seq<Request>) {
    forall req | req in reqs :: Proper(req.call)
  }

  /** Over every run mixing all routes: the three balances agree, every journal balances, no key is used twice. */
  lemma {:induction false} RunIsSafe(cfg: Settings, reqs: seq<Request>)
    requires AllProper(reqs)
    ensures Safe(Run(EMPTY, cfg, reqs))
  {
    if reqs == [] {
    } else {
      RunIsSafe(cfg, reqs[..|reqs| - 1]);
      StepIsSafe(Run(EMPTY, cfg, reqs[..|reqs| - 1]), cfg, reqs[|reqs| - 1]);
    }
  }

  /** Three-way agreement, spelled out for one account of one run. */
  lemma BalancesAgree(cfg: Settings, reqs: seq<Request>, id: string)
    requires AllProper(reqs) && id in Run(EMPTY, cfg, reqs).accounts
    ensures var db := Run(EMPTY, cfg, reqs);
            && db.accounts[id].balance == Sum(db.txns, OfAccount(id))
            && db.accounts[id].balance == Ledger.CustomerBalance(db.postings, id) + Sum(db.txns, LegacyOf(id))
  {
    RunIsSafe(cfg, reqs);
  }

  // ---------------------------------------------------------------- the rows a request adds

  /** Out row and in row of one transfer, next to each other and naming each other. */
  predicate IsPair(outRow: Txn, inRow: Txn) {
    && outRow.kind == TransferOut && inRow.kind == TransferIn
    && outRow.amount == -inRow.amount && inRow.amount > 0
    && outRow.counterparty == Some(inRow.account) && inRow.counterparty == Some(outRow.account)
    && outRow.key == inRow.key && outRow.createdAt == inRow.createdAt
  }

  predicate IsSingle(t: Txn) {
    match t.kind
    case DemoGrant => t.amount > 0 && t.key.Some?
    case Withdrawal => t.amount < 0
    case Deposit => t.amount > 0 && t.key.None?
    case _ => false
  }

  predicate RowShape(rows: seq<Txn>) {
    || rows == []
    || (|rows| == 1 && IsSingle(rows[0]))
    || (|rows| == 2 && IsPair(rows[0], rows[1]))
  }

  function RowsAdded(db: Db, after: Db): seq<Txn>
    requires |db.txns| <= |after.txns|
  {
    after.txns[|db.txns|..]
  }

  lemma OnboardingRows(db: Db, cfg: Settings, req: Request)
    requires SYS_CASH !in db.accounts && Proper(req.call) && IsOnboarding(req.call)
    requires CallEffect(db, cfg, req).Success?
    ensures var after := CallEffect(db, cfg, req).value;
            && db.txns <= after.txns
            && RowShape(RowsAdded(db, after))
            && (forall t | t in RowsAdded(db, after) :: t.kind == DemoGrant && t.createdAt == req.now)
  {
    OnboardingShape(db, cfg, req);
    var after := CallEffect(db, cfg, req).value;
    var target := Target(db, cfg, req.call, req.now);
    assert RowsAdded(db, after) == if |after.journals| > |db.journals| then [GrantRow(cfg, target, req.now)] else [];
  }

  lemma TransferAddsRows(db: Db, cfg: Settings, req: Request)
    requires SYS_CASH !in db.accounts && req.call.Transfer?
    requires CallEffect(db, cfg, req).Success?
    ensures var after := CallEffect(db, cfg, req).value;
            && db.txns <= after.txns
            && RowShape(RowsAdded(db, after))
            && (forall t | t in RowsAdded(db, after) :: t.kind != DemoGrant && t.createdAt == req.now)
  {
    TransferCallShape(db, cfg, req);
    var call := req.call;
    var (origin, target) := Transfers.Parties(db, call.subject, call.source, call.destination).value;
    var cents := Money.ParsePositiveMoney(call.amount).value;
    var after := CallEffect(db, cfg, req).value;
    assert |after.journals| != |db.journals| ==>
             RowsAdded(db, after) == TransferRows(origin, target, cents, call.key, req.now);
  }

  lemma WithdrawAddsRow(db: Db, cfg: Settings, req: Request)
    requires SYS_CASH !in db.accounts && req.call.Withdraw?
    requires CallEffect(db, cfg, req).Success?
    ensures var after := CallEffect(db, cfg, req).value;
            && db.txns <= after.txns
            && RowShape(RowsAdded(db, after))
            && (forall t | t in RowsAdded(db, after) :: t.kind != DemoGrant && t.createdAt == req.now)
  {
    WithdrawCallShape(db, cfg, req);
    var after := CallEffect(db, cfg, req).value;
    assert |RowsAdded(db, after)| == 1;
  }

  /** Every request appends nothing, one single row, or one matched pair. */
  lemma StepRows(db: Db, cfg: Settings, req: Request)
    requires SYS_CASH !in db.accounts && Proper(req.call)
    ensures var after := Apply(db, cfg, req);
            && db.txns <= after.txns
            && RowShape(RowsAdded(db, after))
            && (IsOnboarding(req.call) ==> forall t | t in RowsAdded(db, after) :: t.kind == DemoGrant)
            && (!IsOnboarding(req.call) ==> forall t | t in RowsAdded(db, after) :: t.kind != DemoGrant)
            && (forall t | t in RowsAdded(db, after) :: t.createdAt == req.now)
  {
    if CallEffect(db, cfg, req).Success? {
      if IsOnboarding(req.call) {
        OnboardingRows(db, cfg, req);
      } else if req.call.Transfer? {
        TransferAddsRows(db, cfg, req);
      } else if req.call.Withdraw? {
        WithdrawAddsRow(db, cfg, req);
      } else {
        LegacyRows(db, cfg, req);
      }
    }
  }

  lemma LegacyRows(db: Db, cfg: Settings, req: Request)
    requires req.call.Legacy() && CallEffect(db, cfg, req).Success?
    ensures var after := CallEffect(db, cfg, req).value;
            && db.txns <= after.txns
            && RowShape(RowsAdded(db, after))
            && (forall t | t in RowsAdded(db, after) :: t.kind != DemoGrant && t.createdAt == req.now)
  {
    match req.call {
      case LegacyDeposit(target, units) =>
      case LegacyWithdraw(origin, units) =>
      case LegacyTransfer(origin, target, units) =>
        var after := CallEffect(db, cfg, req).value;
        assert after.txns == db.txns + TransferRows(origin, target, 100 * units, None, req.now);
    }
  }

  // ---------------------------------------------------------------- paired transfer rows

  predicate MatchedAt(txns: seq<Txn>, i: nat)
    requires i < |txns|
  {
    && (txns[i].kind == TransferOut ==> i + 1 < |txns| && IsPair(txns[i], txns[i + 1]))
    && (txns[i].kind == TransferIn ==> i > 0 && IsPair(txns[i - 1], txns[i]))
  }

  /** Each out row is followed by its in row, and each in row preceded by its out row. */
  ghost predicate Paired(txns: seq<Txn>) {
    forall i: nat | i < |txns| :: MatchedAt(txns, i)
  }

  function OutRows(from: string, to: string, amount: int): Txn -> int {
    (t: Txn) =>
      if t.kind == TransferOut && t.account == from && t.counterparty == Some(to) && t.amount == -amount then 1 else 0
  }

  function InRows(from: string, to: string, amount: int): Txn -> int {
    (t: Txn) =>
      if t.kind == TransferIn && t.account == to && t.counterparty == Some(from) && t.amount == amount then 1 else 0
  }

  lemma ShapedRowsSum(txns: seq<Txn>, rows: seq<Txn>, measure: Txn -> int)
    requires |rows| <= 2
    ensures Sum(txns + rows, measure)
         == Sum(txns, measure) + (if |rows| > 0 then measure(rows[0]) else 0)
            + (if |rows| > 1 then measure(rows[1]) else 0)
  {
    if |rows| == 0 {
      assert txns + rows == txns;
    } else if |rows| == 1 {
      assert rows == [rows[0]];
      SumAppend(txns, rows[0], measure);
    } else {
      assert txns + rows == txns + [rows[0]] + [rows[1]];
      SumAppend(txns, rows[0], measure);
      SumAppend(txns + [rows[0]], rows[1], measure);
    }
  }

  lemma RowsKeepBalance(txns: seq<Txn>, rows: seq<Txn>, from: string, to: string, amount: int)
    requires RowShape(rows) && Sum(txns, OutRows(from, to, amount)) == Sum(txns, InRows(from, to, amount))
    ensures Sum(txns + rows, OutRows(from, to, amount)) == Sum(txns + rows, InRows(from, to, amount))
  {
    ShapedRowsSum(txns, rows, OutRows(from, to, amount));
    ShapedRowsSum(txns, rows, InRows(from, to, amount));
  }

  /** Over every run, transfers appear as matched pairs: as many out rows from a to b of an amount as in rows. */
  lemma {:induction false} RunPairsTransfers(cfg: Settings, reqs: seq<Request>, from: string, to: string, amount: int)
    requires AllProper(reqs)
    ensures var txns := Run(EMPTY, cfg, reqs).txns;
            Paired(txns) && Sum(txns, OutRows(from, to, amount)) == Sum(txns, InRows(from, to, amount))
  {
    if reqs == [] {
    } else {
      hide Apply, Sound, Paired, RowShape;
      var db := Run(EMPTY, cfg, reqs[..|reqs| - 1]);
      RunPairsTransfers(cfg, reqs[..|reqs| - 1], from, to, amount);
      RunIsSafe(cfg, reqs[..|reqs| - 1]);
      StepRows(db, cfg, reqs[|reqs| - 1]);
      var rows := RowsAdded(db, Run(EMPTY, cfg, reqs));
      assert Run(EMPTY, cfg, reqs).txns == db.txns + rows;
      RowsKeepBalance(db.txns, rows, from, to, amount);
      PairedExtends(db.txns, rows);
    }
  }

  lemma PairedExtends(txns: seq<Txn>, rows: seq<Txn>)
    requires Paired(txns) && RowShape(rows)
    ensures Paired(txns + rows)
  {
    var all := txns + rows;
    forall i: nat | i < |all| ensures MatchedAt(all, i) {
      if i < |txns| {
        assert MatchedAt(txns, i);
        assert all[i] == txns[i];
        assert i + 1 < |txns| ==> all[i + 1] == txns[i + 1];
        assert i > 0 ==> all[i - 1] == txns[i - 1];
      } else if i == |txns| {
        assert all[i] == rows[0];
        assert |rows| == 2 ==> all[i + 1] == rows[1];
      } else {
        assert all[i] == rows[1] && all[i - 1] == rows[0];
      }
    }
  }

  // ---------------------------------------------------------------- conservation

  function GrantAmount(t: Txn): int {
    if t.kind == DemoGrant then t.amount else 0
  }

  function DepositAmount(t: Txn): int {
    if t.kind == Deposit then t.amount else 0
  }

  /** Withdrawals are negative rows; the posted ones carry a key. */
  function WithdrawnAmount(t: Txn): int {
    if t.kind == Withdrawal then -t.amount else 0
  }

  function PostedWithdrawnAmount(t: Txn): int {
    if t.kind == Withdrawal && t.key.Some? then -t.amount else 0
  }

  function KeyedAmount(t: Txn): int {
    if t.key.Some? then t.amount else 0
  }

  function UnkeyedAmount(t: Txn): int {
    if t.key.None? then t.amount else 0
  }

  ghost predicate AllFlows(txns: seq<Txn>) {
    Sum(txns, AmountOf) == Sum(txns, GrantAmount) + Sum(txns, DepositAmount) - Sum(txns, WithdrawnAmount)
  }

  ghost predicate KeyedFlows(txns: seq<Txn>) {
    Sum(txns, KeyedAmount) == Sum(txns, GrantAmount) - Sum(txns, PostedWithdrawnAmount)
  }

  lemma RowsKeepAllFlows(txns: seq<Txn>, rows: seq<Txn>)
    requires RowShape(rows) && AllFlows(txns)
    ensures AllFlows(txns + rows)
  {
    ShapedRowsSum(txns, rows, AmountOf);
    ShapedRowsSum(txns, rows, GrantAmount);
    ShapedRowsSum(txns, rows, DepositAmount);
    ShapedRowsSum(txns, rows, WithdrawnAmount);
  }

  lemma RowsKeepKeyedFlows(txns: seq<Txn>, rows: seq<Txn>)
    requires RowShape(rows) && KeyedFlows(txns)
    ensures KeyedFlows(txns + rows)
  {
    ShapedRowsSum(txns, rows, KeyedAmount);
    ShapedRowsSum(txns, rows, GrantAmount);
    ShapedRowsSum(txns, rows, PostedWithdrawnAmount);
  }

  lemma {:induction false} RunFlows(cfg: Settings, reqs: seq<Request>)
    requires AllProper(reqs)
    ensures AllFlows(Run(EMPTY, cfg, reqs).txns) && KeyedFlows(Run(EMPTY, cfg, reqs).txns)
  {
    if reqs == [] {
    } else {
      hide Apply, Sound, RowShape, AllFlows, KeyedFlows;
      var db := Run(EMPTY, cfg, reqs[..|reqs| - 1]);
      RunFlows(cfg, reqs[..|reqs| - 1]);
      RunIsSafe(cfg, reqs[..|reqs| - 1]);
      StepRows(db, cfg, reqs[|reqs| - 1]);
      var rows := RowsAdded(db, Run(EMPTY, cfg, reqs));
      assert Run(EMPTY, cfg, reqs).txns == db.txns + rows;
      RowsKeepAllFlows(db.txns, rows);
      RowsKeepKeyedFlows(db.txns, rows);
    }
  }

  /** Nobody's money appears or disappears: totals are grants and deposits less withdrawals, on cache and ledger. */
  lemma RunConservesMoney(cfg: Settings, reqs: seq<Request>)
    requires AllProper(reqs)
    ensures var db := Run(EMPTY, cfg, reqs);
            && TotalCached(db)
               == Sum(db.txns, GrantAmount) + Sum(db.txns, DepositAmount) - Sum(db.txns, WithdrawnAmount)
            && SetSum(db.accounts.Keys, LedgerBalance(db))
               == Sum(db.txns, GrantAmount) - Sum(db.txns, PostedWithdrawnAmount)
            && SetSum(db.ledgerAccounts - {SYS_CASH}, LedgerBalance(db))
               == -Ledger.CustomerBalance(db.postings, SYS_CASH)
  {
    var db := Run(EMPTY, cfg, reqs);
    RunIsSafe(cfg, reqs);
    RunFlows(cfg, reqs);
    TotalIsLog(db);
    LedgerSumsToZero(db, db.ledgerAccounts - {SYS_CASH});
    LedgerTotalIsKeyed(db);
  }

  /** Ledger balances add up to the keyed part of the log. */
  lemma LedgerTotalIsKeyed(db: Db)
    requires Safe(db)
    ensures SetSum(db.accounts.Keys, LedgerBalance(db)) == Sum(db.txns, KeyedAmount)
  {
    hide SetSum, Sum;
    var ids := db.accounts.Keys;
    forall t | t in db.txns ensures SetSum(ids, PerItem(LegacyOf, t)) == UnkeyedAmount(t) {
      SetSumOfOne(ids, t.account, PerItem(LegacyOf, t));
    }
    SumsExchange(ids, db.txns, LegacyOf, UnkeyedAmount);
    SetSumSplits(ids, BalanceIn(db.accounts), LedgerBalance(db), TableTotal(db.txns, LegacyOf));
    TotalIsLog(db);
    SumSplits(db.txns, AmountOf, KeyedAmount, UnkeyedAmount);
  }

  // ---------------------------------------------------------------- transfers conserve the cached total

  lemma AdjustedTotal(db: Db, after: Db, id: string, delta: int)
    requires id in db.accounts && after.accounts == Adjusted(db.accounts, id, delta)
    ensures TotalCached(after) == TotalCached(db) + delta
  {
    var ids := db.accounts.Keys;
    assert after.accounts.Keys == ids;
    SetSumTakes(ids, id, BalanceIn(db.accounts));
    SetSumTakes(ids, id, BalanceIn(after.accounts));
    SetSumAgrees(ids - {id}, BalanceIn(db.accounts), BalanceIn(after.accounts));
  }

  /** The cash account has no cached balance: a transfer to it only debits. */
  lemma CashTransferDebits(db: Db, origin: string, cents: int, key: Option<string>, now: int)
    requires Customer(db, origin) && Ledger.TransferEffect(db, origin, SYS_CASH, cents, key, now).Success?
    ensures Ledger.TransferEffect(db, origin, SYS_CASH, cents, key, now).value.accounts
         == Adjusted(db.accounts, origin, -cents)
    ensures cents > 0
  {
    hide Ledger.KeyIndex, Sum;
    var lines := Ledger.TransferLines(origin, SYS_CASH, cents);
    var p := Ledger.Posted(TransferEntry, lines, key, true, now);
    var book := Ledger.Book(db.accounts, db.txns);
    assert Ledger.ValidLine(lines[0]);
    var one := Ledger.MirrorLine(book, p, lines[0]);
    assert Ledger.MirrorLines(book, p, 1) == one by { assert Ledger.MirrorLines(book, p, 0) == book; }
    assert Ledger.MirrorLines(book, p, 2) == one;
  }

  /** A posted transfer keeps the total of all cached balances exactly when its target is not the cash account. */
  lemma TransferConservesUnlessCash(db: Db, origin: string, target: string, cents: int, key: Option<string>, now: int)
    requires Customer(db, origin) && target in db.accounts && origin != target
    requires Ledger.TransferEffect(db, origin, target, cents, key, now).Success?
    ensures var after := Ledger.TransferEffect(db, origin, target, cents, key, now).value;
            TotalCached(after) == TotalCached(db) <==> target != SYS_CASH
  {
    hide Ledger.TransferEffect, TotalCached;
    var after := Ledger.TransferEffect(db, origin, target, cents, key, now).value;
    if target != SYS_CASH {
      var debited := db.(accounts := Adjusted(db.accounts, origin, -cents));
      TransferShape(db, origin, target, cents, key, now);
      AdjustedTotal(db, debited, origin, -cents);
      AdjustedTotal(debited, after, target, cents);
    } else {
      CashTransferDebits(db, origin, cents, key, now);
      AdjustedTotal(db, after, origin, -cents);
    }
  }

  /** The legacy transfer conserves the total too, to itself and to a new account included. */
  lemma LegacyTransferConserves(db: Db, origin: string, target: string, units: int, now: int)
    requires AccountService.TransferEffect(db, origin, target, units, now).Success?
    ensures TotalCached(AccountService.TransferEffect(db, origin, target, units, now).value) == TotalCached(db)
  {
    var ensured := Ensured(db, target, now);
    if target !in db.accounts {
      var ids := ensured.accounts.Keys;
      SetSumTakes(ids, target, BalanceIn(ensured.accounts));
      assert ids - {target} == db.accounts.Keys;
      SetSumAgrees(db.accounts.Keys, BalanceIn(db.accounts), BalanceIn(ensured.accounts));
    }
    var debited := Recorded(ensured, origin, -100 * units, TransferOut, Some(target), now);
    AdjustedTotal(ensured, debited, origin, -100 * units);
    AdjustedTotal(debited, Recorded(debited, target, 100 * units, TransferIn, Some(origin), now), target, 100 * units);
  }

  // ---------------------------------------------------------------- floors

  ghost predicate ZeroFloors(db: Db) {
    forall id | id in db.accounts :: db.accounts[id].floor == 0
  }

  ghost predicate AtLeast(db: Db, bound: int) {
    forall id | id in db.accounts :: db.accounts[id].balance >= bound
  }

  ghost predicate WholeUnits(db: Db) {
    forall id | id in db.accounts :: db.accounts[id].balance % 100 == 0
  }

  /** Amounts that keep every balance a whole number of units. */
  predicate WholeCall(call: Call) {
    (call.Transfer? || call.Withdraw?) ==>
      var parsed := Money.ParsePositiveMoney(call.amount);
      parsed.Success? ==> parsed.value % 100 == 0
  }

  lemma AdjustedFloors(db: Db, after: Db, id: string, delta: int, bound: int)
    requires id in db.accounts && after.accounts == Adjusted(db.accounts, id, delta)
    requires ZeroFloors(db) && AtLeast(db, bound)
    requires db.accounts[id].balance + delta >= bound
    ensures ZeroFloors(after) && AtLeast(after, bound)
    ensures WholeUnits(db) && delta % 100 == 0 ==> WholeUnits(after)
  {
    assert WholeUnits(db) && delta % 100 == 0 ==> (db.accounts[id].balance + delta) % 100 == 0;
  }

  lemma SendFloors(db: Db, after: Db, origin: string, target: string, cents: int, key: Option<string>, now: int,
                   bound: int)
    requires ZeroFloors(db) && AtLeast(db, bound) && bound <= 0 && cents > 0
    requires origin in db.accounts && target in db.accounts && origin != target && HasText(key)
    requires SendStep(db, after, origin, target, cents, key, now)
    ensures ZeroFloors(after) && AtLeast(after, bound)
    ensures WholeUnits(db) && cents % 100 == 0 ==> WholeUnits(after)
  {
    hide Ledger.TransferEffect, Ledger.KeyIndex;
    if |after.journals| != |db.journals| {
      var debited := db.(accounts := Adjusted(db.accounts, origin, -cents));
      AdjustedFloors(db, debited, origin, -cents, bound);
      AdjustedFloors(debited, after, target, cents, bound);
    }
  }

  /** What the step does to the balances alone. */
  lemma StepBalances(db: Db, after: Db, cfg: Settings, subject: string, target: string, granted: bool, now: int)
    requires OnboardingStep(db, after, cfg, subject, target, granted, now)
    ensures target in after.accounts && forall id | id in after.accounts && id != target :: id in db.accounts
    ensures forall id | id in db.accounts && id != target ::
              id in after.accounts && after.accounts[id] == db.accounts[id]
    ensures after.accounts[target].balance
         == (if target in db.accounts then db.accounts[target].balance else 0) + GrantCents(cfg, granted)
    ensures after.accounts[target].floor == if target in db.accounts then db.accounts[target].floor else 0
    ensures granted ==> cfg.welcome > 0
  {
    hide Granted, IsNewlyNumbered, GrantRow;
  }

  lemma OnboardingStepFloors(db: Db, after: Db, cfg: Settings, subject: string, target: string, granted: bool,
                             now: int, bound: int)
    requires OnboardingStep(db, after, cfg, subject, target, granted, now)
    requires ZeroFloors(db) && AtLeast(db, bound) && bound <= 0
    ensures ZeroFloors(after) && AtLeast(after, bound)
    ensures WholeUnits(db) && cfg.welcome % 100 == 0 ==> WholeUnits(after)
  {
    hide OnboardingStep;
    StepBalances(db, after, cfg, subject, target, granted, now);
  }

  lemma OnboardingFloors(db: Db, cfg: Settings, req: Request, bound: int)
    requires SYS_CASH !in db.accounts && Proper(req.call) && IsOnboarding(req.call)
    requires CallEffect(db, cfg, req).Success?
    requires ZeroFloors(db) && AtLeast(db, bound) && bound <= 0
    ensures ZeroFloors(CallEffect(db, cfg, req).value) && AtLeast(CallEffect(db, cfg, req).value, bound)
    ensures WholeUnits(db) && cfg.welcome % 100 == 0 ==> WholeUnits(CallEffect(db, cfg, req).value)
  {
    OnboardingShape(db, cfg, req);
    var after := CallEffect(db, cfg, req).value;
    OnboardingStepFloors(db, after, cfg, req.call.subject, Target(db, cfg, req.call, req.now),
                         |after.journals| > |db.journals|, req.now, bound);
  }

  lemma TransferFloors(db: Db, cfg: Settings, req: Request, bound: int)
    requires SYS_CASH !in db.accounts && req.call.Transfer? && CallEffect(db, cfg, req).Success?
    requires ZeroFloors(db) && AtLeast(db, bound) && bound <= 0
    ensures ZeroFloors(CallEffect(db, cfg, req).value) && AtLeast(CallEffect(db, cfg, req).value, bound)
    ensures WholeUnits(db) && WholeCall(req.call) ==> WholeUnits(CallEffect(db, cfg, req).value)
  {
    TransferCallShape(db, cfg, req);
    var (origin, target) := Transfers.Parties(db, req.call.subject, req.call.source, req.call.destination).value;
    SendFloors(db, CallEffect(db, cfg, req).value, origin, target, Money.ParsePositiveMoney(req.call.amount).value,
               req.call.key, req.now, bound);
  }

  lemma DebitedFloors(db: Db, after: Db, id: string, cents: int, bound: int)
    requires id in db.accounts && after.accounts == Adjusted(db.accounts, id, -cents)
    requires ZeroFloors(db) && AtLeast(db, bound) && bound <= 0
    requires db.accounts[id].balance - cents >= db.accounts[id].floor
    ensures ZeroFloors(after) && AtLeast(after, bound)
    ensures WholeUnits(db) && cents % 100 == 0 ==> WholeUnits(after)
  {
    AdjustedFloors(db, after, id, -cents, bound);
  }

  lemma WithdrawFloors(db: Db, cfg: Settings, req: Request, bound: int)
    requires SYS_CASH !in db.accounts && req.call.Withdraw? && CallEffect(db, cfg, req).Success?
    requires ZeroFloors(db) && AtLeast(db, bound) && bound <= 0
    ensures ZeroFloors(CallEffect(db, cfg, req).value) && AtLeast(CallEffect(db, cfg, req).value, bound)
    ensures WholeUnits(db) && WholeCall(req.call) ==> WholeUnits(CallEffect(db, cfg, req).value)
  {
    WithdrawCallShape(db, cfg, req);
    DebitedFloors(db, CallEffect(db, cfg, req).value, Transfers.Origin(db, req.call.subject, None).value,
                  Money.ParsePositiveMoney(req.call.amount).value, bound);
  }

  /** Ledger routes never take a balance below zero, nor push a legacy overdraft further down. */
  lemma BankStepFloors(db: Db, cfg: Settings, req: Request, bound: int)
    requires SYS_CASH !in db.accounts && Proper(req.call) && !req.call.Legacy()
    requires ZeroFloors(db) && AtLeast(db, bound) && bound <= 0
    ensures ZeroFloors(Apply(db, cfg, req)) && AtLeast(Apply(db, cfg, req), bound)
    ensures WholeUnits(db) && WholeCall(req.call) && cfg.welcome % 100 == 0 ==> WholeUnits(Apply(db, cfg, req))
  {
    if CallEffect(db, cfg, req).Success? {
      if IsOnboarding(req.call) {
        OnboardingFloors(db, cfg, req, bound);
      } else if req.call.Transfer? {
        TransferFloors(db, cfg, req, bound);
      } else {
        WithdrawFloors(db, cfg, req, bound);
      }
    }
  }

  ghost predicate LegacyBound(db: Db, bound: int) {
    bound == -100099 || (bound == -100000 && WholeUnits(db))
  }

  lemma LegacyDebitFloors(db: Db, origin: string, units: int, kind: Kind, counterparty: Option<string>, now: int,
                          bound: int)
    requires ZeroFloors(db) && AtLeast(db, bound) && LegacyBound(db, bound)
    requires origin in db.accounts && AccountService.WithinLimit(db.accounts[origin].balance, units)
    ensures var after := Recorded(db, origin, -100 * units, kind, counterparty, now);
            ZeroFloors(after) && AtLeast(after, bound) && LegacyBound(after, bound)
            && (WholeUnits(db) ==> WholeUnits(after))
  {
    AccountService.AcceptedDebitFloor(db.accounts[origin].balance, units);
    AdjustedFloors(db, Recorded(db, origin, -100 * units, kind, counterparty, now), origin, -100 * units, bound);
  }

  lemma LegacyCreditFloors(db: Db, target: string, units: int, kind: Kind, counterparty: Option<string>, now: int,
                           bound: int)
    requires ZeroFloors(db) && AtLeast(db, bound) && LegacyBound(db, bound)
    requires target in db.accounts && units > 0
    ensures var after := Recorded(db, target, 100 * units, kind, counterparty, now);
            ZeroFloors(after) && AtLeast(after, bound) && (WholeUnits(db) ==> WholeUnits(after))
  {
    AdjustedFloors(db, Recorded(db, target, 100 * units, kind, counterparty, now), target, 100 * units, bound);
  }

  lemma EnsuredFloors(db: Db, id: string, now: int, bound: int)
    requires ZeroFloors(db) && AtLeast(db, bound) && LegacyBound(db, bound)
    ensures ZeroFloors(Ensured(db, id, now)) && AtLeast(Ensured(db, id, now), bound)
    ensures LegacyBound(Ensured(db, id, now), bound)
    ensures WholeUnits(db) ==> WholeUnits(Ensured(db, id, now))
  {
  }

  /** A legacy debit keeps the truncated limit; whole balances keep the documented one. */
  lemma LegacyStepFloors(db: Db, cfg: Settings, req: Request, bound: int)
    requires req.call.Legacy() && ZeroFloors(db) && AtLeast(db, bound) && LegacyBound(db, bound)
    ensures ZeroFloors(Apply(db, cfg, req)) && AtLeast(Apply(db, cfg, req), bound)
    ensures WholeUnits(db) ==> WholeUnits(Apply(db, cfg, req))
  {
    if CallEffect(db, cfg, req).Success? {
      match req.call {
        case LegacyDeposit(target, units) =>
          EnsuredFloors(db, target, req.now, bound);
          LegacyCreditFloors(Ensured(db, target, req.now), target, units, Tables.Deposit, None, req.now, bound);
        case LegacyWithdraw(origin, units) =>
          LegacyDebitFloors(db, origin, units, Withdrawal, None, req.now, bound);
        case LegacyTransfer(origin, target, units) =>
          var ensured := Ensured(db, target, req.now);
          EnsuredFloors(db, target, req.now, bound);
          LegacyDebitFloors(ensured, origin, units, TransferOut, Some(target), req.now, bound);
          LegacyCreditFloors(Recorded(ensured, origin, -100 * units, TransferOut, Some(target), req.now), target, units,
                             TransferIn, Some(origin), req.now, bound);
      }
    }
  }

  /** Without legacy routes no balance is ever negative. */
  lemma {:induction false} RunNeverNegative(cfg: Settings, reqs: seq<Request>)
    requires AllProper(reqs) && forall req | req in reqs :: !req.call.Legacy()
    ensures ZeroFloors(Run(EMPTY, cfg, reqs)) && AtLeast(Run(EMPTY, cfg, reqs), 0)
  {
    if reqs == [] {
    } else {
      RunNeverNegative(cfg, reqs[..|reqs| - 1]);
      RunIsSafe(cfg, reqs[..|reqs| - 1]);
      BankStepFloors(Run(EMPTY, cfg, reqs[..|reqs| - 1]), cfg, reqs[|reqs| - 1], 0);
    }
  }

  /** In mixed runs every balance stays at or above -1000.99. */
  lemma {:induction false} RunOverdraftBound(cfg: Settings, reqs: seq<Request>)
    requires AllProper(reqs)
    ensures ZeroFloors(Run(EMPTY, cfg, reqs)) && AtLeast(Run(EMPTY, cfg, reqs), -100099)
  {
    if reqs == [] {
    } else {
      var db := Run(EMPTY, cfg, reqs[..|reqs| - 1]);
      var req := reqs[|reqs| - 1];
      RunOverdraftBound(cfg, reqs[..|reqs| - 1]);
      RunIsSafe(cfg, reqs[..|reqs| - 1]);
      if req.call.Legacy() {
        LegacyStepFloors(db, cfg, req, -100099);
      } else {
        BankStepFloors(db, cfg, req, -100099);
      }
    }
  }

  /** When only whole units move, the documented limit of -1000 holds exactly. */
  lemma {:induction false} WholeRunOverdraftBound(cfg: Settings, reqs: seq<Request>)
    requires AllProper(reqs) && cfg.welcome % 100 == 0 && forall req | req in reqs :: WholeCall(req.call)
    ensures var db := Run(EMPTY, cfg, reqs);
            ZeroFloors(db) && WholeUnits(db) && AtLeast(db, -100000)
  {
    if reqs == [] {
    } else {
      var db := Run(EMPTY, cfg, reqs[..|reqs| - 1]);
      var req := reqs[|reqs| - 1];
      WholeRunOverdraftBound(cfg, reqs[..|reqs| - 1]);
      RunIsSafe(cfg, reqs[..|reqs| - 1]);
      if req.call.Legacy() {
        LegacyStepFloors(db, cfg, req, -100000);
      } else {
        BankStepFloors(db, cfg, req, -100000);
      }
    }
  }
}
