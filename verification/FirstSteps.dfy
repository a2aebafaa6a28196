/** The first requests of a bank: opening an account, a second one, and withdrawing cents. */
module FirstSteps {
  import opened Prelude
  import opened Tables
  import opened OnboardingAccounts
  import opened Onboarding
  import opened Bank
  import opened Steps
  import opened GrantLaws
  import opened LedgerLaws
  import opened SessionLaws
  import Ledger
  import Money
  import Transfers

  /** A first grant of a positive amount is always accepted. */
  lemma FirstGrantSucceeds(db: Db, cfg: Settings, id: string, now: int)
    requires db.journals == [] && cfg.welcome > 0
    ensures WelcomeEffect(db, cfg, id, now).Success?
  {
    var debit, credit := Line(SYS_CASH, Debit, cfg.welcome), Line(id, Credit, cfg.welcome);
    var lines := [debit, credit];
    assert lines == [] + [debit] + [credit];
    SumAppend([], debit, Ledger.OnSide(Debit));
    SumAppend([] + [debit], credit, Ledger.OnSide(Debit));
    SumAppend([], debit, Ledger.OnSide(Credit));
    SumAppend([] + [debit], credit, Ledger.OnSide(Credit));
  }

  lemma FinishSucceeds(db: Db, cfg: Settings, subject: string, draw: Draw, now: int)
    requires db.journals == [] && cfg.welcome > 0 && draw.id in db.accounts
    ensures FinishEffect(db, cfg, subject, draw.id, Some(Holder(None)), draw.digit, SKIP, now).Success?
  {
    hide WelcomeEffect;
    var named := WithHolder(db, subject, Some(Holder(None)));
    FirstGrantSucceeds(Numbered(named, cfg, draw.id, draw.digit), cfg, draw.id, now);
  }

  /** The subject stays on file. */
  lemma FinishKeepsHolders(db: Db, cfg: Settings, subject: string, id: string, holder: Option<Holder>, digit: nat,
                           outcome: Outcome, now: int)
    requires id in db.accounts && id != SYS_CASH
    requires FinishEffect(db, cfg, subject, id, holder, digit, outcome, now).Success?
    ensures FinishEffect(db, cfg, subject, id, holder, digit, outcome, now).value.holders
         == WithHolder(db, subject, holder).holders
  {
    hide WelcomeEffect;
    var numbered := Numbered(WithHolder(db, subject, holder), cfg, id, digit);
    NumberedShape(WithHolder(db, subject, holder), cfg, id, digit);
    WelcomeShape(numbered, cfg, id, now);
  }

  /** An account its subject can pay from. */
  predicate Usable(a: Account, subject: string) {
    a.owner == Some(subject) && a.checking && a.active && a.onboarding == Skipped && a.floor == 0 && a.number.Some?
  }

  /** One account with its welcome money, and nothing else. */
  ghost predicate FreshlyOpened(db: Db, cfg: Settings, subject: string, id: string) {
    && db.accounts.Keys == {id} && id != SYS_CASH && subject in db.holders
    && Usable(db.accounts[id], subject) && db.accounts[id].balance == cfg.welcome
    && db.journals == [Journal(WelcomeGrant, Some(WelcomeKey(id)))]
  }

  /** Skipping onboarding on empty tables opens the drawn account with the welcome amount on it. */
  lemma FirstSkip(cfg: Settings, subject: string, draw: Draw, now: int)
    requires cfg.welcome > 0 && draw.id != SYS_CASH && draw.digit < 10
    ensures FreshlyOpened(Apply(EMPTY, cfg, Request(Skip(subject, None, draw), now)), cfg, subject, draw.id)
  {
    hide FinishEffect, WelcomeEffect, Granted;
    var req := Request(Skip(subject, None, draw), now);
    assert Owned(EMPTY.accounts, subject) == {};
    var middle := Prepared(EMPTY, cfg, subject, None, draw, now);
    PreparedShape(EMPTY, cfg, subject, None, draw, now);
    FinishSucceeds(middle, cfg, subject, draw, now);
    assert CallEffect(EMPTY, cfg, req).Success?;
    FinishKeepsHolders(middle, cfg, subject, draw.id, Some(Holder(None)), draw.digit, SKIP, now);
    assert Target(EMPTY, cfg, req.call, now) == draw.id;
    FirstSkipShape(cfg, req);
  }

  lemma FirstSkipShape(cfg: Settings, req: Request)
    requires req.call.Skip? && Proper(req.call) && CallEffect(EMPTY, cfg, req).Success?
    ensures var after := CallEffect(EMPTY, cfg, req).value;
            var id := Target(EMPTY, cfg, req.call, req.now);
            && after.accounts.Keys == {id}
            && Usable(after.accounts[id], req.call.subject) && after.accounts[id].balance == cfg.welcome
            && after.journals == [Journal(WelcomeGrant, Some(WelcomeKey(id)))]
  {
    hide CallEffect, Target, Granted;
    NothingFiled();
    FinishingSettles(EMPTY, cfg, req, Target(EMPTY, cfg, req.call, req.now));
    OnboardingShape(EMPTY, cfg, req);
    OnboardingStatus(EMPTY, cfg, req);
    NothingGranted(Target(EMPTY, cfg, req.call, req.now));
  }

  // ---------------------------------------------------------------- cents

  function AmountText(cents: nat): string {
    Money.Str(Money.Decimal(false, cents, -2))
  }

  lemma AmountIsRead(cents: nat)
    requires 0 < cents < 100
    ensures Money.ParsePositiveMoney(AmountText(cents)) == Success(cents)
  {
    hide Money.ParseDecimal, Money.Str;
    var d := Money.Decimal(false, cents, -2);
    Money.AmountRoundTrip(d);
    assert Money.Hundredths(d) == cents by { assert Money.Pow10(0) == 1; }
    assert Money.Pow10(Money.PRECISION) >= 100 by { assert Money.Pow10(2) == 100; }
    Money.PositiveMoneyExactly(AmountText(cents));
  }

  /** A withdrawal of cents from the subject's first account, under a key not yet used. */
  lemma CentsTaken(db: Db, cfg: Settings, subject: string, id: string, cents: int, key: Option<string>, now: int)
    requires Primary(db.accounts, subject) == Some(id) && id in db.accounts && SYS_CASH !in db.accounts
    requires Usable(db.accounts[id], subject)
    requires 0 < cents < 100 && cents <= cfg.maxWithdraw && db.accounts[id].balance >= cents
    requires Ledger.KeyIndex(db.journals, Transfers.WithdrawKey(subject, None, key)).None?
    ensures var call := Withdraw(subject, AmountText(cents), None, key);
            var after := Apply(db, cfg, Request(call, now));
            && after.accounts == Adjusted(db.accounts, id, -cents) && after.holders == db.holders
            && after.journals
               == db.journals + [Journal(WithdrawEntry, Some(Transfers.WithdrawKey(subject, None, key)))]
  {
    hide Money.ParsePositiveMoney, AmountText, Primary, Ledger.MirrorLines;
    AmountIsRead(cents);
    WithdrawalPosts(db, id, cents, Some(Transfers.WithdrawKey(subject, None, key)), now);
    WithdrawCallShape(db, cfg, Request(Withdraw(subject, AmountText(cents), None, key), now));
  }

  lemma WithdrawalPosts(db: Db, id: string, cents: int, key: Option<string>, now: int)
    requires id in db.accounts && cents > 0 && db.accounts[id].balance - cents >= db.accounts[id].floor
    requires key.Some? && Ledger.KeyIndex(db.journals, key.value).None?
    ensures Ledger.WithdrawEffect(db, id, cents, key, now).Success?
  {
    hide Ledger.MirrorLines, Ledger.KeyIndex;
    var debit, credit := Line(id, Debit, cents), Line(SYS_CASH, Credit, cents);
    assert [debit, credit] == [] + [debit] + [credit];
    SumAppend([], debit, Ledger.OnSide(Debit));
    SumAppend([] + [debit], credit, Ledger.OnSide(Debit));
    SumAppend([], debit, Ledger.OnSide(Credit));
    SumAppend([] + [debit], credit, Ledger.OnSide(Credit));
  }

  lemma OneMoreRequest(cfg: Settings, reqs: seq<Request>, req: Request)
    ensures Run(EMPTY, cfg, reqs + [req]) == Apply(Run(EMPTY, cfg, reqs), cfg, req)
    ensures Run(EMPTY, cfg, []) == EMPTY
  {
    assert (reqs + [req])[..|reqs|] == reqs;
  }
}
