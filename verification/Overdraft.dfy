/** The overdraft bound of mixed runs is tight: a run from empty tables ends at -1000.99. */
module Overdraft {
  import opened Prelude
  import opened Tables
  import opened OnboardingAccounts
  import opened Onboarding
  import opened Bank
  import opened Steps
  import opened MoneyLaws
  import opened FirstSteps
  import AccountService
  import Ledger
  import Transfers

  lemma LegacyDebit(db: Db, cfg: Settings, id: string, units: int, now: int)
    requires id in db.accounts && units > 0 && AccountService.WithinLimit(db.accounts[id].balance, units)
    ensures var after := Apply(db, cfg, Request(LegacyWithdraw(id, units), now));
            id in after.accounts && after.accounts[id].balance == db.accounts[id].balance - 100 * units
  {
  }

  /** From a balance that ends in one cent: withdraw down to -0.99, which truncates to zero, and a thousand more. */
  lemma Plunge(cfg: Settings, reqs: seq<Request>, id: string, now: int) returns (more: seq<Request>)
    requires AllProper(reqs) && id != SYS_CASH
    requires var db := Run(EMPTY, cfg, reqs);
             id in db.accounts && db.accounts[id].balance > 0 && db.accounts[id].balance % 100 == 1
    ensures AllProper(more)
    ensures var db := Run(EMPTY, cfg, more); id in db.accounts && db.accounts[id].balance == -100099
  {
    hide Apply, Run;
    var balance := Run(EMPTY, cfg, reqs).accounts[id].balance;
    var drain := Request(LegacyWithdraw(id, balance / 100 + 1), now);
    var thousand := Request(LegacyWithdraw(id, 1000), now);
    more := reqs + [drain] + [thousand];
    OneMoreRequest(cfg, reqs, drain);
    OneMoreRequest(cfg, reqs + [drain], thousand);
    LegacyDebit(Run(EMPTY, cfg, reqs), cfg, id, balance / 100 + 1, now);
    LegacyDebit(Run(EMPTY, cfg, reqs + [drain]), cfg, id, 1000, now);
  }

  /** The only account is the first one. */
  lemma SolePrimary(db: Db, cfg: Settings, subject: string, id: string)
    requires FreshlyOpened(db, cfg, subject, id)
    ensures Primary(db.accounts, subject) == Some(id)
  {
    assert id in Owned(db.accounts, subject);
  }

  lemma FallbackKeyIsFree(db: Db, cfg: Settings, subject: string, id: string)
    requires FreshlyOpened(db, cfg, subject, id)
    ensures Ledger.KeyIndex(db.journals, Transfers.WithdrawKey(subject, None, None)).None?
  {
    WithdrawKeyIsText(subject, None, None);
    assert WELCOME_PREFIX <= WelcomeKey(id);
  }

  /** Open an account; withdraw cents until one is left over; then plunge. */
  lemma OverdraftBoundIsReached(cfg: Settings, subject: string, draw: Draw, now: int) returns (reqs: seq<Request>)
    requires cfg.welcome > 0 && (cfg.welcome % 100 == 1 || cfg.maxWithdraw >= 99)
    requires draw.id != SYS_CASH && draw.digit < 10
    ensures AllProper(reqs)
    ensures var db := Run(EMPTY, cfg, reqs); draw.id in db.accounts && db.accounts[draw.id].balance == -100099
  {
    hide Apply, Run, FirstSteps.AmountText;
    var skip := Request(Skip(subject, None, draw), now);
    OneMoreRequest(cfg, [], skip);
    FirstSkip(cfg, subject, draw, now);
    reqs := [] + [skip];
    var cents := (cfg.welcome - 1) % 100;
    if cents > 0 {
      var db := Run(EMPTY, cfg, reqs);
      SolePrimary(db, cfg, subject, draw.id);
      FallbackKeyIsFree(db, cfg, subject, draw.id);
      CentsTaken(db, cfg, subject, draw.id, cents, None, now);
      var take := Request(Withdraw(subject, AmountText(cents), None, None), now);
      OneMoreRequest(cfg, reqs, take);
      reqs := reqs + [take];
    }
    reqs := Plunge(cfg, reqs, draw.id, now);
  }
}
