/** A client may use an account's welcome key for a withdrawal of its own; the account is then finished without a
    grant. */
module TakenKeys {
  import opened Prelude
  import opened Tables
  import opened OnboardingAccounts
  import opened OnboardingSessions
  import opened Onboarding
  import opened Bank
  import opened MoneyLaws
  import opened GrantLaws
  import opened FirstSteps
  import Ledger
  import Transfers

  /** A second, unfinished account beside the first. */
  ghost predicate SecondDrafted(db: Db, cfg: Settings, subject: string, first: string, second: string) {
    && db.accounts.Keys == {first, second} && first != second && SYS_CASH !in db.accounts && subject in db.holders
    && Usable(db.accounts[first], subject) && db.accounts[first].balance == cfg.welcome
    && db.accounts[second].owner == Some(subject) && db.accounts[second].checking
    && db.accounts[second].number.Some? && db.accounts[second].number.value > db.accounts[first].number.value
    && db.journals == [Journal(WelcomeGrant, Some(WelcomeKey(first)))]
  }

  lemma DraftSecond(db: Db, cfg: Settings, subject: string, first: string, draw: Draw, now: int)
    requires FreshlyOpened(db, cfg, subject, first) && cfg.maxAccounts >= 2 && draw.id != first && draw.id != SYS_CASH
    ensures SecondDrafted(Apply(db, cfg, Request(OpenAdditional(subject, draw), now)), cfg, subject, first, draw.id)
  {
    assert Owned(db.accounts, subject) == {first};
  }

  /** Accounts are listed by number. */
  lemma FirstIsPrimary(db: Db, cfg: Settings, subject: string, first: string, second: string)
    requires SecondDrafted(db, cfg, subject, first, second)
    ensures Primary(db.accounts, subject) == Some(first)
  {
    assert Owned(db.accounts, subject) == {first, second};
    var primary := Primary(db.accounts, subject).value;
    assert primary == second ==> !Precedes(db.accounts, second, first);
  }

  lemma WelcomeKeyIsFree(db: Db, cfg: Settings, subject: string, first: string, second: string)
    requires SecondDrafted(db, cfg, subject, first, second)
    ensures Transfers.WithdrawKey(subject, None, Some(WelcomeKey(second))) == WelcomeKey(second)
    ensures Ledger.KeyIndex(db.journals, WelcomeKey(second)).None?
  {
    WelcomeKeysDiffer(first, second);
    assert WelcomeKey(second)[0] == 'w';
  }

  /** The ledger takes the grant for a replay, and the account is finished without it. */
  lemma FinishedWithoutGrant(db: Db, cfg: Settings, subject: string, id: string, draw: Draw, now: int)
    requires id in Owned(db.accounts, subject) && id != "" && subject in db.holders
    requires Taken(db, id)
    ensures var req := Request(Skip(subject, Some(id), draw), now);
            CallEffect(db, cfg, req).Success? && ReadyAt(Apply(db, cfg, req), id)
  {
    hide Granted;
    var middle := WithSession(db, subject, id, now);
    var numbered := Numbered(WithHolder(middle, subject, None), cfg, id, draw.digit);
    assert numbered.journals == db.journals;
    assert WelcomeKey(id)[0] == 'w';
    assert Ledger.KeyIndex(numbered.journals, WelcomeKey(id)).Some?;
    assert WelcomeEffect(numbered, cfg, id, now).Success?;
  }

  /** Skip one account, draft a second, withdraw a cent under the second's welcome key, skip the second. */
  lemma KeyTakenBeforeGrant(cfg: Settings, subject: string, a: Draw, b: Draw, now: int) returns (reqs: seq<Request>)
    requires cfg.welcome > 0 && cfg.maxAccounts >= 2 && cfg.maxWithdraw > 0
    requires a.id != SYS_CASH && b.id != SYS_CASH && a.id != b.id && b.id != "" && a.digit < 10 && b.digit < 10
    ensures AllProper(reqs)
    ensures var db := Run(EMPTY, cfg, reqs);
            ReadyAt(db, b.id) && Taken(db, b.id) && Sum(db.txns, GrantCount(b.id)) == 0
  {
    hide Apply, Run, FirstSteps.AmountText, CallEffect;
    var skip, open := Request(Skip(subject, None, a), now), Request(OpenAdditional(subject, b), now);
    var take := Request(Withdraw(subject, AmountText(1), None, Some(WelcomeKey(b.id))), now);
    var finish := Request(Skip(subject, Some(b.id), b), now);
    OneMoreRequest(cfg, [], skip);
    FirstSkip(cfg, subject, a, now);
    OneMoreRequest(cfg, [] + [skip], open);
    DraftSecond(Run(EMPTY, cfg, [] + [skip]), cfg, subject, a.id, b, now);
    var db := Run(EMPTY, cfg, [] + [skip] + [open]);
    FirstIsPrimary(db, cfg, subject, a.id, b.id);
    WelcomeKeyIsFree(db, cfg, subject, a.id, b.id);
    CentsTaken(db, cfg, subject, a.id, 1, Some(WelcomeKey(b.id)), now);
    OneMoreRequest(cfg, [] + [skip] + [open], take);
    var taken := Run(EMPTY, cfg, [] + [skip] + [open] + [take]);
    assert taken.journals[|db.journals|].key == Some(WelcomeKey(b.id));
    assert Taken(taken, b.id);
    FinishedWithoutGrant(taken, cfg, subject, b.id, b, now);
    reqs := [] + [skip] + [open] + [take] + [finish];
    OneMoreRequest(cfg, [] + [skip] + [open] + [take], finish);
    JournalsGrow(taken, cfg, finish);
    var last := Run(EMPTY, cfg, reqs);
    assert last.journals[|db.journals|] == taken.journals[|db.journals|];
    assert Taken(last, b.id);
    GrantsExactly(cfg, reqs, b.id);
  }
}
