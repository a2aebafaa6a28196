/** One welcome grant per account, a bounded number of accounts per subject, unique account numbers. */
module GrantLaws {
  import opened Prelude
  import opened Tables
  import opened OnboardingAccounts
  import opened OnboardingSessions
  import opened Onboarding
  import opened LedgerLaws
  import opened Bank
  import opened Steps
  import opened MoneyLaws
  import opened SessionLaws
  import Digits
  import Recipient
  import Validation
  import Transfers

  function GrantCount(id: string): Txn -> int {
    (t: Txn) => if IsGrantTo(t, id) then 1 else 0
  }

  function GrantedTo(id: string): Txn -> int {
    (t: Txn) => if IsGrantTo(t, id) then t.amount else 0
  }

  /** No client or fallback key looks like a welcome key. */
  predicate CleanKey(call: Call) {
    match call
    case Transfer(_, _, _, _, key) => key.Some? ==> !(WELCOME_PREFIX <= key.value)
    case Withdraw(_, _, _, key) => key.Some? ==> !(WELCOME_PREFIX <= key.value)
    case _ => true
  }

  lemma {:induction false} CountIsPositive(txns: seq<Txn>, id: string)
    ensures Sum(txns, GrantCount(id)) >= 0
    ensures Sum(txns, GrantCount(id)) > 0 <==> Granted(txns, id)
  {
    if txns == [] {
    } else {
      var front := txns[..|txns| - 1];
      CountIsPositive(front, id);
      assert Granted(front, id) ==> Granted(txns, id) by {
        if Granted(front, id) {
          var i :| 0 <= i < |front| && IsGrantTo(front[i], id);
          assert IsGrantTo(txns[i], id);
        }
      }
    }
  }

  // ---------------------------------------------------------------- invariants

  /** At most one grant row per account, and it carries the welcome amount. */
  ghost predicate GrantedOnce(db: Db, cfg: Settings) {
    && (forall id: string :: Sum(db.txns, GrantCount(id)) <= 1)
    && (forall t | t in db.txns && t.kind == DemoGrant :: t.amount == cfg.welcome && cfg.welcome > 0)
  }

  lemma WelcomeKeysDiffer(a: string, b: string)
    ensures WelcomeKey(a) == WelcomeKey(b) <==> a == b
  {
    assert WelcomeKey(a)[|WELCOME_PREFIX|..] == a;
    assert WelcomeKey(b)[|WELCOME_PREFIX|..] == b;
  }

  lemma OnboardingKeepsGrantedOnce(db: Db, after: Db, cfg: Settings, subject: string, target: string, granted: bool,
                                   now: int)
    requires GrantedOnce(db, cfg) && OnboardingStep(db, after, cfg, subject, target, granted, now)
    ensures GrantedOnce(after, cfg)
  {
    if granted {
      var row := GrantRow(cfg, target, now);
      forall id: string ensures Sum(after.txns, GrantCount(id)) <= 1 {
        SumAppend(db.txns, row, GrantCount(id));
        CountIsPositive(db.txns, id);
      }
    } else {
      assert after.txns == db.txns;
    }
  }

  lemma RowsKeepGrantedOnce(db: Db, after: Db, cfg: Settings)
    requires GrantedOnce(db, cfg) && db.txns <= after.txns
    requires forall t | t in after.txns[|db.txns|..] :: t.kind != DemoGrant
    ensures GrantedOnce(after, cfg)
  {
    var rows := after.txns[|db.txns|..];
    assert after.txns == db.txns + rows;
    forall id: string ensures Sum(after.txns, GrantCount(id)) <= 1 {
      SumConcat(db.txns, rows, GrantCount(id));
      SumOfNothing(rows, GrantCount(id));
    }
  }

  lemma StepKeepsGrantedOnce(db: Db, cfg: Settings, req: Request)
    requires GrantedOnce(db, cfg) && SYS_CASH !in db.accounts && Proper(req.call)
    ensures GrantedOnce(Apply(db, cfg, req), cfg)
  {
    var after := Apply(db, cfg, req);
    if IsOnboarding(req.call) && CallEffect(db, cfg, req).Success? {
      OnboardingShape(db, cfg, req);
      OnboardingKeepsGrantedOnce(db, after, cfg, req.call.subject, Target(db, cfg, req.call, req.now),
                                 |after.journals| > |db.journals|, req.now);
    } else if !IsOnboarding(req.call) {
      StepRows(db, cfg, req);
      RowsKeepGrantedOnce(db, after, cfg);
    }
  }

  /** Whatever sequence of requests is run, no account is granted twice. */
  lemma {:induction false} RunGrantsAtMostOnce(cfg: Settings, reqs: seq<Request>)
    requires AllProper(reqs)
    ensures GrantedOnce(Run(EMPTY, cfg, reqs), cfg)
  {
    if reqs == [] {
    } else {
      RunGrantsAtMostOnce(cfg, reqs[..|reqs| - 1]);
      RunIsSafe(cfg, reqs[..|reqs| - 1]);
      StepKeepsGrantedOnce(Run(EMPTY, cfg, reqs[..|reqs| - 1]), cfg, reqs[|reqs| - 1]);
    }
  }

  // ---------------------------------------------------------------- only finishing grants

  /** Some request of the run completed or skipped this account's onboarding. */
  ghost predicate FinishedIn(cfg: Settings, reqs: seq<Request>, id: string) {
    exists i :: 0 <= i < |reqs| && Finishes(Run(EMPTY, cfg, reqs[..i]), cfg, reqs[i], id)
  }

  ghost predicate Finishes(db: Db, cfg: Settings, req: Request, id: string) {
    && (req.call.Skip? || req.call.Complete?) && CallEffect(db, cfg, req).Success?
    && Target(db, cfg, req.call, req.now) == id
  }

  lemma NoCashAccount(db: Db)
    requires Safe(db)
    ensures SYS_CASH !in db.accounts
  {
  }

  lemma FinishedStaysFinished(cfg: Settings, reqs: seq<Request>, n: nat, id: string)
    requires n <= |reqs|
    ensures FinishedIn(cfg, reqs[..n], id) ==> FinishedIn(cfg, reqs, id)
  {
    hide Finishes, Run;
    forall i | 0 <= i < n ensures reqs[..n][..i] == reqs[..i] {
    }
  }

  /** Opening accounts, starting and attaching grant nothing. */
  lemma UnfinishedGrantNothing(db: Db, cfg: Settings, req: Request)
    requires (req.call.Start? || req.call.Attach? || req.call.OpenAdditional?)
    requires Proper(req.call) && SYS_CASH !in db.accounts && CallEffect(db, cfg, req).Success?
    ensures CallEffect(db, cfg, req).value.txns == db.txns
  {
    hide OnboardingStep, Opened;
    if !req.call.OpenAdditional? {
      PreparedShape(db, cfg, req.call.subject, req.call.id, req.call.draw, req.now);
    }
  }

  lemma NewRowsAreTheTargets(db: Db, after: Db, cfg: Settings, subject: string, target: string, granted: bool, now: int,
                             i: nat)
    requires OnboardingStep(db, after, cfg, subject, target, granted, now) && |db.txns| <= i < |after.txns|
    ensures after.txns[i].account == target
  {
  }

  /** A grant is new only to the account that the request finished. */
  lemma OnlyFinishingGrants(db: Db, cfg: Settings, req: Request, id: string)
    requires Proper(req.call) && SYS_CASH !in db.accounts
    requires Granted(Apply(db, cfg, req).txns, id) && !Granted(db.txns, id)
    ensures Finishes(db, cfg, req, id)
  {
    hide CallEffect, Target, OnboardingStep, RowShape;
    var after := Apply(db, cfg, req);
    assert CallEffect(db, cfg, req).Success?;
    StepRows(db, cfg, req);
    var i :| 0 <= i < |after.txns| && IsGrantTo(after.txns[i], id);
    assert forall j | 0 <= j < |db.txns| :: after.txns[j] == db.txns[j];
    assert i >= |db.txns|;
    assert after.txns[i] == RowsAdded(db, after)[i - |db.txns|];
    assert IsOnboarding(req.call);
    OnboardingShape(db, cfg, req);
    NewRowsAreTheTargets(db, after, cfg, req.call.subject, Target(db, cfg, req.call, req.now),
                         |after.journals| > |db.journals|, req.now, i);
    if !req.call.Skip? && !req.call.Complete? {
      UnfinishedGrantNothing(db, cfg, req);
    }
  }

  /** Welcome money reaches an account only through a request that finished its onboarding. */
  lemma {:induction false} GrantedWasFinished(cfg: Settings, reqs: seq<Request>, id: string)
    requires AllProper(reqs) && Granted(Run(EMPTY, cfg, reqs).txns, id)
    ensures FinishedIn(cfg, reqs, id)
  {
    hide Apply, Finishes, Granted;
    if reqs == [] {
      assert Granted([], id);
      NothingGranted(id);
    } else {
      var n := |reqs| - 1;
      RunIsSafe(cfg, reqs[..n]);
      if Granted(Run(EMPTY, cfg, reqs[..n]).txns, id) {
        GrantedWasFinished(cfg, reqs[..n], id);
        FinishedStaysFinished(cfg, reqs, n, id);
      } else {
        OnlyFinishingGrants(Run(EMPTY, cfg, reqs[..n]), cfg, reqs[n], id);
      }
    }
  }

  lemma NothingGranted(id: string)
    ensures !Granted([], id)
  {
  }

  // ---------------------------------------------------------------- finished accounts have their grant

  ghost predicate GrantJournal(db: Db, id: string) {
    exists j | 0 <= j < |db.journals| :: db.journals[j] == Journal(WelcomeGrant, Some(WelcomeKey(id)))
  }

  /** Another movement's journal is filed under the account's welcome key. */
  ghost predicate Taken(db: Db, id: string) {
    exists j | 0 <= j < |db.journals| ::
      db.journals[j].key == Some(WelcomeKey(id)) && db.journals[j].entry != WelcomeGrant
  }

  /** Grants in the log and grants in the ledger are the same. */
  ghost predicate GrantsAreFiled(db: Db) {
    forall id: string :: Granted(db.txns, id) <==> GrantJournal(db, id)
  }

  ghost predicate Settled(db: Db, id: string) {
    Granted(db.txns, id) || Taken(db, id)
  }

  /** Journals of other requests are no grants, and under clean keys they take no welcome key. */
  lemma ForeignJournals(db: Db, cfg: Settings, req: Request)
    requires !IsOnboarding(req.call) && SYS_CASH !in db.accounts
    ensures var after := Apply(db, cfg, req);
            && db.journals <= after.journals
            && (forall j | |db.journals| <= j < |after.journals| :: after.journals[j].entry != WelcomeGrant)
            && (CleanKey(req.call) ==>
                  forall j, id: string | |db.journals| <= j < |after.journals| ::
                    after.journals[j].key != Some(WelcomeKey(id)))
  {
    hide CallEffect;
    if CallEffect(db, cfg, req).Success? {
      if req.call.Transfer? {
        TransferCallShape(db, cfg, req);
        forall id: string | CleanKey(req.call) ensures req.call.key != Some(WelcomeKey(id)) {
          assert WELCOME_PREFIX <= WelcomeKey(id);
        }
      } else if req.call.Withdraw? {
        WithdrawCallShape(db, cfg, req);
        var key := Transfers.WithdrawKey(req.call.subject, req.call.requestId, req.call.key);
        WithdrawKeyIsText(req.call.subject, req.call.requestId, req.call.key);
        forall id: string | CleanKey(req.call) ensures key != WelcomeKey(id) {
          assert WELCOME_PREFIX <= WelcomeKey(id);
        }
      } else {
        LegacyFilesNothing(db, cfg, req);
      }
    }
  }

  lemma LegacyFilesNothing(db: Db, cfg: Settings, req: Request)
    requires req.call.Legacy() && CallEffect(db, cfg, req).Success?
    ensures CallEffect(db, cfg, req).value.journals == db.journals
  {
  }

  lemma JournalsGrow(db: Db, cfg: Settings, req: Request)
    requires SYS_CASH !in db.accounts && Proper(req.call)
    ensures db.journals <= Apply(db, cfg, req).journals
  {
    hide CallEffect, Target;
    if IsOnboarding(req.call) {
      if CallEffect(db, cfg, req).Success? {
        OnboardingShape(db, cfg, req);
      }
    } else {
      ForeignJournals(db, cfg, req);
    }
  }

  lemma JournalsAppended(db: Db, after: Db, more: seq<Journal>, id: string)
    requires after.journals == db.journals + more
    ensures GrantJournal(after, id) <==> GrantJournal(db, id) || Journal(WelcomeGrant, Some(WelcomeKey(id))) in more
    ensures Taken(db, id) ==> Taken(after, id)
  {
    assert forall j | 0 <= j < |db.journals| :: after.journals[j] == db.journals[j];
    assert forall j | 0 <= j < |more| :: after.journals[|db.journals| + j] == more[j];
    assert forall j | |db.journals| <= j < |after.journals| :: after.journals[j] == more[j - |db.journals|];
  }

  lemma RowsAppended(txns: seq<Txn>, more: seq<Txn>, id: string)
    ensures Granted(txns + more, id) <==> Granted(txns, id) || Granted(more, id)
  {
    var all := txns + more;
    if i :| 0 <= i < |all| && IsGrantTo(all[i], id) {
      assert all[i] == if i < |txns| then txns[i] else more[i - |txns|];
    }
    if i :| 0 <= i < |txns| && IsGrantTo(txns[i], id) {
      assert IsGrantTo(all[i], id);
    }
    if i :| 0 <= i < |more| && IsGrantTo(more[i], id) {
      assert IsGrantTo(all[|txns| + i], id);
    }
  }

  lemma OnboardingFilesGrants(db: Db, after: Db, cfg: Settings, subject: string, target: string, granted: bool,
                              now: int)
    requires GrantsAreFiled(db) && OnboardingStep(db, after, cfg, subject, target, granted, now)
    ensures GrantsAreFiled(after)
  {
    hide GrantJournal, Granted;
    var rows := if granted then [GrantRow(cfg, target, now)] else [];
    var more := if granted then [Journal(WelcomeGrant, Some(WelcomeKey(target)))] else [];
    forall id: string ensures Granted(after.txns, id) <==> GrantJournal(after, id) {
      RowsAppended(db.txns, rows, id);
      JournalsAppended(db, after, more, id);
      WelcomeKeysDiffer(id, target);
      assert Granted(rows, id) <==> granted && id == target by { SingleRow(rows, id); }
    }
  }

  lemma SingleRow(rows: seq<Txn>, id: string)
    requires |rows| <= 1
    ensures Granted(rows, id) <==> rows != [] && IsGrantTo(rows[0], id)
  {
    if rows != [] {
      assert Granted(rows, id) <==> IsGrantTo(rows[0], id);
    }
  }

  lemma StepFilesGrants(db: Db, cfg: Settings, req: Request)
    requires GrantsAreFiled(db) && SYS_CASH !in db.accounts && Proper(req.call)
    ensures GrantsAreFiled(Apply(db, cfg, req))
  {
    hide CallEffect, Target, OnboardingStep, RowShape, Granted, GrantJournal;
    var after := Apply(db, cfg, req);
    if !IsOnboarding(req.call) {
      StepRows(db, cfg, req);
      ForeignJournals(db, cfg, req);
      var rows, more := RowsAdded(db, after), after.journals[|db.journals|..];
      assert after.txns == db.txns + rows && after.journals == db.journals + more;
      forall id: string ensures Granted(after.txns, id) <==> GrantJournal(after, id) {
        RowsAppended(db.txns, rows, id);
        JournalsAppended(db, after, more, id);
        assert !Granted(rows, id) by { NoGrantAmong(rows, id); }
      }
    } else if CallEffect(db, cfg, req).Success? {
      OnboardingShape(db, cfg, req);
      OnboardingFilesGrants(db, after, cfg, req.call.subject, Target(db, cfg, req.call, req.now),
                            |after.journals| > |db.journals|, req.now);
    }
  }

  lemma NoGrantAmong(rows: seq<Txn>, id: string)
    requires forall t | t in rows :: t.kind != DemoGrant
    ensures !Granted(rows, id)
  {
  }

  lemma {:induction false} RunFilesGrants(cfg: Settings, reqs: seq<Request>)
    requires AllProper(reqs)
    ensures GrantsAreFiled(Run(EMPTY, cfg, reqs))
  {
    hide Apply, GrantsAreFiled, Safe;
    if reqs == [] {
      assert GrantsAreFiled(EMPTY) by { NothingFiled(); }
    } else {
      RunFilesGrants(cfg, reqs[..|reqs| - 1]);
      RunIsSafe(cfg, reqs[..|reqs| - 1]);
      NoCashAccount(Run(EMPTY, cfg, reqs[..|reqs| - 1]));
      StepFilesGrants(Run(EMPTY, cfg, reqs[..|reqs| - 1]), cfg, reqs[|reqs| - 1]);
    }
  }

  lemma NothingFiled()
    ensures GrantsAreFiled(EMPTY)
  {
  }

  /** Finishing posts the grant, unless it was made before or the ledger takes its key for a replay. */
  lemma FinishedIsSettled(db: Db, cfg: Settings, subject: string, id: string, holder: Option<Holder>, digit: nat,
                          outcome: Outcome, now: int)
    requires id in db.accounts && id != SYS_CASH && GrantsAreFiled(db)
    requires FinishEffect(db, cfg, subject, id, holder, digit, outcome, now).Success?
    ensures Settled(FinishEffect(db, cfg, subject, id, holder, digit, outcome, now).value, id)
    ensures db.journals == [] ==>
              Granted(FinishEffect(db, cfg, subject, id, holder, digit, outcome, now).value.txns, id)
  {
    hide WelcomeEffect, Granted;
    var numbered := Numbered(WithHolder(db, subject, holder), cfg, id, digit);
    NumberedShape(WithHolder(db, subject, holder), cfg, id, digit);
    assert numbered.txns == db.txns && numbered.journals == db.journals;
    WelcomeShape(numbered, cfg, id, now);
    var credited := WelcomeEffect(numbered, cfg, id, now).value;
    if |credited.journals| != |numbered.journals| {
      var row := GrantRow(cfg, id, now);
      RowsAppended(db.txns, [row], id);
      SingleRow([row], id);
    }
  }

  lemma FinishingSettles(db: Db, cfg: Settings, req: Request, id: string)
    requires Finishes(db, cfg, req, id) && Proper(req.call) && SYS_CASH !in db.accounts && GrantsAreFiled(db)
    ensures Settled(Apply(db, cfg, req), id)
    ensures db.journals == [] ==> Granted(Apply(db, cfg, req).txns, id)
  {
    hide FinishEffect, Settled, Granted, GrantJournal;
    var now := req.now;
    PreparedShape(db, cfg, req.call.subject, req.call.id, req.call.draw, now);
    var middle := Prepared(db, cfg, req.call.subject, req.call.id, req.call.draw, now);
    var holder := if req.call.Complete? then Some(Holder(Some(ValidateForm(req.call.form).value)))
                  else if req.call.subject in middle.holders then None else Some(Holder(None));
    SameGrants(db, middle);
    FinishedIsSettled(middle, cfg, req.call.subject, id, holder, req.call.draw.digit,
                      if req.call.Complete? then COMPLETION else SKIP, now);
  }

  lemma SameGrants(db: Db, other: Db)
    requires GrantsAreFiled(db) && other.txns == db.txns && other.journals == db.journals
    ensures GrantsAreFiled(other)
  {
    hide Granted;
    forall id: string ensures GrantJournal(other, id) <==> GrantJournal(db, id) {
    }
  }

  lemma SettledStays(db: Db, cfg: Settings, req: Request, id: string)
    requires SYS_CASH !in db.accounts && Proper(req.call) && Settled(db, id)
    ensures Settled(Apply(db, cfg, req), id)
  {
    hide Apply, RowShape, Granted;
    var after := Apply(db, cfg, req);
    StepRows(db, cfg, req);
    JournalsGrow(db, cfg, req);
    assert after.txns == db.txns + RowsAdded(db, after);
    RowsAppended(db.txns, RowsAdded(db, after), id);
    JournalsAppended(db, after, after.journals[|db.journals|..], id);
  }

  lemma {:induction false} RunSettlesTheFinished(cfg: Settings, reqs: seq<Request>, id: string)
    requires AllProper(reqs) && FinishedIn(cfg, reqs, id)
    ensures Settled(Run(EMPTY, cfg, reqs), id)
  {
    hide Apply, Finishes, Settled, GrantsAreFiled, Safe;
    var n := |reqs| - 1;
    var i :| 0 <= i < |reqs| && Finishes(Run(EMPTY, cfg, reqs[..i]), cfg, reqs[i], id);
    RunIsSafe(cfg, reqs[..n]);
    NoCashAccount(Run(EMPTY, cfg, reqs[..n]));
    if i < n {
      assert reqs[..n][..i] == reqs[..i] && reqs[..n][i] == reqs[i];
      RunSettlesTheFinished(cfg, reqs[..n], id);
      SettledStays(Run(EMPTY, cfg, reqs[..n]), cfg, reqs[n], id);
    } else {
      RunFilesGrants(cfg, reqs[..n]);
      FinishingSettles(Run(EMPTY, cfg, reqs[..n]), cfg, reqs[n], id);
    }
  }

  ghost predicate ReadyAt(db: Db, id: string) {
    id in db.accounts && db.accounts[id].onboarding.Ready()
  }

  /** An account becomes ready through a finishing request alone. */
  lemma OnlyFinishingReadies(db: Db, cfg: Settings, req: Request, id: string)
    requires Proper(req.call) && SYS_CASH !in db.accounts
    requires ReadyAt(Apply(db, cfg, req), id) && !ReadyAt(db, id)
    ensures Finishes(db, cfg, req, id)
  {
    hide CallEffect, Target, Opened, Closed;
    assert CallEffect(db, cfg, req).Success?;
    if IsOnboarding(req.call) {
      OnboardingShape(db, cfg, req);
      OnboardingStatus(db, cfg, req);
    } else {
      OthersKeepSessions(db, cfg, req);
    }
  }

  lemma {:induction false} ReadyWasFinished(cfg: Settings, reqs: seq<Request>, id: string)
    requires AllProper(reqs) && ReadyAt(Run(EMPTY, cfg, reqs), id)
    ensures FinishedIn(cfg, reqs, id)
  {
    hide Apply, Finishes, ReadyAt, Safe;
    if reqs == [] {
      NoneReady(id);
    } else {
      var n := |reqs| - 1;
      RunIsSafe(cfg, reqs[..n]);
      NoCashAccount(Run(EMPTY, cfg, reqs[..n]));
      if ReadyAt(Run(EMPTY, cfg, reqs[..n]), id) {
        ReadyWasFinished(cfg, reqs[..n], id);
        FinishedStaysFinished(cfg, reqs, n, id);
      } else {
        OnlyFinishingReadies(Run(EMPTY, cfg, reqs[..n]), cfg, reqs[n], id);
      }
    }
  }

  lemma NoneReady(id: string)
    ensures !ReadyAt(EMPTY, id)
  {
  }

  /** A key is filed once: for the grant or for something else. */
  lemma GrantedIsNotTaken(db: Db, id: string)
    requires UniqueKeys(db) && GrantsAreFiled(db) && Granted(db.txns, id)
    ensures !Taken(db, id)
  {
    hide Granted;
    assert WelcomeKey(id)[0] == 'w';
    var i :| 0 <= i < |db.journals| && db.journals[i] == Journal(WelcomeGrant, Some(WelcomeKey(id)));
    assert HasText(db.journals[i].key);
    forall j | 0 <= j < |db.journals| && db.journals[j].key == Some(WelcomeKey(id)) ensures j == i {
      assert HasText(db.journals[j].key);
    }
  }

  /** Whatever keys clients choose: an account has its one grant exactly when some request finished its onboarding and
      no other movement had taken the key the grant is filed under. Ready accounts are such finished ones. */
  lemma GrantsExactly(cfg: Settings, reqs: seq<Request>, id: string)
    requires AllProper(reqs)
    ensures var db := Run(EMPTY, cfg, reqs);
            && Sum(db.txns, GrantCount(id)) == (if FinishedIn(cfg, reqs, id) && !Taken(db, id) then 1 else 0)
            && (ReadyAt(db, id) ==> FinishedIn(cfg, reqs, id))
  {
    hide Run, FinishedIn, Taken, Granted, GrantsAreFiled, ReadyAt;
    var db := Run(EMPTY, cfg, reqs);
    RunGrantsAtMostOnce(cfg, reqs);
    RunFilesGrants(cfg, reqs);
    RunIsSafe(cfg, reqs);
    CountIsPositive(db.txns, id);
    if Granted(db.txns, id) {
      GrantedWasFinished(cfg, reqs, id);
      GrantedIsNotTaken(db, id);
    } else if FinishedIn(cfg, reqs, id) {
      RunSettlesTheFinished(cfg, reqs, id);
    }
    if ReadyAt(db, id) {
      ReadyWasFinished(cfg, reqs, id);
    }
  }

  lemma {:induction false} CleanRunTakesNothing(cfg: Settings, reqs: seq<Request>, id: string)
    requires AllProper(reqs) && forall req | req in reqs :: CleanKey(req.call)
    ensures !Taken(Run(EMPTY, cfg, reqs), id)
  {
    hide CallEffect, Target, Safe, CleanKey;
    if reqs != [] {
      var n := |reqs| - 1;
      var db := Run(EMPTY, cfg, reqs[..n]);
      CleanRunTakesNothing(cfg, reqs[..n], id);
      RunIsSafe(cfg, reqs[..n]);
      NoCashAccount(db);
      if IsOnboarding(reqs[n].call) {
        if CallEffect(db, cfg, reqs[n]).Success? {
          OnboardingShape(db, cfg, reqs[n]);
        }
      } else {
        ForeignJournals(db, cfg, reqs[n]);
      }
    }
  }

  /** Ready accounts have their grant, and a journal under a welcome key is that account's grant. */
  ghost predicate FinishedAreGranted(db: Db) {
    && (forall id | id in db.accounts && db.accounts[id].onboarding.Ready() :: Granted(db.txns, id))
    && (forall j, id: string | 0 <= j < |db.journals| && db.journals[j].key == Some(WelcomeKey(id)) ::
          Granted(db.txns, id))
  }

  lemma KeyedIsGranted(db: Db, j: nat, id: string)
    requires GrantsAreFiled(db) && !Taken(db, id)
    requires j < |db.journals| && db.journals[j].key == Some(WelcomeKey(id))
    ensures Granted(db.txns, id)
  {
    hide Granted;
    assert db.journals[j] == Journal(WelcomeGrant, Some(WelcomeKey(id)));
  }

  /** So with no client key that looks like a welcome key, every completed or skipped account has exactly one grant. */
  lemma RunGrantsTheFinished(cfg: Settings, reqs: seq<Request>)
    requires AllProper(reqs) && forall req | req in reqs :: CleanKey(req.call)
    ensures FinishedAreGranted(Run(EMPTY, cfg, reqs))
    ensures var db := Run(EMPTY, cfg, reqs);
            forall id | id in db.accounts && db.accounts[id].onboarding.Ready() :: Sum(db.txns, GrantCount(id)) == 1
  {
    hide Run, FinishedIn, Taken, Granted, GrantsAreFiled, CleanKey;
    var db := Run(EMPTY, cfg, reqs);
    RunFilesGrants(cfg, reqs);
    forall id | id in db.accounts && db.accounts[id].onboarding.Ready()
      ensures Sum(db.txns, GrantCount(id)) == 1 && Granted(db.txns, id)
    {
      GrantsExactly(cfg, reqs, id);
      CleanRunTakesNothing(cfg, reqs, id);
      CountIsPositive(db.txns, id);
    }
    forall j, id: string | 0 <= j < |db.journals| && db.journals[j].key == Some(WelcomeKey(id))
      ensures Granted(db.txns, id)
    {
      CleanRunTakesNothing(cfg, reqs, id);
      KeyedIsGranted(db, j, id);
    }
  }

  // ---------------------------------------------------------------- untouched until finished

  /** An account, opened or not, that no finishing request has worked on: closed to money, and without a row. */
  ghost predicate Untouched(db: Db, id: string) {
    && (id in db.accounts ==> db.accounts[id].owner.Some? && !db.accounts[id].onboarding.Ready())
    && (forall t | t in db.txns :: t.account != id)
  }

  lemma OnboardingLeavesUntouched(db: Db, cfg: Settings, req: Request, id: string)
    requires Untouched(db, id) && SYS_CASH !in db.accounts && Proper(req.call) && IsOnboarding(req.call)
    requires CallEffect(db, cfg, req).Success? && !Finishes(db, cfg, req, id)
    ensures Untouched(CallEffect(db, cfg, req).value, id)
  {
    hide CallEffect, Target;
    OnboardingShape(db, cfg, req);
    OnboardingStatus(db, cfg, req);
    if Target(db, cfg, req.call, req.now) == id {
      UnfinishedGrantNothing(db, cfg, req);
    }
  }

  lemma MovementLeavesUntouched(db: Db, cfg: Settings, req: Request, id: string)
    requires Untouched(db, id) && SYS_CASH !in db.accounts && (req.call.Transfer? || req.call.Withdraw?)
    requires CallEffect(db, cfg, req).Success?
    ensures Untouched(CallEffect(db, cfg, req).value, id)
  {
    hide CallEffect;
    if req.call.Transfer? {
      TransferCallShape(db, cfg, req);
    } else {
      WithdrawCallShape(db, cfg, req);
    }
  }

  lemma {:induction false} RunLeavesUntouched(cfg: Settings, reqs: seq<Request>, id: string)
    requires AllProper(reqs) && (forall req | req in reqs :: !req.call.Legacy()) && !FinishedIn(cfg, reqs, id)
    ensures Untouched(Run(EMPTY, cfg, reqs), id)
  {
    hide CallEffect, Finishes, Untouched, Safe;
    if reqs == [] {
      NothingTouched(id);
    } else {
      var n := |reqs| - 1;
      var db, last := Run(EMPTY, cfg, reqs[..n]), reqs[n];
      assert !Finishes(db, cfg, last, id);
      FinishedStaysFinished(cfg, reqs, n, id);
      RunLeavesUntouched(cfg, reqs[..n], id);
      RunIsSafe(cfg, reqs[..n]);
      NoCashAccount(db);
      if CallEffect(db, cfg, last).Success? {
        if IsOnboarding(last.call) {
          OnboardingLeavesUntouched(db, cfg, last, id);
        } else {
          MovementLeavesUntouched(db, cfg, last, id);
        }
      }
    }
  }

  lemma NothingTouched(id: string)
    ensures Untouched(EMPTY, id)
  {
  }

  /** Without legacy routes an account whose onboarding was never finished holds nothing and has no transactions. */
  lemma NeverFinishedIsEmpty(cfg: Settings, reqs: seq<Request>, id: string)
    requires AllProper(reqs) && forall req | req in reqs :: !req.call.Legacy()
    requires id in Run(EMPTY, cfg, reqs).accounts && !FinishedIn(cfg, reqs, id)
    ensures var db := Run(EMPTY, cfg, reqs);
            db.accounts[id].balance == 0 && forall t | t in db.txns :: t.account != id
  {
    RunLeavesUntouched(cfg, reqs, id);
    RunIsSafe(cfg, reqs);
    SumOfNothing(Run(EMPTY, cfg, reqs).txns, OfAccount(id));
  }

  // ---------------------------------------------------------------- accounts per subject

  function Cap(cfg: Settings): int {
    if cfg.maxAccounts > 1 then cfg.maxAccounts else 1
  }

  ghost predicate Capped(db: Db, cfg: Settings) {
    forall subject: string :: |Owned(db.accounts, subject)| <= Cap(cfg)
  }

  lemma OwnedAfter(db: Db, after: Db, cfg: Settings, subject: string, target: string, granted: bool, now: int,
                   other: string)
    requires OnboardingStep(db, after, cfg, subject, target, granted, now)
    ensures Owned(after.accounts, other)
         == if target in db.accounts || other != subject then Owned(db.accounts, other)
            else Owned(db.accounts, other) + {target}
  {
    var before, now' := Owned(db.accounts, other), Owned(after.accounts, other);
    forall id ensures id in now' <==> id in before || (id == target && target !in db.accounts && other == subject) {
      if id != target {
        assert id in after.accounts <==> id in db.accounts;
      }
    }
  }

  lemma OnboardingKeepsCap(db: Db, after: Db, cfg: Settings, subject: string, target: string, granted: bool, now: int)
    requires Capped(db, cfg) && OnboardingStep(db, after, cfg, subject, target, granted, now)
    requires target !in db.accounts ==> |Owned(db.accounts, subject)| < Cap(cfg)
    ensures Capped(after, cfg)
  {
    forall other: string ensures |Owned(after.accounts, other)| <= Cap(cfg) {
      OwnedAfter(db, after, cfg, subject, target, granted, now, other);
    }
  }

  lemma DraftsFitTheCap(db: Db, cfg: Settings, req: Request)
    requires IsOnboarding(req.call) && CallEffect(db, cfg, req).Success?
    requires Target(db, cfg, req.call, req.now) !in db.accounts
    ensures |Owned(db.accounts, req.call.subject)| < Cap(cfg)
  {
    if !req.call.OpenAdditional? {
      ResolveShape(db, cfg, req.call.subject, req.call.id, req.call.draw, req.now);
    }
  }

  lemma StepKeepsCap(db: Db, cfg: Settings, req: Request)
    requires Capped(db, cfg) && SYS_CASH !in db.accounts && Proper(req.call)
    ensures Capped(Apply(db, cfg, req), cfg)
  {
    hide CallEffect, Target, Capped, OnboardingStep;
    var after := Apply(db, cfg, req);
    if !IsOnboarding(req.call) {
      OthersKeepSessions(db, cfg, req);
      SameOwners(db, after, cfg);
    } else if CallEffect(db, cfg, req).Success? {
      var target := Target(db, cfg, req.call, req.now);
      OnboardingShape(db, cfg, req);
      if target !in db.accounts { DraftsFitTheCap(db, cfg, req); }
      OnboardingKeepsCap(db, after, cfg, req.call.subject, target, |after.journals| > |db.journals|, req.now);
    }
  }

  lemma SameOwners(db: Db, after: Db, cfg: Settings)
    requires Capped(db, cfg) && MoneyOnly(db, after)
    ensures Capped(after, cfg)
  {
    forall subject: string ensures Owned(after.accounts, subject) == Owned(db.accounts, subject) {
    }
  }

  lemma {:induction false} RunKeepsCap(cfg: Settings, reqs: seq<Request>)
    requires AllProper(reqs)
    ensures Capped(Run(EMPTY, cfg, reqs), cfg)
  {
    hide Apply, Safe;
    if reqs == [] {
      assert forall subject: string :: Owned(EMPTY.accounts, subject) == {};
    } else {
      var front := reqs[..|reqs| - 1];
      RunKeepsCap(cfg, front);
      RunIsSafe(cfg, front);
      NoCashAccount(Run(EMPTY, cfg, front));
      StepKeepsCap(Run(EMPTY, cfg, front), cfg, reqs[|reqs| - 1]);
    }
  }

  function GrantedTotal(db: Db): string -> int {
    (id: string) => Sum(db.txns, GrantedTo(id))
  }

  lemma {:induction false} GrantedAmount(txns: seq<Txn>, cfg: Settings, id: string)
    requires forall t | t in txns && t.kind == DemoGrant :: t.amount == cfg.welcome
    ensures Sum(txns, GrantedTo(id)) == Sum(txns, GrantCount(id)) * cfg.welcome
  {
    if txns == [] {
    } else {
      var front, last := txns[..|txns| - 1], txns[|txns| - 1];
      GrantedAmount(front, cfg, id);
      assert (Sum(front, GrantCount(id)) + 1) * cfg.welcome == Sum(front, GrantCount(id)) * cfg.welcome + cfg.welcome;
    }
  }

  lemma OneGrantAtMost(db: Db, cfg: Settings, id: string)
    requires GrantedOnce(db, cfg)
    ensures GrantedTotal(db)(id) <= PositivePart(cfg.welcome)
  {
    GrantedAmount(db.txns, cfg, id);
    CountIsPositive(db.txns, id);
    var count := Sum(db.txns, GrantCount(id));
    assert count == 0 || count == 1;
    if count == 1 {
      var i :| 0 <= i < |db.txns| && IsGrantTo(db.txns[i], id);
      assert db.txns[i] in db.txns;
    }
  }

  function PositivePart(x: int): int {
    if x > 0 then x else 0
  }

  lemma ScaledBound(a: nat, b: int, c: int)
    requires a <= b && c >= 0
    ensures a * c <= b * c
  {
  }

  /** A subject never receives more than the cap times the welcome amount, whatever is run. */
  lemma GrantsPerSubject(cfg: Settings, reqs: seq<Request>, subject: string)
    requires AllProper(reqs)
    ensures var db := Run(EMPTY, cfg, reqs);
            SetSum(Owned(db.accounts, subject), GrantedTotal(db)) <= Cap(cfg) * PositivePart(cfg.welcome)
  {
    var db := Run(EMPTY, cfg, reqs);
    RunGrantsAtMostOnce(cfg, reqs);
    RunKeepsCap(cfg, reqs);
    var mine := Owned(db.accounts, subject);
    forall id | id in mine ensures GrantedTotal(db)(id) <= PositivePart(cfg.welcome) {
      OneGrantAtMost(db, cfg, id);
    }
    SetSumBounded(mine, GrantedTotal(db), PositivePart(cfg.welcome));
    ScaledBound(|mine|, Cap(cfg), PositivePart(cfg.welcome));
  }

  // ---------------------------------------------------------------- account numbers

  /** Numbers are unique and at least `start`; owned accounts always carry a number and a one-character digit. */
  ghost predicate WellNumbered(db: Db, cfg: Settings) {
    && Recipient.NumbersAreUnique(db.accounts)
    && (forall id | id in db.accounts && db.accounts[id].number.Some? ::
          db.accounts[id].number.value >= cfg.numberStart)
    && (forall id | id in db.accounts && db.accounts[id].owner.Some? ::
          db.accounts[id].number.Some? && db.accounts[id].digit.Some? && db.accounts[id].digit.value < 10)
  }

  lemma OnboardingKeepsNumbers(db: Db, after: Db, cfg: Settings, subject: string, target: string, granted: bool,
                               now: int)
    requires WellNumbered(db, cfg) && OnboardingStep(db, after, cfg, subject, target, granted, now)
    ensures WellNumbered(after, cfg)
  {
    assert forall id | id in after.accounts && id != target :: id in db.accounts;
    if target in db.accounts {
      assert after.accounts[target].number == db.accounts[target].number;
    } else {
      assert after.accounts[target].number == Some(NextNumber(db.accounts, None, cfg.numberStart));
    }
  }

  lemma {:induction false} RunNumbersAccounts(cfg: Settings, reqs: seq<Request>)
    requires AllProper(reqs)
    ensures WellNumbered(Run(EMPTY, cfg, reqs), cfg)
  {
    if reqs == [] {
    } else {
      var db, req := Run(EMPTY, cfg, reqs[..|reqs| - 1]), reqs[|reqs| - 1];
      var after := Apply(db, cfg, req);
      RunNumbersAccounts(cfg, reqs[..|reqs| - 1]);
      RunIsSafe(cfg, reqs[..|reqs| - 1]);
      if IsOnboarding(req.call) && CallEffect(db, cfg, req).Success? {
        OnboardingShape(db, cfg, req);
        OnboardingKeepsNumbers(db, after, cfg, req.call.subject, Target(db, cfg, req.call, req.now),
                               |after.journals| > |db.journals|, req.now);
      } else if !IsOnboarding(req.call) {
        OthersKeepSessions(db, cfg, req);
      }
    }
  }

  predicate HasNumber(accounts: map<string, Account>, id: string) {
    id in accounts && accounts[id].number.Some?
  }

  /** Numbers once issued are kept, and a number issued since is above every earlier one. */
  ghost predicate NumbersGrow(earlier: map<string, Account>, later: map<string, Account>) {
    && (forall id | HasNumber(earlier, id) :: HasNumber(later, id) && later[id].number == earlier[id].number)
    && (forall id, other | HasNumber(later, id) && !HasNumber(earlier, id) && HasNumber(earlier, other) ::
          earlier[other].number.value < later[id].number.value)
  }

  lemma NumbersGrowOn(a: map<string, Account>, b: map<string, Account>, c: map<string, Account>)
    requires NumbersGrow(a, b) && NumbersGrow(b, c)
    ensures NumbersGrow(a, c)
  {
  }

  lemma OnboardingGrowsNumbers(db: Db, after: Db, cfg: Settings, subject: string, target: string, granted: bool,
                               now: int)
    requires WellNumbered(db, cfg) && OnboardingStep(db, after, cfg, subject, target, granted, now)
    ensures NumbersGrow(db.accounts, after.accounts)
  {
    if target in db.accounts {
      assert after.accounts[target].number == db.accounts[target].number;
    } else {
      assert after.accounts[target].number == Some(NextNumber(db.accounts, None, cfg.numberStart));
    }
  }

  lemma StepGrowsNumbers(db: Db, cfg: Settings, req: Request)
    requires WellNumbered(db, cfg) && SYS_CASH !in db.accounts && Proper(req.call)
    ensures NumbersGrow(db.accounts, Apply(db, cfg, req).accounts)
  {
    hide CallEffect, Target, WellNumbered;
    var after := Apply(db, cfg, req);
    if IsOnboarding(req.call) && CallEffect(db, cfg, req).Success? {
      OnboardingShape(db, cfg, req);
      OnboardingGrowsNumbers(db, after, cfg, req.call.subject, Target(db, cfg, req.call, req.now),
                             |after.journals| > |db.journals|, req.now);
    } else if !IsOnboarding(req.call) {
      OthersKeepSessions(db, cfg, req);
    }
  }

  /** Issued numbers strictly increase: whatever is run after a cut keeps the numbers issued before it, and issues only
      greater ones. */
  lemma {:induction false} RunIssuesIncreasingNumbers(cfg: Settings, reqs: seq<Request>, cut: nat)
    requires AllProper(reqs) && cut <= |reqs|
    ensures NumbersGrow(Run(EMPTY, cfg, reqs[..cut]).accounts, Run(EMPTY, cfg, reqs).accounts)
  {
    hide Apply, NumbersGrow, WellNumbered, Safe;
    if cut == |reqs| {
      assert reqs[..cut] == reqs;
      NumbersStay(Run(EMPTY, cfg, reqs).accounts);
    } else {
      var n := |reqs| - 1;
      var db := Run(EMPTY, cfg, reqs[..n]);
      RunIssuesIncreasingNumbers(cfg, reqs[..n], cut);
      assert reqs[..n][..cut] == reqs[..cut];
      RunNumbersAccounts(cfg, reqs[..n]);
      RunIsSafe(cfg, reqs[..n]);
      NoCashAccount(db);
      StepGrowsNumbers(db, cfg, reqs[n]);
      NumbersGrowOn(Run(EMPTY, cfg, reqs[..cut]).accounts, db.accounts, Run(EMPTY, cfg, reqs).accounts);
    }
  }

  lemma NumbersStay(accounts: map<string, Account>)
    ensures NumbersGrow(accounts, accounts)
  {
  }

  /** In every run the display of an owned active account leads back to it, hyphenated or not. */
  lemma DisplaysResolve(cfg: Settings, reqs: seq<Request>, id: string)
    requires AllProper(reqs)
    requires var db := Run(EMPTY, cfg, reqs);
             id in db.accounts && db.accounts[id].owner.Some? && db.accounts[id].active
    ensures var db := Run(EMPTY, cfg, reqs);
            var number, digit := db.accounts[id].number, db.accounts[id].digit;
            && number.Some? && digit.Some? && number.value >= cfg.numberStart
            && Recipient.Resolve(db, Some(Validation.FormatAccountDisplay(number.value, digit.value)), None)
               == Success(id)
            && Recipient.Resolve(db, Some(Digits.ToText(number.value) + Digits.ToText(digit.value)), None)
               == Success(id)
  {
    RunNumbersAccounts(cfg, reqs);
    Recipient.DisplayFindsItsAccount(Run(EMPTY, cfg, reqs), id);
  }
}
