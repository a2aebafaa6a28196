/** At-most-once at the ledger: replays can be dropped from any run without changing what the bank holds. */
module ReplayLaws {
  import opened Prelude
  import opened Errors
  import opened Tables
  import opened OnboardingAccounts
  import opened Onboarding
  import opened LedgerLaws
  import opened Bank
  import opened Steps
  import opened MoneyLaws
  import Ledger
  import Money
  import Transfers
  import Recipient

  predicate MovesMoney(call: Call) {
    call.Transfer? || call.Withdraw?
  }

  /** The ledger key a money movement is filed under. */
  function LedgerKey(call: Call): Option<string>
    requires MovesMoney(call)
  {
    if call.Transfer? then call.key else Some(Transfers.WithdrawKey(call.subject, call.requestId, call.key))
  }

  predicate Posts(db: Db, cfg: Settings, req: Request) {
    |Apply(db, cfg, req).journals| > |db.journals|
  }

  /** A request counts unless it is a money movement that posted nothing. */
  predicate Counts(db: Db, cfg: Settings, req: Request) {
    MovesMoney(req.call) ==> Posts(db, cfg, req)
  }

  /** The run with every replayed or refused movement struck out. */
  function Effective(db: Db, cfg: Settings, reqs: seq<Request>): seq<Request> {
    if reqs == [] then []
    else
      var front, last := reqs[..|reqs| - 1], reqs[|reqs| - 1];
      Effective(db, cfg, front) + (if Counts(Run(db, cfg, front), cfg, last) then [last] else [])
  }

  /** Equal but for the `ledger_accounts` rows, which a replay may still create. */
  predicate Same(a: Db, b: Db) {
    a == b.(ledgerAccounts := a.ledgerAccounts)
  }

  predicate SameResult(a: Result<Db, Error>, b: Result<Db, Error>) {
    match (a, b)
    case (Success(x), Success(y)) => Same(x, y)
    case (Failure(e), Failure(f)) => e == f
    case _ => false
  }

  // ---------------------------------------------------------------- ledger accounts do not matter

  lemma WelcomeSame(a: Db, b: Db, cfg: Settings, id: string, now: int)
    requires Same(a, b)
    ensures SameResult(WelcomeEffect(a, cfg, id, now), WelcomeEffect(b, cfg, id, now))
  {
  }

  lemma FinishSame(a: Db, b: Db, cfg: Settings, subject: string, id: string, holder: Option<Holder>, digit: nat,
                   outcome: Outcome, now: int)
    requires Same(a, b) && id in a.accounts
    ensures SameResult(FinishEffect(a, cfg, subject, id, holder, digit, outcome, now),
                       FinishEffect(b, cfg, subject, id, holder, digit, outcome, now))
  {
    var x := Numbered(WithHolder(a, subject, holder), cfg, id, digit);
    var y := Numbered(WithHolder(b, subject, holder), cfg, id, digit);
    assert Same(x, y);
    WelcomeSame(x, y, cfg, id, now);
    if WelcomeEffect(x, cfg, id, now).Success? {
      WelcomeKeepsAccount(x, cfg, id, now);
      WelcomeKeepsAccount(y, cfg, id, now);
    }
  }

  lemma ResolveSame(a: Db, b: Db, cfg: Settings, subject: string, id: Option<string>, draw: Draw, now: int)
    requires Same(a, b)
    ensures var x, y := ResolveEffect(a, cfg, subject, id, draw, now), ResolveEffect(b, cfg, subject, id, draw, now);
            && x.Success? == y.Success?
            && (x.Success? ==> x.value.1 == y.value.1 && Same(x.value.0, y.value.0)
                               && Same(Prepared(a, cfg, subject, id, draw, now),
                                       Prepared(b, cfg, subject, id, draw, now)))
            && (x.Failure? ==> x.error == y.error)
  {
  }

  lemma SendSame(a: Db, b: Db, origin: string, target: string, cents: int, key: Option<string>, now: int)
    requires Same(a, b) && origin in a.accounts
    ensures SameResult(Transfers.SendEffect(a, origin, target, cents, key, now),
                       Transfers.SendEffect(b, origin, target, cents, key, now))
  {
  }

  lemma PartiesSame(a: Db, b: Db, subject: string, source: Option<string>, destination: Transfers.Destination)
    requires Same(a, b)
    ensures Transfers.Parties(a, subject, source, destination) == Transfers.Parties(b, subject, source, destination)
  {
    assert Transfers.Origin(a, subject, source) == Transfers.Origin(b, subject, source);
    match destination {
      case ById(_) =>
      case ByName(account, document) =>
        assert Recipient.Resolve(a, account, document) == Recipient.Resolve(b, account, document);
    }
  }

  lemma SkipSame(a: Db, b: Db, cfg: Settings, subject: string, id: Option<string>, draw: Draw, now: int)
    requires Same(a, b)
    ensures SameResult(SkipEffect(a, cfg, subject, id, draw, now), SkipEffect(b, cfg, subject, id, draw, now))
  {
    ResolveSame(a, b, cfg, subject, id, draw, now);
    var x := ResolveEffect(a, cfg, subject, id, draw, now);
    if x.Success? {
      var m, n := Prepared(a, cfg, subject, id, draw, now), Prepared(b, cfg, subject, id, draw, now);
      FinishSame(m, n, cfg, subject, x.value.1, if subject in m.holders then None else Some(Holder(None)), draw.digit,
                 SKIP, now);
    }
  }

  lemma CompleteSame(a: Db, b: Db, cfg: Settings, subject: string, form: Form, id: Option<string>, draw: Draw, now: int)
    requires Same(a, b)
    ensures SameResult(CompleteEffect(a, cfg, subject, form, id, draw, now),
                       CompleteEffect(b, cfg, subject, form, id, draw, now))
  {
    ResolveSame(a, b, cfg, subject, id, draw, now);
    var x := ResolveEffect(a, cfg, subject, id, draw, now);
    var document := ValidateForm(form);
    if x.Success? && document.Success? {
      var m, n := Prepared(a, cfg, subject, id, draw, now), Prepared(b, cfg, subject, id, draw, now);
      FinishSame(m, n, cfg, subject, x.value.1, Some(Holder(Some(document.value))), draw.digit, COMPLETION, now);
    }
  }

  lemma DraftingSame(a: Db, b: Db, cfg: Settings, req: Request)
    requires Same(a, b) && (req.call.Start? || req.call.Attach? || req.call.OpenAdditional?)
    ensures SameResult(CallEffect(a, cfg, req), CallEffect(b, cfg, req))
  {
    if !req.call.OpenAdditional? {
      ResolveSame(a, b, cfg, req.call.subject, req.call.id, req.call.draw, req.now);
    }
  }

  lemma TransferSame(a: Db, b: Db, cfg: Settings, req: Request)
    requires Same(a, b) && req.call.Transfer?
    ensures SameResult(CallEffect(a, cfg, req), CallEffect(b, cfg, req))
  {
    var call := req.call;
    PartiesSame(a, b, call.subject, call.source, call.destination);
    var parties := Transfers.Parties(a, call.subject, call.source, call.destination);
    var parsed := Money.ParsePositiveMoney(call.amount);
    if HasText(call.key) && parsed.Success? && parsed.value <= cfg.maxTransfer && parties.Success? {
      SendSame(a, b, parties.value.0, parties.value.1, parsed.value, call.key, req.now);
    }
  }

  lemma LedgerWithdrawSame(a: Db, b: Db, id: string, cents: int, key: Option<string>, now: int)
    requires Same(a, b) && id in a.accounts
    ensures SameResult(Ledger.WithdrawEffect(a, id, cents, key, now), Ledger.WithdrawEffect(b, id, cents, key, now))
  {
  }

  lemma OriginSame(a: Db, b: Db, subject: string)
    requires Same(a, b)
    ensures var origin := Transfers.Origin(a, subject, None);
            origin == Transfers.Origin(b, subject, None) && (origin.Success? ==> origin.value in a.accounts)
  {
  }

  lemma WithdrawSame(a: Db, b: Db, cfg: Settings, req: Request)
    requires Same(a, b) && req.call.Withdraw?
    ensures SameResult(CallEffect(a, cfg, req), CallEffect(b, cfg, req))
  {
    hide Ledger.WithdrawEffect, Transfers.Origin, Transfers.WithdrawKey, Money.ParsePositiveMoney;
    var call := req.call;
    var origin := Transfers.Origin(a, call.subject, None);
    OriginSame(a, b, call.subject);
    var cents := Money.ParsePositiveMoney(call.amount);
    if cents.Success? && origin.Success? {
      LedgerWithdrawSame(a, b, origin.value, cents.value,
                         Some(Transfers.WithdrawKey(call.subject, call.requestId, call.key)), req.now);
    }
  }

  lemma LegacySame(a: Db, b: Db, cfg: Settings, req: Request)
    requires Same(a, b) && req.call.Legacy()
    ensures SameResult(CallEffect(a, cfg, req), CallEffect(b, cfg, req))
  {
  }

  /** No request asks which ledger accounts exist. */
  lemma CallSame(a: Db, b: Db, cfg: Settings, req: Request)
    requires Same(a, b)
    ensures SameResult(CallEffect(a, cfg, req), CallEffect(b, cfg, req))
  {
    match req.call {
      case Start(_, _, _) => DraftingSame(a, b, cfg, req);
      case Attach(_, _, _, _) => DraftingSame(a, b, cfg, req);
      case OpenAdditional(_, _) => DraftingSame(a, b, cfg, req);
      case Skip(subject, id, draw) => SkipSame(a, b, cfg, subject, id, draw, req.now);
      case Complete(subject, form, id, draw) => CompleteSame(a, b, cfg, subject, form, id, draw, req.now);
      case Transfer(_, _, _, _, _) => TransferSame(a, b, cfg, req);
      case Withdraw(_, _, _, _) => WithdrawSame(a, b, cfg, req);
      case LegacyDeposit(_, _) => LegacySame(a, b, cfg, req);
      case LegacyWithdraw(_, _) => LegacySame(a, b, cfg, req);
      case LegacyTransfer(_, _, _) => LegacySame(a, b, cfg, req);
    }
  }

  // ---------------------------------------------------------------- dropping replays

  lemma UncountedChangesNothing(db: Db, cfg: Settings, req: Request)
    requires SYS_CASH !in db.accounts && !Counts(db, cfg, req)
    ensures Same(Apply(db, cfg, req), db)
  {
    if CallEffect(db, cfg, req).Success? {
      if req.call.Transfer? {
        TransferCallShape(db, cfg, req);
      } else {
        WithdrawCallShape(db, cfg, req);
      }
    }
  }

  /** Running only the first successful post of each key, in order, leaves the same accounts, log and ledger. */
  lemma {:induction false} ReplaysCanBeDropped(cfg: Settings, reqs: seq<Request>)
    requires AllProper(reqs)
    ensures Same(Run(EMPTY, cfg, reqs), Run(EMPTY, cfg, Effective(EMPTY, cfg, reqs)))
  {
    if reqs == [] {
    } else {
      var front, last := reqs[..|reqs| - 1], reqs[|reqs| - 1];
      var db, kept := Run(EMPTY, cfg, front), Effective(EMPTY, cfg, front);
      ReplaysCanBeDropped(cfg, front);
      RunIsSafe(cfg, front);
      if Counts(db, cfg, last) {
        assert (kept + [last])[..|kept|] == kept;
        CallSame(db, Run(EMPTY, cfg, kept), cfg, last);
      } else {
        UncountedChangesNothing(db, cfg, last);
        assert kept + [] == kept;
      }
    }
  }

  /** Journals are only appended. */
  lemma JournalsGrow(db: Db, cfg: Settings, req: Request)
    requires SYS_CASH !in db.accounts && Proper(req.call)
    ensures db.journals <= Apply(db, cfg, req).journals
  {
    if CallEffect(db, cfg, req).Success? {
      if IsOnboarding(req.call) {
        OnboardingShape(db, cfg, req);
      } else if req.call.Transfer? {
        TransferCallShape(db, cfg, req);
      } else if req.call.Withdraw? {
        WithdrawCallShape(db, cfg, req);
      }
    }
  }

  lemma {:induction false} JournalsGrowOverRun(cfg: Settings, reqs: seq<Request>, cut: nat)
    requires AllProper(reqs) && cut <= |reqs|
    ensures Run(EMPTY, cfg, reqs[..cut]).journals <= Run(EMPTY, cfg, reqs).journals
  {
    if cut == |reqs| {
      assert reqs[..cut] == reqs;
    } else {
      var front := reqs[..|reqs| - 1];
      JournalsGrowOverRun(cfg, front, cut);
      assert front[..cut] == reqs[..cut];
      RunIsSafe(cfg, front);
      JournalsGrow(Run(EMPTY, cfg, front), cfg, reqs[|reqs| - 1]);
    }
  }

  /** A movement that posts files its journal under its key, and found the key unused. */
  lemma PostingUsesKey(db: Db, cfg: Settings, req: Request)
    requires SYS_CASH !in db.accounts && MovesMoney(req.call) && Posts(db, cfg, req)
    ensures HasText(LedgerKey(req.call))
    ensures Ledger.KeyIndex(db.journals, LedgerKey(req.call).value).None?
    ensures var after := Apply(db, cfg, req).journals;
            |after| == |db.journals| + 1 && after[|db.journals|].key == LedgerKey(req.call)
  {
    if req.call.Transfer? {
      TransferCallShape(db, cfg, req);
    } else {
      WithdrawCallShape(db, cfg, req);
    }
  }

  /** Once a key has moved money it never does again, in any later request of any kind, body or amount. */
  lemma KeyMovesMoneyOnce(cfg: Settings, reqs: seq<Request>, i: nat, j: nat)
    requires AllProper(reqs) && i < j < |reqs|
    requires MovesMoney(reqs[i].call) && MovesMoney(reqs[j].call)
    requires LedgerKey(reqs[i].call) == LedgerKey(reqs[j].call)
    requires Posts(Run(EMPTY, cfg, reqs[..i]), cfg, reqs[i])
    ensures !Posts(Run(EMPTY, cfg, reqs[..j]), cfg, reqs[j])
  {
    var later := Run(EMPTY, cfg, reqs[..j]);
    RunIsSafe(cfg, reqs[..j]);
    JournalStays(cfg, reqs, i, j);
    if Posts(later, cfg, reqs[j]) {
      PostingUsesKey(later, cfg, reqs[j]);
    }
  }

  /** A retry under a used key moves nothing; a withdrawal retry always fails. */
  lemma RetryIsHarmless(db: Db, cfg: Settings, req: Request, j: nat)
    requires SYS_CASH !in db.accounts && MovesMoney(req.call)
    requires j < |db.journals| && HasText(LedgerKey(req.call)) && db.journals[j].key == LedgerKey(req.call)
    ensures Same(Apply(db, cfg, req), db)
    ensures req.call.Withdraw? ==> CallEffect(db, cfg, req).Failure? && Apply(db, cfg, req) == db
  {
    assert Ledger.KeyIndex(db.journals, LedgerKey(req.call).value).Some?;
    if Posts(db, cfg, req) {
      PostingUsesKey(db, cfg, req);
    } else {
      UncountedChangesNothing(db, cfg, req);
    }
    if req.call.Withdraw? && CallEffect(db, cfg, req).Success? {
      WithdrawCallShape(db, cfg, req);
    }
  }

  /** What refuses a transfer before the ledger looks at its key: amount, limit, parties, funds, in this order. */
  function RefusedBefore(db: Db, cfg: Settings, call: Call): Option<Error>
    requires call.Transfer?
  {
    match Money.ParsePositiveMoney(call.amount)
    case Failure(e) => Some(e)
    case Success(cents) =>
      if cents > cfg.maxTransfer then Some(LimitExceeded)
      else match Transfers.Parties(db, call.subject, call.source, call.destination)
        case Failure(e) => Some(e)
        case Success((origin, _)) =>
          if db.accounts[origin].balance - cents < db.accounts[origin].floor then Some(InsufficientFunds(origin))
          else None
  }

  /** A transfer under a used key is a success, and changes nothing, exactly when nothing refuses it before the key:
      it parses, is within the limit, its parties are still there and ready, and the origin could still afford it. */
  lemma TransferRetryOutcome(db: Db, cfg: Settings, req: Request, j: nat)
    requires req.call.Transfer? && j < |db.journals| && HasText(req.call.key) && db.journals[j].key == req.call.key
    ensures match RefusedBefore(db, cfg, req.call)
            case Some(e) => CallEffect(db, cfg, req) == Failure(e)
            case None => CallEffect(db, cfg, req).Success? && Same(CallEffect(db, cfg, req).value, db)
  {
    hide Transfers.Parties, Money.ParsePositiveMoney;
    assert Ledger.KeyIndex(db.journals, req.call.key.value).Some?;
  }

  /** Later in a run the journal of an earlier movement is still there. */
  lemma JournalStays(cfg: Settings, reqs: seq<Request>, i: nat, j: nat)
    requires AllProper(reqs) && i < j < |reqs| && MovesMoney(reqs[i].call)
    requires Posts(Run(EMPTY, cfg, reqs[..i]), cfg, reqs[i])
    ensures var before, later := Run(EMPTY, cfg, reqs[..i]), Run(EMPTY, cfg, reqs[..j]);
            && HasText(LedgerKey(reqs[i].call)) && |before.journals| < |later.journals|
            && later.journals[|before.journals|].key == LedgerKey(reqs[i].call)
  {
    hide CallEffect, LedgerKey;
    RunIsSafe(cfg, reqs[..i]);
    PostingUsesKey(Run(EMPTY, cfg, reqs[..i]), cfg, reqs[i]);
    assert reqs[..i + 1][..i] == reqs[..i];
    assert reqs[..j][..i + 1] == reqs[..i + 1];
    JournalsGrowOverRun(cfg, reqs[..j], i + 1);
  }

  /** Repeating a transfer that went through: its amount and limit still hold, so the answer turns on the parties as
      they are now (an account closed or sent back to onboarding refuses it) and on the origin's funds as they are
      now. */
  lemma RepeatedTransferOutcome(cfg: Settings, reqs: seq<Request>, i: nat, j: nat)
    requires AllProper(reqs) && i < j < |reqs| && reqs[i].call == reqs[j].call && reqs[i].call.Transfer?
    requires Posts(Run(EMPTY, cfg, reqs[..i]), cfg, reqs[i])
    ensures var db, call := Run(EMPTY, cfg, reqs[..j]), reqs[j].call;
            var parsed, r := Money.ParsePositiveMoney(call.amount), CallEffect(db, cfg, reqs[j]);
            && parsed.Success?
            && match Transfers.Parties(db, call.subject, call.source, call.destination)
               case Failure(e) => r == Failure(e)
               case Success((origin, _)) =>
                 if db.accounts[origin].balance - parsed.value < db.accounts[origin].floor
                 then r == Failure(InsufficientFunds(origin))
                 else r.Success? && Same(r.value, db)
  {
    hide CallEffect, Transfers.Parties, Money.ParsePositiveMoney;
    var before, later := Run(EMPTY, cfg, reqs[..i]), Run(EMPTY, cfg, reqs[..j]);
    RunIsSafe(cfg, reqs[..i]);
    TransferCallShape(before, cfg, reqs[i]);
    JournalStays(cfg, reqs, i, j);
    TransferRetryOutcome(later, cfg, reqs[j], |before.journals|);
  }

  ghost predicate KeyedOnce(kept: seq<Request>, journals: seq<Journal>) {
    && (forall i | 0 <= i < |kept| && MovesMoney(kept[i].call) ::
          HasText(LedgerKey(kept[i].call)) && Ledger.KeyIndex(journals, LedgerKey(kept[i].call).value).Some?)
    && (forall i, j | 0 <= i < j < |kept| && MovesMoney(kept[i].call) && MovesMoney(kept[j].call) ::
          LedgerKey(kept[i].call) != LedgerKey(kept[j].call))
  }

  lemma KeysStayUsed(before: seq<Journal>, after: seq<Journal>, key: string)
    requires before <= after && Ledger.KeyIndex(before, key).Some?
    ensures Ledger.KeyIndex(after, key).Some?
  {
    assert after[Ledger.KeyIndex(before, key).value].key == Some(key);
  }

  lemma KeyedOnceStays(kept: seq<Request>, before: seq<Journal>, after: seq<Journal>)
    requires KeyedOnce(kept, before) && before <= after
    ensures KeyedOnce(kept, after)
  {
    hide LedgerKey;
    forall i | 0 <= i < |kept| && MovesMoney(kept[i].call)
      ensures Ledger.KeyIndex(after, LedgerKey(kept[i].call).value).Some? {
      KeysStayUsed(before, after, LedgerKey(kept[i].call).value);
    }
  }

  /** A movement under an unused key joins the effective run with its journal. */
  lemma KeyedOnceGrows(kept: seq<Request>, last: Request, before: seq<Journal>, after: seq<Journal>)
    requires KeyedOnce(kept, before) && before <= after && MovesMoney(last.call) && HasText(LedgerKey(last.call))
    requires Ledger.KeyIndex(before, LedgerKey(last.call).value).None?
    requires |after| == |before| + 1 && after[|before|].key == LedgerKey(last.call)
    ensures KeyedOnce(kept + [last], after)
  {
    hide LedgerKey;
    KeyedOnceStays(kept, before, after);
    assert after[|before|].key == LedgerKey(last.call);
  }

  /** The effective run holds at most one movement per key, each with its journal. */
  lemma {:induction false} EffectiveKeysAreDistinct(cfg: Settings, reqs: seq<Request>)
    requires AllProper(reqs)
    ensures KeyedOnce(Effective(EMPTY, cfg, reqs), Run(EMPTY, cfg, reqs).journals)
  {
    if reqs == [] {
    } else {
      var front, last := reqs[..|reqs| - 1], reqs[|reqs| - 1];
      var db, kept := Run(EMPTY, cfg, front), Effective(EMPTY, cfg, front);
      EffectiveKeysAreDistinct(cfg, front);
      RunIsSafe(cfg, front);
      JournalsGrow(db, cfg, last);
      KeyedOnceJoins(kept, db, cfg, last);
    }
  }

  lemma KeyedOnceJoins(kept: seq<Request>, db: Db, cfg: Settings, last: Request)
    requires KeyedOnce(kept, db.journals) && db.journals <= Apply(db, cfg, last).journals && SYS_CASH !in db.accounts
    ensures KeyedOnce(kept + (if Counts(db, cfg, last) then [last] else []), Apply(db, cfg, last).journals)
  {
    hide CallEffect, LedgerKey, KeyedOnce, Apply;
    var after := Apply(db, cfg, last).journals;
    if !Counts(db, cfg, last) {
      KeyedOnceStays(kept, db.journals, after);
      assert kept + [] == kept;
    } else if MovesMoney(last.call) {
      PostingUsesKey(db, cfg, last);
      KeyedOnceGrows(kept, last, db.journals, after);
    } else {
      KeyedOnceStays(kept, db.journals, after);
      KeyedOnceSkips(kept, last, after);
    }
  }

  lemma KeyedOnceSkips(kept: seq<Request>, last: Request, journals: seq<Journal>)
    requires KeyedOnce(kept, journals) && !MovesMoney(last.call)
    ensures KeyedOnce(kept + [last], journals)
  {
  }
}
