/** What the middleware alone promises: movements without a ledger key, as the legacy routes make them. */
module Commits {
  import opened Prelude
  import opened Tables
  import Canonical
  import opened RequestKeys
  import opened KeyLaws
  import opened Idempotency
  import opened Middleware
  import opened Traffic
  import opened Exclusion
  import opened Timing
  import Bank

  // ---------------------------------------------------------------- one commit per key and record life

  /** A guarded request whose transaction commits is answered below 400. */
  ghost predicate CommitReported(w: World, cfg: Settings, move: Move) {
    move.Handle? && move.applied && move.visit in w.visits
    && w.visits[move.visit].key.Some? && w.visits[move.visit].pc.Handling?
    && Bank.CallEffect(w.db, cfg, Bank.Request(w.visits[move.visit].call, w.now)).Success?
    ==> move.outcome.Responded? && move.outcome.status < 400
  }

  /** A success that is being recorded gets its record; an error after the write does no harm. */
  predicate SuccessRecorded(w: World, move: Move) {
    move.StoreCall? && move.visit in w.visits ==> Recording(w.visits[move.visit].pc, move.fault)
  }

  predicate Recording(pc: Pc, fault: Fault) {
    (pc.Storing? ==> fault.Fine?) && (pc.Writing? ==> fault.Done())
  }

  ghost predicate Reliable(cfg: Settings, ttl: Ttl, moves: seq<Move>) {
    && PunctualRun(cfg, ttl, moves)
    && forall i | 0 <= i < |moves| ::
         && CommitReported(After(cfg, ttl, moves[..i]), cfg, moves[i])
         && SuccessRecorded(After(cfg, ttl, moves[..i]), moves[i])
  }

  predicate CommittedUnder(w: World, i: nat, key: RequestKey) {
    && i < |w.served| && w.served[i].committed
    && w.served[i].visit in w.visits && w.visits[w.served[i].visit].key == Some(key)
  }

  /** A commit is being recorded, is on record for a record's life, or is older than that. */
  predicate Accounted(w: World, ttl: Ttl, i: nat, key: RequestKey)
    requires CommittedUnder(w, i, key)
  {
    var time, pc := w.served[i].request.now, w.visits[w.served[i].visit].pc;
    || time + ttl.completed <= w.now
    || pc.Storing? || pc.Writing?
    || (key in w.entries && w.entries[key].record.status.Completed? && w.entries[key].expiry >= time + ttl.completed)
  }

  ghost predicate AllAccounted(w: World, ttl: Ttl) {
    && (forall i | 0 <= i < |w.served| ::
          && w.served[i].visit in w.visits && !NotYetServed(w.visits[w.served[i].visit].pc)
          && w.served[i].request.now <= w.now)
    && (forall i: nat, key | CommittedUnder(w, i, key) :: Accounted(w, ttl, i, key))
  }

  ghost predicate Apart(w: World, ttl: Ttl) {
    forall i: nat, j: nat, key | i < j && CommittedUnder(w, i, key) && CommittedUnder(w, j, key) ::
      w.served[j].request.now >= w.served[i].request.now + ttl.completed
  }

  /** One commit, and one store call of any visit. */
  lemma StoreCallKeepsAccount(w: World, p: nat, fault: Fault, ttl: Ttl, i: nat, key: RequestKey)
    requires Exclusive(w, ttl) && AllAccounted(w, ttl) && CommittedUnder(w, i, key)
    requires p in w.visits && w.visits[p].key.Some? && AtStore(w.visits[p].pc)
    requires Recording(w.visits[p].pc, fault)
    ensures CommittedUnder(CallStore(w, p, fault, ttl), i, key) && Accounted(CallStore(w, p, fault, ttl), ttl, i, key)
  {
    assert Accounted(w, ttl, i, key);
    var q := w.served[i].visit;
    if w.visits[p].key != Some(key) {
      OtherKeysKept(w, p, fault, ttl, key);
    } else if p != q && InFlight(w.visits[q]) {
      assert HoldsLock(w, ttl, w.visits[q]);
      assert !InFlight(w.visits[p]);
    } else if InFlight(w.visits[p]) {
      assert HoldsLock(w, ttl, w.visits[p]);
    }
  }

  lemma StoreCallKeepsAccounts(w: World, p: nat, fault: Fault, ttl: Ttl)
    requires Exclusive(w, ttl) && AllAccounted(w, ttl)
    requires p in w.visits && w.visits[p].key.Some? && AtStore(w.visits[p].pc)
    requires Recording(w.visits[p].pc, fault)
    ensures AllAccounted(CallStore(w, p, fault, ttl), ttl)
  {
    var after := CallStore(w, p, fault, ttl);
    assert !NotYetServed(w.visits[p].pc) ==> !NotYetServed(after.visits[p].pc);
    forall i: nat, key | CommittedUnder(after, i, key) ensures Accounted(after, ttl, i, key) {
      assert CommittedUnder(w, i, key);
      StoreCallKeepsAccount(w, p, fault, ttl, i, key);
    }
  }

  /** A new commit finds every earlier one under its key at least a record's life behind. */
  lemma HandlingMeansSpent(w: World, ttl: Ttl, p: nat, i: nat, key: RequestKey)
    requires Exclusive(w, ttl) && AllAccounted(w, ttl) && CommittedUnder(w, i, key)
    requires p in w.visits && w.visits[p].key == Some(key) && w.visits[p].pc.Handling?
    ensures w.served[i].request.now + ttl.completed <= w.now
  {
    assert Accounted(w, ttl, i, key);
    assert InFlight(w.visits[p]) && HoldsLock(w, ttl, w.visits[p]);
  }

  lemma HandleKeepsAccounts(w: World, cfg: Settings, ttl: Ttl, move: Move)
    requires Exclusive(w, ttl) && AllAccounted(w, ttl) && Apart(w, ttl) && CommitReported(w, cfg, move)
    requires move.Handle? && move.visit in w.visits && w.visits[move.visit].pc.Handling?
    ensures AllAccounted(Next(w, cfg, ttl, move), ttl) && Apart(Next(w, cfg, ttl, move), ttl)
  {
    hide Bank.CallEffect, Bank.Apply;
    var after := Next(w, cfg, ttl, move);
    forall i: nat, key | CommittedUnder(after, i, key)
      ensures i < |w.served| ==> CommittedUnder(w, i, key) && w.served[i].visit != move.visit
      ensures Accounted(after, ttl, i, key)
    {
      if i < |w.served| {
        assert Accounted(w, ttl, i, key);
      }
    }
    forall i: nat, j: nat, key | i < j && CommittedUnder(after, i, key) && CommittedUnder(after, j, key)
      ensures after.served[j].request.now >= after.served[i].request.now + ttl.completed
    {
      if j == |w.served| {
        HandlingMeansSpent(w, ttl, move.visit, i, key);
      }
    }
  }

  lemma StepKeepsAccounts(w: World, cfg: Settings, ttl: Ttl, move: Move)
    requires Exclusive(w, ttl) && AllAccounted(w, ttl) && Apart(w, ttl)
    requires CommitReported(w, cfg, move) && SuccessRecorded(w, move) && !move.Lose?
    ensures AllAccounted(Next(w, cfg, ttl, move), ttl) && Apart(Next(w, cfg, ttl, move), ttl)
  {
    hide CallStore, RunHandler, Exclusive, CommitReported;
    var after := Next(w, cfg, ttl, move);
    match move {
      case Handle(p, _, _) =>
        if p in w.visits && w.visits[p].pc.Handling? {
          HandleKeepsAccounts(w, cfg, ttl, move);
        }
      case StoreCall(p, fault) =>
        if p in w.visits && w.visits[p].key.Some? && AtStore(w.visits[p].pc) {
          StoreCallKeepsAccounts(w, p, fault, ttl);
          StoreCallServesNobody(w, p, fault, ttl);
        }
      case Arrive(_, _, _) =>
        forall i: nat, key | CommittedUnder(after, i, key) ensures CommittedUnder(w, i, key) {
        }
      case Wait(_) =>
        forall i: nat, key | CommittedUnder(after, i, key) ensures CommittedUnder(w, i, key) {
        }
      case Lose(_) =>
    }
  }

  lemma StoreCallServesNobody(w: World, p: nat, fault: Fault, ttl: Ttl)
    requires p in w.visits && w.visits[p].key.Some? && AtStore(w.visits[p].pc) && Apart(w, ttl)
    ensures Apart(CallStore(w, p, fault, ttl), ttl)
  {
    var after := CallStore(w, p, fault, ttl);
    forall i: nat, key | CommittedUnder(after, i, key) ensures CommittedUnder(w, i, key) {
    }
  }

  lemma ReliableFront(cfg: Settings, ttl: Ttl, moves: seq<Move>, n: nat)
    requires Reliable(cfg, ttl, moves) && n <= |moves|
    ensures Reliable(cfg, ttl, moves[..n])
  {
    hide After, Punctual, CommitReported, SuccessRecorded;
    PunctualFront(cfg, ttl, moves, n);
    forall i | 0 <= i < n
      ensures CommitReported(After(cfg, ttl, moves[..n][..i]), cfg, moves[..n][i])
      ensures SuccessRecorded(After(cfg, ttl, moves[..n][..i]), moves[..n][i])
    {
      assert moves[..n][..i] == moves[..i];
    }
  }

  lemma {:induction false} ReliableRunsAccount(cfg: Settings, ttl: Ttl, moves: seq<Move>)
    requires Reliable(cfg, ttl, moves)
    ensures AllAccounted(After(cfg, ttl, moves), ttl) && Apart(After(cfg, ttl, moves), ttl)
  {
    hide Next, Punctual, CommitReported, SuccessRecorded, Exclusive;
    if moves == [] {
    } else {
      var n := |moves| - 1;
      var w := After(cfg, ttl, moves[..n]);
      ReliableFront(cfg, ttl, moves, n);
      ReliableRunsAccount(cfg, ttl, moves[..n]);
      MutualExclusion(cfg, ttl, moves[..n]);
      assert Punctual(w, ttl, moves[n]) && CommitReported(w, cfg, moves[n]) && SuccessRecorded(w, moves[n]);
      NothingLost(w, ttl, moves[n]);
      StepKeepsAccounts(w, cfg, ttl, moves[n]);
    }
  }

  lemma NothingLost(w: World, ttl: Ttl, move: Move)
    requires Punctual(w, ttl, move)
    ensures !move.Lose?
  {
  }

  /** In a punctual run in which commits are reported and successes recorded, two commits under one key are at least a
      completed record's life apart, whatever the bank would have done. */
  lemma CommitsAreALifeApart(cfg: Settings, ttl: Ttl, moves: seq<Move>, i: nat, j: nat, key: RequestKey)
    requires Reliable(cfg, ttl, moves) && i < j
    requires CommittedUnder(After(cfg, ttl, moves), i, key) && CommittedUnder(After(cfg, ttl, moves), j, key)
    ensures var served := After(cfg, ttl, moves).served;
            served[j].request.now >= served[i].request.now + ttl.completed
  {
    hide After;
    ReliableRunsAccount(cfg, ttl, moves);
  }

  // ---------------------------------------------------------------- runs that commit twice

  /** What a run may be relied on for: that commits are reported, and that successes get recorded. */
  datatype Conduct = Conduct(reports: bool, records: bool)

  ghost predicate Behaves(w: World, cfg: Settings, c: Conduct, move: Move) {
    (c.reports ==> CommitReported(w, cfg, move)) && (c.records ==> SuccessRecorded(w, move))
  }

  ghost predicate ConductedRun(cfg: Settings, ttl: Ttl, b: Bounds, c: Conduct, moves: seq<Move>) {
    && RunWithin(cfg, ttl, b, moves)
    && forall i | 0 <= i < |moves| :: Behaves(After(cfg, ttl, moves[..i]), cfg, c, moves[i])
  }

  lemma NoMovesYet(cfg: Settings, ttl: Ttl, b: Bounds, c: Conduct)
    ensures ConductedRun(cfg, ttl, b, c, []) && After(cfg, ttl, []) == QUIET
  {
  }

  lemma Extend(cfg: Settings, ttl: Ttl, b: Bounds, c: Conduct, moves: seq<Move>, move: Move) returns (more: seq<Move>)
    requires ConductedRun(cfg, ttl, b, c, moves)
    requires Within(After(cfg, ttl, moves), b, move) && Behaves(After(cfg, ttl, moves), cfg, c, move)
    ensures more == moves + [move] && ConductedRun(cfg, ttl, b, c, more)
    ensures After(cfg, ttl, more) == Next(After(cfg, ttl, moves), cfg, ttl, move)
  {
    hide RunWithin, Within, After, Next, Behaves;
    more := moves + [move];
    OneMore(cfg, ttl, b, moves, move);
    assert more[..|moves|] == moves;
    forall i | 0 <= i < |more| ensures Behaves(After(cfg, ttl, more[..i]), cfg, c, more[i]) {
      assert i < |moves| ==> more[..i] == moves[..i];
    }
  }

  /** Read and lock a free key. */
  lemma Admit(cfg: Settings, ttl: Ttl, b: Bounds, c: Conduct, moves: seq<Move>, p: nat, key: RequestKey,
              call: Bank.Call)
    returns (more: seq<Move>)
    requires ConductedRun(cfg, ttl, b, c, moves)
    requires var w := After(cfg, ttl, moves); p !in w.visits && !Live(w.entries, key, w.now)
    ensures ConductedRun(cfg, ttl, b, c, more)
    ensures After(cfg, ttl, more) == Entered(After(cfg, ttl, moves), ttl, p, key, call)
  {
    hide After, Next, ConductedRun, Entered;
    var w := After(cfg, ttl, moves);
    more := Extend(cfg, ttl, b, c, moves, Arrive(p, Some(key), call));
    AdmitStages(w, cfg, ttl, p, key, call);
    more := Extend(cfg, ttl, b, c, more, StoreCall(p, Fine));
    more := Extend(cfg, ttl, b, c, more, StoreCall(p, Fine));
    EnterSteps(w, cfg, ttl, p, key, call);
  }

  lemma AdmitStages(w: World, cfg: Settings, ttl: Ttl, p: nat, key: RequestKey, call: Bank.Call)
    requires p !in w.visits && !Live(w.entries, key, w.now)
    ensures var arrived := Next(w, cfg, ttl, Arrive(p, Some(key), call));
            var read := Next(arrived, cfg, ttl, StoreCall(p, Fine));
            SuccessRecorded(arrived, StoreCall(p, Fine)) && SuccessRecorded(read, StoreCall(p, Fine))
  {
  }

  /** The transaction of a visit in flight is run, and its handler answers or dies. */
  lemma Serve(cfg: Settings, ttl: Ttl, b: Bounds, c: Conduct, moves: seq<Move>, p: nat, outcome: Outcome)
    returns (more: seq<Move>)
    requires ConductedRun(cfg, ttl, b, c, moves)
    requires c.reports ==> outcome.Responded? && outcome.status < 400
    requires var w := After(cfg, ttl, moves); p in w.visits && w.visits[p].key.Some? && w.visits[p].pc.Handling?
    ensures ConductedRun(cfg, ttl, b, c, more)
    ensures After(cfg, ttl, more) == RunHandler(After(cfg, ttl, moves), cfg, p, outcome, true)
  {
    hide After, ConductedRun, RunHandler;
    more := Extend(cfg, ttl, b, c, moves, Handle(p, outcome, true));
  }

  /** Two commits of one call under one key, so far apart. */
  predicate CommittedTwice(w: World, key: RequestKey, call: Bank.Call, gap: int) {
    && |w.served| == 2 && CommittedUnder(w, 0, key) && CommittedUnder(w, 1, key)
    && w.served[0].request.call == call
    && w.served[1].request == w.served[0].request.(now := w.served[0].request.now + gap)
    && w.visits[w.served[0].visit].call == call && w.visits[w.served[1].visit].call == call
  }

  lemma DepositsAreTaken(db: Db, cfg: Settings, target: string, units: int, now: int)
    requires units > 0 && target != SYS_CASH
    ensures var req := Bank.Request(Bank.LegacyDeposit(target, units), now);
            && Bank.CallEffect(db, cfg, req).Success?
            && target in Bank.Apply(db, cfg, req).accounts
            && Bank.Apply(db, cfg, req).accounts[target].balance
               == (if target in db.accounts then db.accounts[target].balance else 0) + 100 * units
  {
  }

  const OK := Responded(201, Absent)

  /** A handler outlives its lock, and the next request's commit comes before its own. */
  lemma SlowCommit(cfg: Settings, ttl: Ttl, b: Bounds, c: Conduct, key: RequestKey, target: string, units: int)
    returns (moves: seq<Move>)
    requires 0 < ttl.processing < b.handling && units > 0 && target != SYS_CASH
    ensures ConductedRun(cfg, ttl, b, c, moves)
    ensures CommittedTwice(After(cfg, ttl, moves), key, Bank.LegacyDeposit(target, units), 0)
  {
    hide After, Next, ConductedRun, Bank.Apply, Bank.CallEffect;
    var call := Bank.LegacyDeposit(target, units);
    NoMovesYet(cfg, ttl, b, c);
    moves := Admit(cfg, ttl, b, c, [], 0, key, call);
    moves := Idle(cfg, ttl, b, c, moves, ttl.processing);
    moves := Admit(cfg, ttl, b, c, moves, 1, key, call);
    DepositsAreTaken(After(cfg, ttl, moves).db, cfg, target, units, ttl.processing);
    moves := Serve(cfg, ttl, b, c, moves, 1, OK);
    DepositsAreTaken(After(cfg, ttl, moves).db, cfg, target, units, ttl.processing);
    moves := Serve(cfg, ttl, b, c, moves, 0, OK);
  }

  lemma Idle(cfg: Settings, ttl: Ttl, b: Bounds, c: Conduct, moves: seq<Move>, until: int) returns (more: seq<Move>)
    requires ConductedRun(cfg, ttl, b, c, moves)
    requires var w := After(cfg, ttl, moves); until >= w.now && Within(w, b, Wait(until))
    ensures ConductedRun(cfg, ttl, b, c, more) && After(cfg, ttl, more) == After(cfg, ttl, moves).(now := until)
  {
    hide After, ConductedRun, Within;
    more := Extend(cfg, ttl, b, c, moves, Wait(until));
  }

  /** A success is still being recorded when its lock runs out. */
  lemma SlowRecord(cfg: Settings, ttl: Ttl, b: Bounds, c: Conduct, key: RequestKey, target: string, units: int)
    returns (moves: seq<Move>)
    requires 0 < ttl.processing && LateCompletions(b, ttl) && units > 0 && target != SYS_CASH
    ensures ConductedRun(cfg, ttl, b, c, moves)
    ensures CommittedTwice(After(cfg, ttl, moves), key, Bank.LegacyDeposit(target, units), ttl.processing)
  {
    hide After, Next, ConductedRun, Bank.Apply, Bank.CallEffect;
    var call := Bank.LegacyDeposit(target, units);
    NoMovesYet(cfg, ttl, b, c);
    moves := Admit(cfg, ttl, b, c, [], 0, key, call);
    DepositsAreTaken(After(cfg, ttl, moves).db, cfg, target, units, 0);
    moves := Serve(cfg, ttl, b, c, moves, 0, OK);
    moves := Idle(cfg, ttl, b, c, moves, ttl.processing);
    moves := Admit(cfg, ttl, b, c, moves, 1, key, call);
    DepositsAreTaken(After(cfg, ttl, moves).db, cfg, target, units, ttl.processing);
    moves := Serve(cfg, ttl, b, c, moves, 1, OK);
  }

  /** The handler ends in failure, having touched no money. */
  lemma Fail(cfg: Settings, ttl: Ttl, b: Bounds, c: Conduct, moves: seq<Move>, p: nat) returns (more: seq<Move>)
    requires ConductedRun(cfg, ttl, b, c, moves)
    requires var w := After(cfg, ttl, moves); p in w.visits && w.visits[p].key.Some? && w.visits[p].pc.Handling?
    ensures ConductedRun(cfg, ttl, b, c, more)
    ensures var w := After(cfg, ttl, moves);
            After(cfg, ttl, more) == w.(visits := w.visits[p := w.visits[p].(pc := Releasing(Raised))])
  {
    hide After, ConductedRun;
    more := Extend(cfg, ttl, b, c, moves, Handle(p, Crashed, false));
  }

  lemma Unlock(cfg: Settings, ttl: Ttl, b: Bounds, c: Conduct, moves: seq<Move>, p: nat, key: RequestKey)
    returns (more: seq<Move>)
    requires ConductedRun(cfg, ttl, b, c, moves)
    requires var w := After(cfg, ttl, moves);
             p in w.visits && w.visits[p].key == Some(key) && w.visits[p].pc == Releasing(Raised)
    ensures ConductedRun(cfg, ttl, b, c, more)
    ensures var w := After(cfg, ttl, moves);
            After(cfg, ttl, more)
            == w.(entries := Without(w.entries, key), visits := w.visits[p := w.visits[p].(pc := Finished(Raised))])
  {
    hide After, ConductedRun;
    more := Extend(cfg, ttl, b, c, moves, StoreCall(p, Fine));
  }

  /** A failed request's release comes so late that it removes another's lock. */
  lemma SlowRelease(cfg: Settings, ttl: Ttl, b: Bounds, c: Conduct, key: RequestKey, target: string, units: int)
    returns (moves: seq<Move>)
    requires 0 < ttl.processing < b.releasing && units > 0 && target != SYS_CASH
    ensures ConductedRun(cfg, ttl, b, c, moves)
    ensures CommittedTwice(After(cfg, ttl, moves), key, Bank.LegacyDeposit(target, units), 0)
  {
    hide After, Next, ConductedRun, Bank.Apply, Bank.CallEffect;
    var call := Bank.LegacyDeposit(target, units);
    NoMovesYet(cfg, ttl, b, c);
    moves := Admit(cfg, ttl, b, c, [], 0, key, call);
    moves := Fail(cfg, ttl, b, c, moves, 0);
    moves := Idle(cfg, ttl, b, c, moves, ttl.processing);
    moves := Admit(cfg, ttl, b, c, moves, 1, key, call);
    moves := Unlock(cfg, ttl, b, c, moves, 0, key);
    moves := Admit(cfg, ttl, b, c, moves, 2, key, call);
    DepositsAreTaken(After(cfg, ttl, moves).db, cfg, target, units, ttl.processing);
    moves := Serve(cfg, ttl, b, c, moves, 1, OK);
    DepositsAreTaken(After(cfg, ttl, moves).db, cfg, target, units, ttl.processing);
    moves := Serve(cfg, ttl, b, c, moves, 2, OK);
  }

  /** A commit whose handler then died is released as a failure, and its retry commits at once. */
  lemma UnreportedCommitRepeats(cfg: Settings, ttl: Ttl, b: Bounds, records: bool, key: RequestKey, target: string,
                                units: int)
    returns (moves: seq<Move>)
    requires ttl.processing > 0 && units > 0 && target != SYS_CASH
    ensures ConductedRun(cfg, ttl, b, Conduct(false, records), moves)
    ensures CommittedTwice(After(cfg, ttl, moves), key, Bank.LegacyDeposit(target, units), 0)
  {
    hide After, Next, ConductedRun, Bank.Apply, Bank.CallEffect;
    var c, call := Conduct(false, records), Bank.LegacyDeposit(target, units);
    NoMovesYet(cfg, ttl, b, c);
    moves := Admit(cfg, ttl, b, c, [], 0, key, call);
    DepositsAreTaken(After(cfg, ttl, moves).db, cfg, target, units, 0);
    moves := Serve(cfg, ttl, b, c, moves, 0, Crashed);
    moves := Unlock(cfg, ttl, b, c, moves, 0, key);
    moves := Admit(cfg, ttl, b, c, moves, 1, key, call);
    DepositsAreTaken(After(cfg, ttl, moves).db, cfg, target, units, 0);
    moves := Serve(cfg, ttl, b, c, moves, 1, OK);
  }

  /** The store fails as a success is about to be recorded. */
  lemma FailToRecord(cfg: Settings, ttl: Ttl, b: Bounds, reports: bool, moves: seq<Move>, p: nat)
    returns (more: seq<Move>)
    requires ConductedRun(cfg, ttl, b, Conduct(reports, false), moves)
    requires var w := After(cfg, ttl, moves); p in w.visits && w.visits[p].key.Some? && w.visits[p].pc.Storing?
    ensures ConductedRun(cfg, ttl, b, Conduct(reports, false), more)
    ensures var w := After(cfg, ttl, moves);
            After(cfg, ttl, more) == w.(visits := w.visits[p := w.visits[p].(pc := Finished(StorageError))])
  {
    hide After, ConductedRun;
    more := Extend(cfg, ttl, b, Conduct(reports, false), moves, StoreCall(p, LostBefore));
  }

  /** Every stage of a guarded request ends within its lock's life. */
  predicate Prompt(b: Bounds, ttl: Ttl) {
    b.handling <= ttl.processing && b.releasing <= ttl.processing && !LateCompletions(b, ttl)
  }

  /** A success that could not be recorded is answered 503, and the retry commits again once the lock has run out: the
      deposit is made twice, a lock's life apart, with every stage of both requests instantaneous. */
  lemma UnrecordedCommitRepeats(cfg: Settings, ttl: Ttl, b: Bounds, reports: bool, key: RequestKey, target: string,
                                units: int)
    returns (moves: seq<Move>)
    requires ttl.processing > 0 && units > 0 && target != SYS_CASH
    ensures ConductedRun(cfg, ttl, b, Conduct(reports, false), moves)
    ensures Prompt(b, ttl) ==> PunctualRun(cfg, ttl, moves)
    ensures var w := After(cfg, ttl, moves);
            && CommittedTwice(w, key, Bank.LegacyDeposit(target, units), ttl.processing)
            && 0 in w.visits && w.visits[0].pc == Finished(StorageError)
            && target in w.db.accounts && w.db.accounts[target].balance == 200 * units
  {
    hide After, Next, PunctualRun, RunWithin, ConductedRun, Bank.Apply, Bank.CallEffect;
    var c, call := Conduct(reports, false), Bank.LegacyDeposit(target, units);
    NoMovesYet(cfg, ttl, b, c);
    moves := Admit(cfg, ttl, b, c, [], 0, key, call);
    DepositsAreTaken(EMPTY, cfg, target, units, 0);
    moves := Serve(cfg, ttl, b, c, moves, 0, OK);
    moves := FailToRecord(cfg, ttl, b, reports, moves, 0);
    moves := Idle(cfg, ttl, b, c, moves, ttl.processing);
    moves := Admit(cfg, ttl, b, c, moves, 1, key, call);
    DepositsAreTaken(After(cfg, ttl, moves).db, cfg, target, units, ttl.processing);
    moves := Serve(cfg, ttl, b, c, moves, 1, OK);
    if Prompt(b, ttl) {
      assert RunWithin(cfg, ttl, b, moves) by { ConductedMeansWithin(cfg, ttl, b, c, moves); }
      PunctualWithin(cfg, ttl, b, moves);
    }
  }

  lemma ConductedMeansWithin(cfg: Settings, ttl: Ttl, b: Bounds, c: Conduct, moves: seq<Move>)
    requires ConductedRun(cfg, ttl, b, c, moves)
    ensures RunWithin(cfg, ttl, b, moves)
  {
  }

  // ---------------------------------------------------------------- the exact condition

  /** In time, with commits reported and successes recorded. */
  predicate Protects(b: Bounds, ttl: Ttl, c: Conduct) {
    Prompt(b, ttl) && c.reports && c.records
  }

  lemma ProtectedRunsAreReliable(cfg: Settings, ttl: Ttl, b: Bounds, c: Conduct, moves: seq<Move>)
    requires ConductedRun(cfg, ttl, b, c, moves) && Protects(b, ttl, c) && ttl.processing > 0
    ensures Reliable(cfg, ttl, moves)
  {
    hide RunWithin, PunctualRun, After, CommitReported, SuccessRecorded;
    PunctualWithin(cfg, ttl, b, moves);
    forall i | 0 <= i < |moves|
      ensures CommitReported(After(cfg, ttl, moves[..i]), cfg, moves[i])
      ensures SuccessRecorded(After(cfg, ttl, moves[..i]), moves[i])
    {
      assert Behaves(After(cfg, ttl, moves[..i]), cfg, c, moves[i]);
    }
  }

  /** Whichever condition fails, some run commits any deposit twice under any key, less than a record's life apart. */
  lemma UnprotectedCommitRepeats(cfg: Settings, ttl: Ttl, b: Bounds, c: Conduct, key: RequestKey, target: string,
                                 units: int)
    returns (moves: seq<Move>, gap: int)
    requires 0 < ttl.processing && !Protects(b, ttl, c) && units > 0 && target != SYS_CASH
    ensures ConductedRun(cfg, ttl, b, c, moves) && gap <= ttl.processing
    ensures CommittedTwice(After(cfg, ttl, moves), key, Bank.LegacyDeposit(target, units), gap)
  {
    hide ConductedRun, After, CommittedTwice;
    gap := 0;
    if b.handling > ttl.processing {
      moves := SlowCommit(cfg, ttl, b, c, key, target, units);
    } else if b.releasing > ttl.processing {
      moves := SlowRelease(cfg, ttl, b, c, key, target, units);
    } else if !c.reports {
      moves := UnreportedCommitRepeats(cfg, ttl, b, c.records, key, target, units);
    } else {
      gap := ttl.processing;
      if LateCompletions(b, ttl) {
        moves := SlowRecord(cfg, ttl, b, c, key, target, units);
      } else {
        moves := UnrecordedCommitRepeats(cfg, ttl, b, c.reports, key, target, units);
      }
    }
  }

  ghost predicate AlwaysApart(cfg: Settings, ttl: Ttl, b: Bounds, c: Conduct) {
    forall moves | ConductedRun(cfg, ttl, b, c, moves) :: Apart(After(cfg, ttl, moves), ttl)
  }

  lemma TwiceIsNotApart(w: World, ttl: Ttl, key: RequestKey, call: Bank.Call, gap: int)
    requires CommittedTwice(w, key, call, gap) && gap < ttl.completed
    ensures !Apart(w, ttl)
  {
  }

  /** For every way to bound the stages and every conduct: one commit per key and record life, in all runs that lose no
      record, exactly when all stages fit the lock's life, commits are reported and successes recorded. */
  lemma LifeApartExactly(cfg: Settings, ttl: Ttl, b: Bounds, c: Conduct)
    requires 0 < ttl.processing < ttl.completed
    ensures AlwaysApart(cfg, ttl, b, c) <==> Protects(b, ttl, c)
  {
    hide ConductedRun, After, Apart, CommittedTwice;
    if Protects(b, ttl, c) {
      forall moves | ConductedRun(cfg, ttl, b, c, moves) ensures Apart(After(cfg, ttl, moves), ttl) {
        ProtectedRunsAreReliable(cfg, ttl, b, c, moves);
        ReliableRunsAccount(cfg, ttl, moves);
      }
    } else {
      var key := RequestKey("", "", "", []);
      var moves, gap := UnprotectedCommitRepeats(cfg, ttl, b, c, key, "", 1);
      TwiceIsNotApart(After(cfg, ttl, moves), ttl, key, Bank.LegacyDeposit("", 1), gap);
    }
  }

  // ---------------------------------------------------------------- /event

  /** What `/event` asks the legacy service for. */
  function CallOf(event: Event): Bank.Call {
    match event
    case Deposit(destination, cents) => Bank.LegacyDeposit(destination, cents / 100)
    case Withdraw(origin, cents) => Bank.LegacyWithdraw(origin, cents / 100)
    case Transfer(origin, destination, cents) => Bank.LegacyTransfer(origin, destination, cents / 100)
  }

  /** The visit is a valid, unoverridden `/event` request: its key and its call come from one body. */
  ghost predicate IsEvent(v: Visit) {
    exists body, verb, user ::
      && EventOf(body).Some? && !Overrides(body, EventOf(body).value)
      && v.key.Some? && GenerateKey(EVENT, verb, user, body) == Success(v.key.value)
      && v.call == CallOf(EventOf(body).value)
  }

  lemma SameKeySameCall(a: Visit, b: Visit)
    requires IsEvent(a) && IsEvent(b) && a.key == b.key
    ensures a.call == b.call
  {
    hide GenerateKey, EventOf, Overrides, CallOf;
    var body, verb, user :| EventOf(body).Some? && !Overrides(body, EventOf(body).value)
      && a.key.Some? && GenerateKey(EVENT, verb, user, body) == Success(a.key.value)
      && a.call == CallOf(EventOf(body).value);
    var body', verb', user' :| EventOf(body').Some? && !Overrides(body', EventOf(body').value)
      && b.key.Some? && GenerateKey(EVENT, verb', user', body') == Success(b.key.value)
      && b.call == CallOf(EventOf(body').value);
    KeyNamesRequest(EVENT, verb, user, body, EVENT, verb', user', body');
    EventKeyDeterminesEvent(verb, user, body, body');
  }

  /** Commits of events under one key are the same move, a record's life apart. */
  ghost predicate EventsMoveOnce(w: World, ttl: Ttl) {
    forall i: nat, j: nat, key | i < j && CommittedUnder(w, i, key) && CommittedUnder(w, j, key)
      && IsEvent(w.visits[w.served[i].visit]) && IsEvent(w.visits[w.served[j].visit]) ::
      && w.visits[w.served[j].visit].call == w.visits[w.served[i].visit].call
      && w.served[j].request.now >= w.served[i].request.now + ttl.completed
  }

  ghost predicate AlwaysEventsOnce(cfg: Settings, ttl: Ttl, b: Bounds, c: Conduct) {
    forall moves | ConductedRun(cfg, ttl, b, c, moves) :: EventsMoveOnce(After(cfg, ttl, moves), ttl)
  }

  lemma ApartMeansOnce(w: World, ttl: Ttl)
    requires Apart(w, ttl)
    ensures EventsMoveOnce(w, ttl)
  {
    hide IsEvent;
    forall i: nat, j: nat, key | i < j && CommittedUnder(w, i, key) && CommittedUnder(w, j, key)
      && IsEvent(w.visits[w.served[i].visit]) && IsEvent(w.visits[w.served[j].visit])
      ensures w.visits[w.served[j].visit].call == w.visits[w.served[i].visit].call
      ensures w.served[j].request.now >= w.served[i].request.now + ttl.completed
    {
      SameKeySameCall(w.visits[w.served[i].visit], w.visits[w.served[j].visit]);
    }
  }

  lemma TwiceIsNotOnce(w: World, ttl: Ttl, verb: string, user: string, key: RequestKey, target: string, units: int,
                       gap: int)
    requires EventOf(DepositBody(target, units)) == Some(Event.Deposit(target, 100 * units))
    requires !Overrides(DepositBody(target, units), Event.Deposit(target, 100 * units))
    requires GenerateKey(EVENT, verb, user, DepositBody(target, units)) == Success(key)
    requires CommittedTwice(w, key, Bank.LegacyDeposit(target, units), gap) && gap < ttl.completed
    ensures !EventsMoveOnce(w, ttl)
  {
    hide EventOf, Overrides, GenerateKey;
    assert CommittedUnder(w, 0, key) && CommittedUnder(w, 1, key);
    var body := DepositBody(target, units);
    assert w.visits[w.served[0].visit].call == CallOf(EventOf(body).value);
    assert IsEvent(w.visits[w.served[0].visit]) && IsEvent(w.visits[w.served[1].visit]);
  }

  lemma EventMovesOnce(cfg: Settings, ttl: Ttl, moves: seq<Move>)
    requires Reliable(cfg, ttl, moves)
    ensures EventsMoveOnce(After(cfg, ttl, moves), ttl)
  {
    hide After, Reliable, Apart, EventsMoveOnce;
    ReliableRunsAccount(cfg, ttl, moves);
    ApartMeansOnce(After(cfg, ttl, moves), ttl);
  }

  /** An event moves its money at most once per record life, whoever shares its key asking for the same move, exactly
      under the same condition. */
  lemma EventMovesOnceExactly(cfg: Settings, ttl: Ttl, b: Bounds, c: Conduct)
    requires 0 < ttl.processing < ttl.completed
    ensures AlwaysEventsOnce(cfg, ttl, b, c) <==> Protects(b, ttl, c)
  {
    hide ConductedRun, After, Reliable, EventsMoveOnce, CommittedTwice, EventOf, Overrides, GenerateKey;
    hide Canonical.Rounded;
    if Protects(b, ttl, c) {
      forall moves | ConductedRun(cfg, ttl, b, c, moves) ensures EventsMoveOnce(After(cfg, ttl, moves), ttl) {
        ProtectedRunsAreReliable(cfg, ttl, b, c, moves);
        EventMovesOnce(cfg, ttl, moves);
      }
    } else {
      OneUnitRounds();
      DepositBodyEvent("A", 1, "POST", "");
      var key := GenerateKey(EVENT, "POST", "", DepositBody("A", 1)).value;
      var moves, gap := UnprotectedCommitRepeats(cfg, ttl, b, c, key, "A", 1);
      TwiceIsNotOnce(After(cfg, ttl, moves), ttl, "POST", "", key, "A", 1, gap);
    }
  }
}
