/** Exactly how fast guarded requests must be: when two handlers of one key can meet, and when a completed record is
    final. The lock record names no owner, so what counts is how late its holder may still touch it. */
module Timing {
  import opened Prelude
  import opened RequestKeys
  import opened Idempotency
  import opened Middleware
  import opened Traffic
  import opened Exclusion
  import opened Tables
  import Bank

  /** How long after taking its lock a visit may still be in each stage; completions may be unbounded. */
  datatype Bounds = Bounds(handling: int, releasing: int, completing: Option<int>)

  function Limit(b: Bounds, pc: Pc): Option<int> {
    match pc
    case Handling => Some(b.handling)
    case Releasing(_) => Some(b.releasing)
    case Storing(_, _) => b.completing
    case Writing(_, _, _) => b.completing
    case _ => None
  }

  predicate InTime(b: Bounds, v: Visit, until: int) {
    InFlight(v) && Limit(b, v.pc).Some? ==> until < v.lockedAt + Limit(b, v.pc).value
  }

  /** No record is lost, and time does not run past the bound of any visit in flight. */
  ghost predicate Within(w: World, b: Bounds, move: Move) {
    match move
    case Wait(until) => forall p | p in w.visits :: InTime(b, w.visits[p], until)
    case Lose(_) => false
    case _ => true
  }

  ghost predicate RunWithin(cfg: Settings, ttl: Ttl, b: Bounds, moves: seq<Move>) {
    forall i | 0 <= i < |moves| :: Within(After(cfg, ttl, moves[..i]), b, moves[i])
  }

  predicate Handles(v: Visit, key: RequestKey) {
    v.key == Some(key) && v.pc.Handling?
  }

  ghost predicate OneHandler(w: World) {
    forall p, q, key | p in w.visits && q in w.visits && p != q && Handles(w.visits[p], key) ::
      !Handles(w.visits[q], key)
  }

  // ---------------------------------------------------------------- enough time: the lock is still there

  /** Running the handler, or about to release its lock. */
  predicate Holding(v: Visit) {
    v.key.Some? && (v.pc.Handling? || v.pc.Releasing?)
  }

  /** Some record, not necessarily its own, covers the visit's key until `span` after it took its lock. */
  predicate Covered(w: World, v: Visit, span: int)
    requires v.key.Some?
  {
    Live(w.entries, v.key.value, w.now) && w.entries[v.key.value].expiry >= v.lockedAt + span
  }

  ghost predicate Held(w: World, span: int) {
    && (forall p | p in w.visits && Holding(w.visits[p]) :: Covered(w, w.visits[p], span))
    && (forall p, q | p in w.visits && q in w.visits && p != q && Holding(w.visits[p]) && Holding(w.visits[q]) ::
          w.visits[p].key != w.visits[q].key)
    && (forall key | key in w.entries :: !w.entries[key].record.status.Failed?)
    && (forall p | p in w.visits :: !w.visits[p].pc.Clearing? && w.visits[p].lockedAt <= w.now)
  }

  predicate Fits(b: Bounds, ttl: Ttl, span: int) {
    0 < b.handling <= span && b.releasing <= span && span <= ttl.processing && span <= ttl.completed
  }

  lemma OwnCallHeld(w: World, p: nat, fault: Fault, ttl: Ttl, span: int)
    requires Held(w, span) && 0 < span <= ttl.processing && span <= ttl.completed
    requires p in w.visits && w.visits[p].key.Some? && AtStore(w.visits[p].pc)
    ensures var after := CallStore(w, p, fault, ttl);
            var key := w.visits[p].key.value;
            && !after.visits[p].pc.Clearing? && after.visits[p].lockedAt <= after.now
            && (Holding(after.visits[p]) ==> Covered(after, after.visits[p], span))
            && (Holding(after.visits[p]) && !Holding(w.visits[p]) ==> !Live(w.entries, key, w.now))
            && (!Holding(w.visits[p]) && Live(w.entries, key, w.now) ==>
                  Live(after.entries, key, w.now)
                  && (after.entries[key] == w.entries[key] || after.entries[key].expiry >= w.now + span))
            && (forall other | other in after.entries :: !after.entries[other].record.status.Failed?)
  {
  }

  lemma StoreCallKeepsHeld(w: World, p: nat, fault: Fault, ttl: Ttl, span: int)
    requires Held(w, span) && 0 < span <= ttl.processing && span <= ttl.completed
    requires p in w.visits && w.visits[p].key.Some? && AtStore(w.visits[p].pc)
    ensures Held(CallStore(w, p, fault, ttl), span)
  {
    var after := CallStore(w, p, fault, ttl);
    OwnCallHeld(w, p, fault, ttl, span);
    forall q | q in w.visits && q != p && Holding(w.visits[q])
      ensures Covered(after, w.visits[q], span)
      ensures Holding(after.visits[p]) ==> w.visits[q].key != w.visits[p].key
    {
      if w.visits[q].key != w.visits[p].key {
        OtherKeysKept(w, p, fault, ttl, w.visits[q].key.value);
      }
    }
  }

  lemma StepKeepsHeld(w: World, cfg: Settings, ttl: Ttl, b: Bounds, span: int, move: Move)
    requires Held(w, span) && Fits(b, ttl, span) && Within(w, b, move)
    ensures Held(Next(w, cfg, ttl, move), span)
  {
    hide CallStore, Bank.Apply;
    match move {
      case StoreCall(p, fault) =>
        if p in w.visits && w.visits[p].key.Some? && AtStore(w.visits[p].pc) {
          StoreCallKeepsHeld(w, p, fault, ttl, span);
        }
      case Wait(until) =>
        forall p | p in w.visits && Holding(w.visits[p]) ensures until < w.visits[p].lockedAt + span {
          assert InTime(b, w.visits[p], until);
        }
      case _ =>
    }
  }

  lemma RunWithinFront(cfg: Settings, ttl: Ttl, b: Bounds, moves: seq<Move>, n: nat)
    requires RunWithin(cfg, ttl, b, moves) && n <= |moves|
    ensures RunWithin(cfg, ttl, b, moves[..n])
  {
    hide After, Within;
    forall i | 0 <= i < n ensures Within(After(cfg, ttl, moves[..n][..i]), b, moves[..n][i]) {
      assert moves[..n][..i] == moves[..i];
    }
  }

  lemma {:induction false} TimelyRunsHold(cfg: Settings, ttl: Ttl, b: Bounds, span: int, moves: seq<Move>)
    requires Fits(b, ttl, span) && RunWithin(cfg, ttl, b, moves)
    ensures Held(After(cfg, ttl, moves), span)
  {
    hide Next, Within;
    if moves == [] {
    } else {
      var n := |moves| - 1;
      RunWithinFront(cfg, ttl, b, moves, n);
      TimelyRunsHold(cfg, ttl, b, span, moves[..n]);
      assert Within(After(cfg, ttl, moves[..n]), b, moves[n]);
      StepKeepsHeld(After(cfg, ttl, moves[..n]), cfg, ttl, b, span, moves[n]);
    }
  }

  lemma HeldMeansOneHandler(w: World, span: int)
    requires Held(w, span)
    ensures OneHandler(w)
  {
  }

  // ---------------------------------------------------------------- too little time: runs that fail

  lemma OneMore(cfg: Settings, ttl: Ttl, b: Bounds, moves: seq<Move>, move: Move)
    requires RunWithin(cfg, ttl, b, moves) && Within(After(cfg, ttl, moves), b, move)
    ensures RunWithin(cfg, ttl, b, moves + [move])
    ensures After(cfg, ttl, moves + [move]) == Next(After(cfg, ttl, moves), cfg, ttl, move)
  {
    hide Within, Next;
    var all := moves + [move];
    assert all[..|moves|] == moves;
    forall i | 0 <= i < |all| ensures Within(After(cfg, ttl, all[..i]), b, all[i]) {
      assert i < |moves| ==> all[..i] == moves[..i];
    }
  }

  function Entered(w: World, ttl: Ttl, p: nat, key: RequestKey, call: Bank.Call): World {
    w.(entries := Stored(w.entries, key, ProcessingRecord(key), w.now + ttl.processing),
       visits := w.visits[p := Visit(Some(key), call, Handling, w.now)])
  }

  lemma EnterSteps(w: World, cfg: Settings, ttl: Ttl, p: nat, key: RequestKey, call: Bank.Call)
    requires p !in w.visits && !Live(w.entries, key, w.now)
    ensures Next(Next(Next(w, cfg, ttl, Arrive(p, Some(key), call)), cfg, ttl, StoreCall(p, Fine)), cfg, ttl,
                 StoreCall(p, Fine))
         == Entered(w, ttl, p, key, call)
  {
    var arrived := Next(w, cfg, ttl, Arrive(p, Some(key), call));
    var read := Next(arrived, cfg, ttl, StoreCall(p, Fine));
    assert read == arrived.(visits := arrived.visits[p := Visit(Some(key), call, Locking, w.now)]);
    assert read.visits == w.visits[p := Visit(Some(key), call, Locking, w.now)];
    var locked := Next(read, cfg, ttl, StoreCall(p, Fine));
    assert locked.visits == w.visits[p := Visit(Some(key), call, Handling, w.now)];
  }

  /** Read and lock a free key. */
  lemma Enter(cfg: Settings, ttl: Ttl, b: Bounds, moves: seq<Move>, p: nat, key: RequestKey, call: Bank.Call)
    returns (more: seq<Move>)
    requires RunWithin(cfg, ttl, b, moves)
    requires var w := After(cfg, ttl, moves); p !in w.visits && !Live(w.entries, key, w.now)
    ensures RunWithin(cfg, ttl, b, more)
    ensures After(cfg, ttl, more) == Entered(After(cfg, ttl, moves), ttl, p, key, call)
  {
    hide After, Next, RunWithin, Entered;
    var arrive, command := Arrive(p, Some(key), call), StoreCall(p, Fine);
    OneMore(cfg, ttl, b, moves, arrive);
    OneMore(cfg, ttl, b, moves + [arrive], command);
    more := moves + [arrive] + [command] + [command];
    OneMore(cfg, ttl, b, moves + [arrive] + [command], command);
    EnterSteps(After(cfg, ttl, moves), cfg, ttl, p, key, call);
  }

  /** The handler of a visit in flight ends, without having touched the bank. */
  lemma End(cfg: Settings, ttl: Ttl, b: Bounds, moves: seq<Move>, p: nat, outcome: Outcome) returns (more: seq<Move>)
    requires RunWithin(cfg, ttl, b, moves)
    requires var w := After(cfg, ttl, moves); p in w.visits && w.visits[p].key.Some? && w.visits[p].pc.Handling?
    ensures RunWithin(cfg, ttl, b, more)
    ensures var w := After(cfg, ttl, moves);
            After(cfg, ttl, more) == w.(visits := w.visits[p := w.visits[p].(pc := AfterHandler(outcome))])
  {
    hide After, RunWithin;
    OneMore(cfg, ttl, b, moves, Handle(p, outcome, false));
    more := moves + [Handle(p, outcome, false)];
  }

  lemma Pass(cfg: Settings, ttl: Ttl, b: Bounds, moves: seq<Move>, until: int) returns (more: seq<Move>)
    requires RunWithin(cfg, ttl, b, moves)
    requires var w := After(cfg, ttl, moves); until >= w.now && Within(w, b, Wait(until))
    ensures RunWithin(cfg, ttl, b, more) && After(cfg, ttl, more) == After(cfg, ttl, moves).(now := until)
  {
    hide After, RunWithin, Within;
    OneMore(cfg, ttl, b, moves, Wait(until));
    more := moves + [Wait(until)];
  }

  lemma Release(cfg: Settings, ttl: Ttl, b: Bounds, moves: seq<Move>, p: nat, key: RequestKey)
    returns (more: seq<Move>)
    requires RunWithin(cfg, ttl, b, moves)
    requires var w := After(cfg, ttl, moves);
             p in w.visits && w.visits[p].key == Some(key) && w.visits[p].pc == Releasing(Raised)
    ensures RunWithin(cfg, ttl, b, more)
    ensures var w := After(cfg, ttl, moves);
            After(cfg, ttl, more)
            == w.(entries := Without(w.entries, key), visits := w.visits[p := w.visits[p].(pc := Finished(Raised))])
  {
    hide After, RunWithin;
    OneMore(cfg, ttl, b, moves, StoreCall(p, Fine));
    more := moves + [StoreCall(p, Fine)];
  }

  function Recorded(w: World, ttl: Ttl, p: nat, key: RequestKey, status: nat): World
    requires p in w.visits
  {
    w.(entries := Stored(w.entries, key, CompletedRecord(Got(w.entries, key, w.now), status, Absent),
                         w.now + ttl.completed),
       visits := w.visits[p := w.visits[p].(pc := Finished(Fresh(status, Absent)))])
  }

  lemma RecordSteps(w: World, cfg: Settings, ttl: Ttl, p: nat, key: RequestKey, status: nat)
    requires p in w.visits && w.visits[p].key == Some(key) && w.visits[p].pc == Storing(status, Absent)
    ensures Next(Next(w, cfg, ttl, StoreCall(p, Fine)), cfg, ttl, StoreCall(p, Fine))
         == Recorded(w, ttl, p, key, status)
  {
    var read := Next(w, cfg, ttl, StoreCall(p, Fine));
    var writing := Writing(status, Absent, Got(w.entries, key, w.now));
    assert read == w.(visits := w.visits[p := w.visits[p].(pc := writing)]);
    var wrote := Next(read, cfg, ttl, StoreCall(p, Fine));
    assert wrote.visits == w.visits[p := w.visits[p].(pc := Finished(Fresh(status, Absent)))];
  }

  function RecordMoves(p: nat): seq<Move> {
    [StoreCall(p, Fine)] + [StoreCall(p, Fine)]
  }

  /** The two store calls that record a success. */
  lemma WriteRecord(cfg: Settings, ttl: Ttl, b: Bounds, moves: seq<Move>, p: nat, key: RequestKey, status: nat)
    requires RunWithin(cfg, ttl, b, moves)
    requires var w := After(cfg, ttl, moves);
             p in w.visits && w.visits[p].key == Some(key) && w.visits[p].pc == Storing(status, Absent)
    ensures var more := moves + RecordMoves(p);
            RunWithin(cfg, ttl, b, more)
            && After(cfg, ttl, more) == Recorded(After(cfg, ttl, moves), ttl, p, key, status)
  {
    hide After, RunWithin, Next, Recorded;
    OneMore(cfg, ttl, b, moves, StoreCall(p, Fine));
    OneMore(cfg, ttl, b, moves + [StoreCall(p, Fine)], StoreCall(p, Fine));
    RecordSteps(After(cfg, ttl, moves), cfg, ttl, p, key, status);
    assert moves + RecordMoves(p) == moves + [StoreCall(p, Fine)] + [StoreCall(p, Fine)];
  }

  lemma NothingYet(cfg: Settings, ttl: Ttl, b: Bounds)
    ensures RunWithin(cfg, ttl, b, []) && After(cfg, ttl, []) == QUIET
  {
  }

  const KEY := RequestKey("", "", "", [])
  const CALL := Bank.LegacyDeposit("", 0)

  lemma TwoHandlers(w: World, p: nat, q: nat, key: RequestKey)
    requires p in w.visits && q in w.visits && p != q && Handles(w.visits[p], key) && Handles(w.visits[q], key)
    ensures !OneHandler(w)
  {
  }

  /** A handler that outlives its lock meets the next one. */
  lemma SlowHandler(cfg: Settings, ttl: Ttl, b: Bounds) returns (moves: seq<Move>)
    requires 0 < ttl.processing < b.handling
    ensures RunWithin(cfg, ttl, b, moves) && !OneHandler(After(cfg, ttl, moves))
  {
    hide After, RunWithin;
    NothingYet(cfg, ttl, b);
    var one := Enter(cfg, ttl, b, [], 0, KEY, CALL);
    var late := Pass(cfg, ttl, b, one, ttl.processing);
    moves := Enter(cfg, ttl, b, late, 1, KEY, CALL);
    TwoHandlers(After(cfg, ttl, moves), 0, 1, KEY);
  }

  /** A release after the lock ran out removes the next request's lock, and then two handlers of one key run at once,
      although every handler ended in time. */
  lemma LateReleaseBreaksExclusion(cfg: Settings, ttl: Ttl, b: Bounds, key: RequestKey, call: Bank.Call)
    returns (moves: seq<Move>)
    requires 0 < ttl.processing < b.releasing
    ensures RunWithin(cfg, ttl, b, moves)
    ensures var w := After(cfg, ttl, moves);
            && 1 in w.visits && w.visits[1].call == call && Handles(w.visits[1], key)
            && 2 in w.visits && w.visits[2].call == call && Handles(w.visits[2], key)
  {
    hide After, RunWithin;
    NothingYet(cfg, ttl, b);
    var one := Enter(cfg, ttl, b, [], 0, key, call);
    var failed := End(cfg, ttl, b, one, 0, Crashed);
    var late := Pass(cfg, ttl, b, failed, ttl.processing);
    var two := Enter(cfg, ttl, b, late, 1, key, call);
    var released := Release(cfg, ttl, b, two, 0, key);
    moves := Enter(cfg, ttl, b, released, 2, key, call);
  }

  /** A completion may come after its lock has run out. */
  predicate LateCompletions(b: Bounds, ttl: Ttl) {
    b.completing.None? || b.completing.value > ttl.processing
  }

  /** A first request completes only after a second one has taken the key: its record replaces the second's lock. */
  lemma LateCompletion(cfg: Settings, ttl: Ttl, b: Bounds, fails: bool) returns (moves: seq<Move>)
    requires ttl.processing > 0 && LateCompletions(b, ttl)
    ensures RunWithin(cfg, ttl, b, moves)
    ensures var w := After(cfg, ttl, moves);
            && w.now == ttl.processing && w.visits.Keys == {0, 1}
            && w.visits[0].pc.Finished?
            && w.visits[1] == Visit(Some(KEY), CALL, if fails then Releasing(Raised) else Handling, ttl.processing)
            && KEY in w.entries && w.entries[KEY].expiry == ttl.processing + ttl.completed
  {
    hide After, RunWithin;
    NothingYet(cfg, ttl, b);
    var one := Enter(cfg, ttl, b, [], 0, KEY, CALL);
    var done := End(cfg, ttl, b, one, 0, Responded(200, Absent));
    var late := Pass(cfg, ttl, b, done, ttl.processing);
    var two := Enter(cfg, ttl, b, late, 1, KEY, CALL);
    if fails {
      two := End(cfg, ttl, b, two, 1, Crashed);
    }
    WriteRecord(cfg, ttl, b, two, 0, KEY, 200);
    moves := two + RecordMoves(0);
  }

  /** If completed records may live shorter than a handler, such a record can expire under it. */
  lemma ShortRecord(cfg: Settings, ttl: Ttl, b: Bounds) returns (moves: seq<Move>)
    requires ttl.processing > 0 && LateCompletions(b, ttl) && b.handling > 0 && b.handling > ttl.completed
    ensures RunWithin(cfg, ttl, b, moves) && !OneHandler(After(cfg, ttl, moves))
  {
    hide After, RunWithin;
    var one := LateCompletion(cfg, ttl, b, false);
    var late := Pass(cfg, ttl, b, one, ttl.processing + if ttl.completed > 0 then ttl.completed else 0);
    moves := Enter(cfg, ttl, b, late, 2, KEY, CALL);
    TwoHandlers(After(cfg, ttl, moves), 1, 2, KEY);
  }

  /** Or shorter than a release. */
  lemma ShortRecordUnderRelease(cfg: Settings, ttl: Ttl, b: Bounds) returns (moves: seq<Move>)
    requires ttl.processing > 0 && LateCompletions(b, ttl) && 0 < ttl.completed < b.releasing
    ensures RunWithin(cfg, ttl, b, moves) && !OneHandler(After(cfg, ttl, moves))
  {
    hide After, RunWithin;
    var one := LateCompletion(cfg, ttl, b, true);
    var late := Pass(cfg, ttl, b, one, ttl.processing + ttl.completed);
    var two := Enter(cfg, ttl, b, late, 2, KEY, CALL);
    var released := Release(cfg, ttl, b, two, 1, KEY);
    moves := Enter(cfg, ttl, b, released, 3, KEY, CALL);
    TwoHandlers(After(cfg, ttl, moves), 2, 3, KEY);
  }

  // ---------------------------------------------------------------- the exact conditions

  ghost predicate AlwaysOneHandler(cfg: Settings, ttl: Ttl, b: Bounds) {
    forall moves | RunWithin(cfg, ttl, b, moves) :: OneHandler(After(cfg, ttl, moves))
  }

  lemma PunctualWithin(cfg: Settings, ttl: Ttl, b: Bounds, moves: seq<Move>)
    requires RunWithin(cfg, ttl, b, moves) && ttl.processing > 0
    requires b.handling <= ttl.processing && b.releasing <= ttl.processing
    requires b.completing.Some? && b.completing.value <= ttl.processing
    ensures PunctualRun(cfg, ttl, moves)
  {
    hide After;
    forall i | 0 <= i < |moves| ensures Punctual(After(cfg, ttl, moves[..i]), ttl, moves[i]) {
      var w := After(cfg, ttl, moves[..i]);
      if moves[i].Wait? {
        forall p | p in w.visits && InFlight(w.visits[p])
          ensures moves[i].until < w.visits[p].lockedAt + ttl.processing
        {
          assert InTime(b, w.visits[p], moves[i].until);
        }
      }
    }
  }

  lemma ExclusiveMeansOneHandler(w: World, ttl: Ttl)
    requires Exclusive(w, ttl)
    ensures OneHandler(w)
  {
  }

  /** Handlers and failure releases end within a lock's life; and either completions do too, or handlers and releases
      also end within the life of a completed record, which a late completion may put in the lock's place. */
  predicate Suffices(b: Bounds, ttl: Ttl) {
    && b.handling <= ttl.processing && b.releasing <= ttl.processing
    && (!LateCompletions(b, ttl) || (b.handling <= ttl.completed && b.releasing <= ttl.completed))
  }

  lemma TooSlow(cfg: Settings, ttl: Ttl, b: Bounds) returns (moves: seq<Move>)
    requires ttl.processing > 0 && b.handling > 0 && !Suffices(b, ttl)
    ensures RunWithin(cfg, ttl, b, moves) && !OneHandler(After(cfg, ttl, moves))
  {
    hide RunWithin, OneHandler, After;
    if b.handling > ttl.processing {
      moves := SlowHandler(cfg, ttl, b);
    } else if b.releasing > ttl.processing {
      moves := LateReleaseBreaksExclusion(cfg, ttl, b, KEY, CALL);
      TwoHandlers(After(cfg, ttl, moves), 1, 2, KEY);
    } else if b.handling > ttl.completed {
      moves := ShortRecord(cfg, ttl, b);
    } else {
      moves := ShortRecordUnderRelease(cfg, ttl, b);
    }
  }

  /** Exactly when two handlers of one key never run at once, for every way to bound the stages of a request. */
  lemma HandlerExclusionExactly(cfg: Settings, ttl: Ttl, b: Bounds)
    requires ttl.processing > 0 && b.handling > 0
    ensures AlwaysOneHandler(cfg, ttl, b) <==> Suffices(b, ttl)
  {
    hide RunWithin, OneHandler, After, Held, Exclusive;
    if Suffices(b, ttl) {
      var span := if ttl.processing <= ttl.completed then ttl.processing else ttl.completed;
      forall moves | RunWithin(cfg, ttl, b, moves) ensures OneHandler(After(cfg, ttl, moves)) {
        if LateCompletions(b, ttl) {
          TimelyRunsHold(cfg, ttl, b, span, moves);
          HeldMeansOneHandler(After(cfg, ttl, moves), span);
        } else {
          PunctualWithin(cfg, ttl, b, moves);
          MutualExclusion(cfg, ttl, moves);
          ExclusiveMeansOneHandler(After(cfg, ttl, moves), ttl);
        }
      }
    } else {
      var moves := TooSlow(cfg, ttl, b);
    }
  }

  /** With the deployed lifetimes in order, the bound is the lock's life. */
  lemma HandlerExclusionWithinLock(cfg: Settings, ttl: Ttl, bound: int)
    requires 0 < ttl.processing <= ttl.completed && bound > 0
    ensures AlwaysOneHandler(cfg, ttl, Bounds(bound, bound, None)) <==> bound <= ttl.processing
  {
    HandlerExclusionExactly(cfg, ttl, Bounds(bound, bound, None));
  }

  ghost predicate AlwaysExclusive(cfg: Settings, ttl: Ttl, b: Bounds) {
    forall moves | RunWithin(cfg, ttl, b, moves) :: Exclusive(After(cfg, ttl, moves), ttl)
  }

  /** One request in flight per key, each holding its live lock, exactly when the whole flight fits the lock's life. */
  lemma FlightExclusionExactly(cfg: Settings, ttl: Ttl, bound: int)
    requires ttl.processing > 0
    ensures AlwaysExclusive(cfg, ttl, Bounds(bound, bound, Some(bound))) <==> bound <= ttl.processing
  {
    hide RunWithin, After;
    var b := Bounds(bound, bound, Some(bound));
    if bound > ttl.processing {
      NothingYet(cfg, ttl, b);
      var one := Enter(cfg, ttl, b, [], 0, KEY, CALL);
      var late := Pass(cfg, ttl, b, one, ttl.processing);
      var w := After(cfg, ttl, late);
      assert 0 in w.visits && InFlight(w.visits[0]) && !HoldsLock(w, ttl, w.visits[0]);
    } else {
      forall moves | RunWithin(cfg, ttl, b, moves) ensures Exclusive(After(cfg, ttl, moves), ttl) {
        PunctualWithin(cfg, ttl, b, moves);
        MutualExclusion(cfg, ttl, moves);
      }
    }
  }

  ghost predicate FinalFrom(cfg: Settings, ttl: Ttl, moves: seq<Move>, i: nat, key: RequestKey)
    requires i <= |moves|
  {
    var w, w' := After(cfg, ttl, moves[..i]), After(cfg, ttl, moves);
    CompletedAt(w, key) && w'.now < w.entries[key].expiry ==> Final(w, w', key)
  }

  ghost predicate AlwaysFinal(cfg: Settings, ttl: Ttl, b: Bounds) {
    forall moves, i: nat, key | RunWithin(cfg, ttl, b, moves) && i <= |moves| :: FinalFrom(cfg, ttl, moves, i, key)
  }

  /** A completion that arrives after another request's replaces the record others have been answered from. */
  lemma LateCompletionReplaces(cfg: Settings, ttl: Ttl, b: Bounds) returns (moves: seq<Move>, more: seq<Move>)
    requires 0 < ttl.processing && b.completing.Some? && ttl.processing < b.completing.value && ttl.completed > 0
    ensures RunWithin(cfg, ttl, b, moves + more)
    ensures var w, w' := After(cfg, ttl, moves), After(cfg, ttl, moves + more);
            CompletedAt(w, KEY) && w'.now < w.entries[KEY].expiry && !Final(w, w', KEY)
  {
    hide After, RunWithin;
    NothingYet(cfg, ttl, b);
    var one := Enter(cfg, ttl, b, [], 0, KEY, CALL);
    var done := End(cfg, ttl, b, one, 0, Responded(200, Absent));
    var late := Pass(cfg, ttl, b, done, ttl.processing);
    var two := Enter(cfg, ttl, b, late, 1, KEY, CALL);
    var answered := End(cfg, ttl, b, two, 1, Responded(201, Absent));
    WriteRecord(cfg, ttl, b, answered, 1, KEY, 201);
    moves, more := answered + RecordMoves(1), RecordMoves(0);
    var w := After(cfg, ttl, moves);
    assert w.visits[0].pc == Storing(200, Absent);
    WriteRecord(cfg, ttl, b, moves, 0, KEY, 200);
    assert w.entries[KEY].record.code == Some(201);
    assert After(cfg, ttl, moves + more).entries[KEY].record.code == Some(200);
  }

  /** With handlers and releases in time, completed records are final exactly when completions are in time too. */
  lemma FinalityExactly(cfg: Settings, ttl: Ttl, completing: int)
    requires ttl.processing > 0 && ttl.completed > 0
    ensures AlwaysFinal(cfg, ttl, Bounds(ttl.processing, ttl.processing, Some(completing))) <==>
              completing <= ttl.processing
  {
    hide RunWithin, After, Final;
    var b := Bounds(ttl.processing, ttl.processing, Some(completing));
    if completing > ttl.processing {
      var moves, more := LateCompletionReplaces(cfg, ttl, b);
      assert (moves + more)[..|moves|] == moves;
      assert !FinalFrom(cfg, ttl, moves + more, |moves|, KEY);
    } else {
      forall moves, i: nat, key | RunWithin(cfg, ttl, b, moves) && i <= |moves|
        ensures FinalFrom(cfg, ttl, moves, i, key)
      {
        PunctualWithin(cfg, ttl, b, moves);
        if CompletedAt(After(cfg, ttl, moves[..i]), key)
           && After(cfg, ttl, moves).now < After(cfg, ttl, moves[..i]).entries[key].expiry {
          CompletedIsFinal(cfg, ttl, moves, i, key);
        }
      }
    }
  }
}
