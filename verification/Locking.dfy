/** Row locks of concurrent transactions: sorted acquisition cannot deadlock; origin-first acquisition can, exactly when
    some transfer goes from a greater account id to a smaller one. */
module Locking {
  import opened TextOrder
  import AccountService

  /** One transaction: the rows it locks, in order, how many it holds, and whether it has committed. */
  datatype Tx = Tx(plan: seq<string>, taken: nat, committed: bool)

  type State = map<nat, Tx>

  predicate Holds(tx: Tx, row: string) {
    !tx.committed && tx.taken <= |tx.plan| && row in tx.plan[..tx.taken]
  }

  predicate Wants(tx: Tx, row: string) {
    !tx.committed && tx.taken < |tx.plan| && tx.plan[tx.taken] == row
  }

  /** `FOR UPDATE` on a row held by another transaction blocks; on one's own row it does not. */
  ghost predicate CanLock(s: State, p: nat)
    requires p in s
  {
    && !s[p].committed && s[p].taken < |s[p].plan|
    && forall q | q in s && q != p :: !Holds(s[q], s[p].plan[s[p].taken])
  }

  ghost predicate CanCommit(s: State, p: nat)
    requires p in s
  {
    !s[p].committed && s[p].taken == |s[p].plan|
  }

  ghost predicate CanStep(s: State, p: nat)
    requires p in s
  {
    CanLock(s, p) || CanCommit(s, p)
  }

  /** The legacy transfers, by origin and target, that may run beside any sorted acquisition. */
  type Pairs = iset<(string, string)>

  ghost predicate Admissible(plan: seq<string>, pairs: Pairs) {
    || Ascending(plan)
    || exists origin, target :: (origin, target) in pairs && plan == AccountService.LegacyLockOrder(origin, target)
  }

  ghost predicate Next(s: State, s': State, pairs: Pairs) {
    || (exists p :: p in s && CanLock(s, p) && s' == s[p := s[p].(taken := s[p].taken + 1)])
    || (exists p :: p in s && CanCommit(s, p) && s' == s[p := s[p].(committed := true)])
    || (exists p: nat, plan: seq<string> :: p !in s && Admissible(plan, pairs) && s' == s[p := Tx(plan, 0, false)])
  }

  ghost predicate Run(states: seq<State>, pairs: Pairs) {
    && states != [] && states[0] == map[]
    && forall i | 0 <= i < |states| - 1 :: Next(states[i], states[i + 1], pairs)
  }

  /** No transfer goes from a greater account id to a smaller one. */
  ghost predicate Orderly(pairs: Pairs) {
    forall origin, target | (origin, target) in pairs :: !Less(target, origin)
  }

  /** Ascending but for repetitions: a row may be locked again by its holder. */
  ghost predicate Climbing(plan: seq<string>) {
    forall i, j | 0 <= i < j < |plan| :: !Less(plan[j], plan[i])
  }

  /** Every plan climbs and is taken in order; no row has two holders. */
  ghost predicate Inv(s: State) {
    && (forall p | p in s :: Climbing(s[p].plan) && s[p].taken <= |s[p].plan|)
    && (forall p, q, row | p in s && q in s && p != q && Holds(s[p], row) :: !Holds(s[q], row))
  }

  /** The pair's sorted order does not depend on the direction of the transfer. */
  lemma SortedPair(a: string, b: string)
    requires Less(a, b)
    ensures Sorted([a, b]) == [a, b] && Sorted([b, a]) == [a, b]
  {
    LessIsStrict(a, b);
    AscendingIsUnique(Sorted([a, b]), [a, b]);
    AscendingIsUnique(Sorted([b, a]), [a, b]);
  }

  lemma LegacyPlan(origin: string, target: string)
    ensures AccountService.LegacyLockOrder(origin, target)
         == if origin == target then [origin, origin]
            else if Less(origin, target) then [origin, origin, target] else [origin, target, origin]
  {
    hide Less, Sorted;
    if origin == target {
      AscendingIsUnique(Sorted([origin, origin]), [origin]);
    } else {
      LessIsTotal(origin, target);
      if Less(origin, target) {
        SortedPair(origin, target);
      } else {
        SortedPair(target, origin);
      }
    }
  }

  lemma OrderlyPlansClimb(plan: seq<string>, pairs: Pairs)
    requires Orderly(pairs) && Admissible(plan, pairs)
    ensures Climbing(plan)
  {
    hide Less, AccountService.LegacyLockOrder;
    if Ascending(plan) {
      forall i, j | 0 <= i < j < |plan| ensures !Less(plan[j], plan[i]) {
        LessIsStrict(plan[i], plan[j]);
      }
    } else {
      var origin, target :| (origin, target) in pairs && plan == AccountService.LegacyLockOrder(origin, target);
      LegacyPlan(origin, target);
      LessIsTotal(origin, target);
      LessIsStrict(origin, origin);
    }
  }

  /** Locking adds exactly the wanted row to what the transaction holds. */
  lemma HoldsAfterLock(tx: Tx, row: string)
    requires !tx.committed && tx.taken < |tx.plan|
    ensures Holds(tx.(taken := tx.taken + 1), row) <==> Holds(tx, row) || row == tx.plan[tx.taken]
  {
    assert tx.plan[..tx.taken + 1] == tx.plan[..tx.taken] + [tx.plan[tx.taken]];
  }

  lemma LockKeepsInv(s: State, p: nat)
    requires Inv(s) && p in s && CanLock(s, p)
    ensures Inv(s[p := s[p].(taken := s[p].taken + 1)])
  {
    hide Climbing, Holds;
    var s' := s[p := s[p].(taken := s[p].taken + 1)];
    forall row ensures Holds(s'[p], row) <==> Holds(s[p], row) || row == s[p].plan[s[p].taken] {
      HoldsAfterLock(s[p], row);
    }
  }

  /** A transaction that holds nothing, as when it has committed or just begun, harms nobody. */
  lemma EmptyHandsKeepInv(s: State, p: nat, tx: Tx)
    requires Inv(s) && Climbing(tx.plan) && tx.taken <= |tx.plan| && (tx.committed || tx.taken == 0)
    ensures Inv(s[p := tx])
  {
    hide Climbing;
    var s' := s[p := tx];
    forall q, r, row | q in s' && r in s' && q != r && Holds(s'[q], row) ensures !Holds(s'[r], row) {
      assert q != p;
    }
  }

  lemma InvStep(s: State, s': State, pairs: Pairs)
    requires Inv(s) && Orderly(pairs) && Next(s, s', pairs)
    ensures Inv(s')
  {
    hide Admissible, Orderly, Climbing, Holds, CanLock;
    if p :| p in s && CanLock(s, p) && s' == s[p := s[p].(taken := s[p].taken + 1)] {
      LockKeepsInv(s, p);
    } else if p :| p in s && CanCommit(s, p) && s' == s[p := s[p].(committed := true)] {
      EmptyHandsKeepInv(s, p, s[p].(committed := true));
    } else if p: nat, plan :| p !in s && Admissible(plan, pairs) && s' == s[p := Tx(plan, 0, false)] {
      OrderlyPlansClimb(plan, pairs);
      EmptyHandsKeepInv(s, p, Tx(plan, 0, false));
    }
  }

  lemma {:induction false} RunKeepsInv(states: seq<State>, pairs: Pairs)
    requires Run(states, pairs) && Orderly(pairs)
    ensures Inv(states[|states| - 1])
  {
    hide Next, Orderly;
    if |states| == 1 {
    } else {
      var front := states[..|states| - 1];
      assert front[|front| - 1] == states[|states| - 2];
      forall i | 0 <= i < |front| - 1 ensures Next(front[i], front[i + 1], pairs) {
        assert Next(states[i], states[i + 1], pairs);
      }
      RunKeepsInv(front, pairs);
      assert Next(states[|states| - 2], states[|states| - 2 + 1], pairs);
      InvStep(states[|states| - 2], states[|states| - 1], pairs);
    }
  }

  // ---------------------------------------------------------------- no circle of waits

  /** p waits for a row that q holds. */
  ghost predicate WaitsFor(s: State, p: nat, q: nat) {
    p in s && q in s && p != q && exists row :: Wants(s[p], row) && Holds(s[q], row)
  }

  /** Whoever is waited for, and waits itself, waits for a greater row: not for the one it holds. */
  lemma WaitsUpward(s: State, p: nat, q: nat, r: nat)
    requires Inv(s) && WaitsFor(s, p, q) && WaitsFor(s, q, r)
    ensures s[p].taken < |s[p].plan| && s[q].taken < |s[q].plan|
    ensures Less(s[p].plan[s[p].taken], s[q].plan[s[q].taken])
  {
    hide Less;
    var row :| Wants(s[p], row) && Holds(s[q], row);
    var next :| Wants(s[q], next) && Holds(s[r], next);
    var i :| 0 <= i < s[q].taken && s[q].plan[i] == row;
    LessIsTotal(row, next);
    assert !Less(next, row);
    assert !Holds(s[r], row);
  }

  ghost predicate WaitChain(s: State, chain: seq<nat>) {
    && |chain| >= 2
    && forall i | 0 <= i < |chain| - 1 :: WaitsFor(s, chain[i], chain[i + 1])
  }

  lemma {:induction false} ChainsGoUpward(s: State, chain: seq<nat>)
    requires Inv(s) && WaitChain(s, chain) && |chain| > 2
    ensures var first, last := chain[0], chain[|chain| - 2];
            && first in s && s[first].taken < |s[first].plan| && last in s && s[last].taken < |s[last].plan|
            && Less(s[first].plan[s[first].taken], s[last].plan[s[last].taken])
  {
    hide WaitsFor, Inv, Less;
    var n := |chain|;
    assert WaitsFor(s, chain[n - 3], chain[n - 3 + 1]) && WaitsFor(s, chain[n - 2], chain[n - 2 + 1]);
    WaitsInside(s, chain[n - 3], chain[n - 2]);
    WaitsUpward(s, chain[n - 3], chain[n - 2], chain[n - 1]);
    if n > 3 {
      var front := chain[..n - 1];
      forall i | 0 <= i < |front| - 1 ensures WaitsFor(s, front[i], front[i + 1]) {
        assert WaitsFor(s, chain[i], chain[i + 1]);
      }
      ChainsGoUpward(s, front);
      LessIsTransitive(s[chain[0]].plan[s[chain[0]].taken], s[chain[n - 3]].plan[s[chain[n - 3]].taken],
                       s[chain[n - 2]].plan[s[chain[n - 2]].taken]);
    }
  }

  lemma WaitsInside(s: State, p: nat, q: nat)
    requires WaitsFor(s, p, q)
    ensures p in s && q in s && p != q
  {
  }

  /** A chain of waits that returns to where it started. */
  ghost predicate WaitCycle(s: State, chain: seq<nat>) {
    WaitChain(s, chain) && chain[0] == chain[|chain| - 1]
  }

  lemma InvExcludesCycles(s: State, chain: seq<nat>)
    requires Inv(s)
    ensures !WaitCycle(s, chain)
  {
    hide WaitsFor, Inv, Less;
    if WaitCycle(s, chain) {
      assert WaitsFor(s, chain[0], chain[0 + 1]);
      WaitsInside(s, chain[0], chain[1]);
      var around := chain + [chain[1]];
      forall i | 0 <= i < |around| - 1 ensures WaitsFor(s, around[i], around[i + 1]) {
        assert i < |chain| - 1 ==> WaitsFor(s, chain[i], chain[i + 1]);
      }
      ChainsGoUpward(s, around);
      LessIsStrict(s[chain[0]].plan[s[chain[0]].taken], s[chain[0]].plan[s[chain[0]].taken]);
    }
  }

  /** In no reachable state does a chain of waits return to where it started. */
  lemma NoWaitCycle(states: seq<State>, pairs: Pairs, chain: seq<nat>)
    requires Run(states, pairs) && Orderly(pairs)
    ensures !WaitCycle(states[|states| - 1], chain)
  {
    RunKeepsInv(states, pairs);
    InvExcludesCycles(states[|states| - 1], chain);
  }

  // ---------------------------------------------------------------- progress

  ghost function Pending(s: State): set<nat> {
    set p | p in s && !s[p].committed
  }

  /** Among blocked transactions one wants a greatest row. */
  lemma {:induction false} GreatestWanter(s: State, ps: set<nat>) returns (p: nat)
    requires ps != {} && forall q | q in ps :: q in s && s[q].taken < |s[q].plan|
    ensures p in ps && forall q | q in ps :: !Less(s[p].plan[s[p].taken], s[q].plan[s[q].taken])
    decreases |ps|
  {
    var x :| x in ps;
    var rest := ps - {x};
    assert ps == rest + {x};
    p := x;
    var wx := s[x].plan[s[x].taken];
    LessIsStrict(wx, wx);
    if rest != {} {
      var y := GreatestWanter(s, rest);
      var wy := s[y].plan[s[y].taken];
      if Less(wy, wx) {
        forall q | q in rest ensures !Less(wx, s[q].plan[s[q].taken]) {
          if Less(wx, s[q].plan[s[q].taken]) {
            LessIsTransitive(wy, wx, s[q].plan[s[q].taken]);
          }
        }
      } else {
        p := y;
      }
    }
  }

  /** Whoever blocks the transaction that wants the greatest row wants that same row again, and can have it. */
  lemma BlockerCanStep(s: State, p: nat, q: nat)
    requires Inv(s) && p in Pending(s) && q in Pending(s) && p != q
    requires forall r | r in Pending(s) :: s[r].taken < |s[r].plan|
    requires !Less(s[p].plan[s[p].taken], s[q].plan[s[q].taken])
    requires Holds(s[q], s[p].plan[s[p].taken])
    ensures CanLock(s, q)
  {
    hide Less;
    var row, again := s[p].plan[s[p].taken], s[q].plan[s[q].taken];
    var i :| 0 <= i < s[q].taken && s[q].plan[i] == row;
    assert !Less(again, row);
    LessIsTotal(row, again);
  }

  lemma SomeoneCanStep(s: State) returns (p: nat)
    requires Inv(s) && Pending(s) != {}
    ensures p in Pending(s) && CanStep(s, p)
  {
    hide Less, Climbing;
    if q :| q in Pending(s) && s[q].taken == |s[q].plan| {
      p := q;
    } else {
      p := GreatestWanter(s, Pending(s));
      if q :| q in s && q != p && Holds(s[q], s[p].plan[s[p].taken]) {
        BlockerCanStep(s, p, q);
        p := q;
      }
    }
  }

  /** Unfinished transactions, none of which can ever step again. */
  ghost predicate Stuck(s: State) {
    Pending(s) != {} && forall p | p in Pending(s) :: !CanStep(s, p)
  }

  lemma OrderlyNeverStuck(states: seq<State>, pairs: Pairs)
    requires Run(states, pairs) && Orderly(pairs)
    ensures !Stuck(states[|states| - 1])
  {
    hide Next, Inv, CanStep;
    RunKeepsInv(states, pairs);
    if Pending(states[|states| - 1]) != {} {
      var p := SomeoneCanStep(states[|states| - 1]);
    }
  }

  /** With sorted acquisition alone: in every reachable state with unfinished transactions, one of them can step. */
  lemma SortedLockingNeverDeadlocks(states: seq<State>)
    requires Run(states, iset{})
    requires Pending(states[|states| - 1]) != {}
    ensures var s := states[|states| - 1];
            exists p :: p in Pending(s) && CanStep(s, p)
  {
    hide Next;
    OrderlyNeverStuck(states, iset{});
  }

  /** What `lock_accounts_for_update` and the transfer loop acquire is an admissible plan, whatever ids are given. */
  lemma SortedPlansAreAdmissible(s: State, p: nat, ids: seq<string>)
    requires p !in s
    ensures Next(s, s[p := Tx(Sorted(ids), 0, false)], iset{})
  {
    assert Admissible(Sorted(ids), iset{});
  }

  // ---------------------------------------------------------------- the legacy order

  function Two(x: seq<string>, y: seq<string>, taken0: nat, taken1: nat): State {
    map[0 := Tx(x, taken0, false), 1 := Tx(y, taken1, false)]
  }

  lemma Append(states: seq<State>, s: State, pairs: Pairs) returns (more: seq<State>)
    requires Run(states, pairs) && Next(states[|states| - 1], s, pairs)
    ensures Run(more, pairs) && more[|more| - 1] == s
  {
    hide Next;
    more := states + [s];
  }

  lemma BeginsNext(s: State, pairs: Pairs, p: nat, plan: seq<string>)
    requires p !in s && Admissible(plan, pairs)
    ensures Next(s, s[p := Tx(plan, 0, false)], pairs)
  {
    hide Admissible;
  }

  lemma LocksNext(s: State, pairs: Pairs, p: nat)
    requires p in s && CanLock(s, p)
    ensures Next(s, s[p := s[p].(taken := s[p].taken + 1)], pairs)
  {
    hide CanLock;
    assert CanLock(s, p);
  }

  lemma Begin(states: seq<State>, pairs: Pairs, p: nat, plan: seq<string>) returns (more: seq<State>)
    requires Run(states, pairs) && p !in states[|states| - 1] && Admissible(plan, pairs)
    ensures Run(more, pairs) && more[|more| - 1] == states[|states| - 1][p := Tx(plan, 0, false)]
  {
    hide Next, Admissible;
    BeginsNext(states[|states| - 1], pairs, p, plan);
    more := Append(states, states[|states| - 1][p := Tx(plan, 0, false)], pairs);
  }

  lemma Lock(states: seq<State>, pairs: Pairs, p: nat) returns (more: seq<State>)
    requires Run(states, pairs) && p in states[|states| - 1] && CanLock(states[|states| - 1], p)
    ensures var s := states[|states| - 1];
            Run(more, pairs) && more[|more| - 1] == s[p := s[p].(taken := s[p].taken + 1)]
  {
    hide Next, CanLock;
    var s := states[|states| - 1];
    LocksNext(s, pairs, p);
    more := Append(states, s[p := s[p].(taken := s[p].taken + 1)], pairs);
  }

  lemma FirstLocks(x: seq<string>, y: seq<string>)
    requires x != [] && y != [] && x[0] != y[0]
    ensures CanLock(Two(x, y, 0, 0), 0) && CanLock(Two(x, y, 1, 0), 1)
  {
    assert x[..1] == [x[0]];
  }

  /** Two transactions with different first rows, each of which takes its first row. */
  lemma BothStart(x: seq<string>, y: seq<string>, pairs: Pairs) returns (states: seq<State>)
    requires x != [] && y != [] && x[0] != y[0] && Admissible(x, pairs) && Admissible(y, pairs)
    ensures Run(states, pairs) && states[|states| - 1] == Two(x, y, 1, 1)
  {
    hide Next, CanLock, Admissible;
    var start: State := map[];
    assert Run([start], pairs) by { FirstState(pairs); }
    states := Begin([start], pairs, 0, x);
    states := Begin(states, pairs, 1, y);
    assert states[|states| - 1] == Two(x, y, 0, 0);
    FirstLocks(x, y);
    states := Lock(states, pairs, 0);
    assert states[|states| - 1] == Two(x, y, 1, 0);
    states := Lock(states, pairs, 1);
    assert states[|states| - 1] == Two(x, y, 1, 1);
  }

  lemma FirstState(pairs: Pairs)
    ensures Run([map[]], pairs)
  {
  }

  /** Each of the two wants what the other holds. */
  lemma CrossedIsStuck(x: seq<string>, y: seq<string>, i: nat, j: nat)
    requires i < |x| && j < |y| && x[i] in y[..j] && y[j] in x[..i]
    ensures var s := Two(x, y, i, j);
            && Pending(s) == {0, 1} && Stuck(s) && !CanStep(s, 0) && !CanStep(s, 1)
            && WaitCycle(s, [0, 1, 0])
  {
    var s := Two(x, y, i, j);
    assert Holds(s[1], x[i]) && Holds(s[0], y[j]);
    assert Wants(s[0], x[i]) && Wants(s[1], y[j]);
  }

  /** One transfer from a greater id against an ordinary sorted acquisition of the same two rows. */
  lemma DownwardTransferDeadlocks(pairs: Pairs, origin: string, target: string) returns (states: seq<State>)
    requires (origin, target) in pairs && Less(target, origin)
    ensures Run(states, pairs)
    ensures Stuck(states[|states| - 1]) && WaitCycle(states[|states| - 1], [0, 1, 0])
  {
    hide Next, Less, Sorted, AccountService.LegacyLockOrder, Stuck, WaitCycle;
    LegacyPlan(origin, target);
    LessIsStrict(target, origin);
    var x, y := AccountService.LegacyLockOrder(origin, target), [target, origin];
    assert Ascending(y) && Admissible(x, pairs) && Admissible(y, pairs);
    states := BothStart(x, y, pairs);
    assert x[..1] == [origin] && y[..1] == [target];
    CrossedIsStuck(x, y, 1, 1);
  }

  ghost predicate Reachable(s: State, pairs: Pairs) {
    exists states :: Run(states, pairs) && states[|states| - 1] == s
  }

  ghost predicate NeverStuck(pairs: Pairs) {
    forall s | Reachable(s, pairs) :: !Stuck(s)
  }

  ghost predicate NeverCircular(pairs: Pairs) {
    forall s, chain | Reachable(s, pairs) :: !WaitCycle(s, chain)
  }

  lemma OrderlyIsSafe(s: State, pairs: Pairs)
    requires Reachable(s, pairs) && Orderly(pairs)
    ensures !Stuck(s) && forall chain :: !WaitCycle(s, chain)
  {
    hide Next, Stuck, WaitCycle;
    var states :| Run(states, pairs) && states[|states| - 1] == s;
    OrderlyNeverStuck(states, pairs);
    forall chain ensures !WaitCycle(s, chain) {
      NoWaitCycle(states, pairs, chain);
    }
  }

  /** Whatever legacy transfers are admitted beside sorted acquisition: the system never gets stuck, and waits never run
      in a circle, exactly when no transfer goes from a greater account id to a smaller one. */
  lemma DeadlockFreeExactly(pairs: Pairs)
    ensures NeverStuck(pairs) <==> Orderly(pairs)
    ensures NeverCircular(pairs) <==> Orderly(pairs)
  {
    hide Next, Stuck, WaitCycle, Less;
    if Orderly(pairs) {
      forall s | Reachable(s, pairs) ensures !Stuck(s) && forall chain :: !WaitCycle(s, chain) {
        OrderlyIsSafe(s, pairs);
      }
    } else {
      var origin, target :| (origin, target) in pairs && Less(target, origin);
      var states := DownwardTransferDeadlocks(pairs, origin, target);
      assert Reachable(states[|states| - 1], pairs);
    }
  }

  /** Two legacy transfers between the same accounts in opposite directions: a run of the system ends with both
      unfinished and neither able to step ever again. */
  lemma LegacyOrderDeadlocks(a: string, b: string) returns (states: seq<State>)
    requires Less(a, b)
    ensures Run(states, iset{(a, b), (b, a)})
    ensures states[|states| - 1]
         == Two(AccountService.LegacyLockOrder(a, b), AccountService.LegacyLockOrder(b, a), 2, 1)
    ensures var stuck := states[|states| - 1]; Pending(stuck) == {0, 1} && !CanStep(stuck, 0) && !CanStep(stuck, 1)
  {
    hide Next, Less, Sorted, AccountService.LegacyLockOrder;
    LegacyPlan(a, b);
    LegacyPlan(b, a);
    LessIsStrict(a, b);
    var x, y := AccountService.LegacyLockOrder(a, b), AccountService.LegacyLockOrder(b, a);
    var pairs := iset{(a, b), (b, a)};
    assert (a, b) in pairs && (b, a) in pairs && Admissible(x, pairs) && Admissible(y, pairs);
    states := BothStart(x, y, pairs);
    assert x[..1] == [a] && x[..2] == [a, a] && y[..1] == [b];
    states := Lock(states, pairs, 0);
    assert states[|states| - 1] == Two(x, y, 2, 1);
    CrossedIsStuck(x, y, 2, 1);
  }
}
