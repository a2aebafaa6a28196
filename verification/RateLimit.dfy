/** The fixed-window request counter of one subject. */
module RateLimit {
  import opened Prelude

  /** A Redis counter: its value, and the time it expires if an expiry was set. */
  datatype Counter = Counter(count: nat, expiry: Option<int>)

  /** What a command finds at `now`: expired keys are gone. */
  function Live(counter: Option<Counter>, now: int): Option<Counter> {
    if counter.Some? && counter.value.expiry.Some? && counter.value.expiry.value <= now then None else counter
  }

  datatype Limits = Limits(limit: nat, window: nat)

  datatype Verdict = Verdict(allowed: bool, remaining: nat, retryAfter: int)

  /** INCR, then EXPIRE on the first hit of a window. */
  function Bumped(counter: Option<Counter>, limits: Limits, now: int): Counter {
    match Live(counter, now)
    case None => Counter(1, Some(now + limits.window))
    case Some(c) => Counter(c.count + 1, if c.count + 1 == 1 then Some(now + limits.window) else c.expiry)
  }

  function VerdictOf(counter: Counter, limits: Limits, now: int): Verdict {
    Verdict(
      counter.count <= limits.limit,
      if counter.count < limits.limit then limits.limit - counter.count else 0,
      if counter.expiry.Some? && counter.expiry.value - now >= 0 then counter.expiry.value - now else limits.window)
  }

  class RateLimiter {
    const limits: Limits
    var counter: Option<Counter>

    constructor (limits: Limits)
      ensures this.limits == limits && counter == None
    {
      this.limits := limits;
      counter := None;
    }

    /** `allow`, taken as one atomic step at time `now`. */
    method Allow(now: int) returns (verdict: Verdict)
      modifies this
      ensures counter == Some(Bumped(old(counter), limits, now))
      ensures verdict == VerdictOf(Bumped(old(counter), limits, now), limits, now)
    {
      var live := Live(counter, now);
      var count := if live.Some? then live.value.count + 1 else 1;
      var expiry := if live.Some? then live.value.expiry else None;
      if count == 1 {
        expiry := Some(now + limits.window);
      }
      counter := Some(Counter(count, expiry));
      var ttl := if expiry.Some? then expiry.value - now else -1;
      if ttl < 0 {
        ttl := limits.window;
      }
      var remaining := if limits.limit - count > 0 then limits.limit - count else 0;
      verdict := Verdict(count <= limits.limit, remaining, ttl);
    }
  }

  // ---------------------------------------------------------------- traces

  /** The counter after requests at the given times, starting from no counter. */
  function After(times: seq<int>, limits: Limits): Option<Counter> {
    if times == [] then None
    else Some(Bumped(After(times[..|times| - 1], limits), limits, times[|times| - 1]))
  }

  predicate Admitted(times: seq<int>, limits: Limits, i: nat)
    requires i < |times|
  {
    VerdictOf(Bumped(After(times[..i], limits), limits, times[i]), limits, times[i]).allowed
  }

  /** How many requests at or after `from` were admitted. */
  function AdmittedSince(times: seq<int>, limits: Limits, from: int): nat {
    if times == [] then 0
    else
      var i := |times| - 1;
      AdmittedSince(times[..i], limits, from) + (if times[i] >= from && Admitted(times, limits, i) then 1 else 0)
  }

  ghost predicate Ordered(times: seq<int>) {
    forall i, j | 0 <= i < j < |times| :: times[i] <= times[j]
  }

  /** Start of the window that the last request fell into. */
  function WindowStart(times: seq<int>, limits: Limits): int
    requires times != [] && After(times, limits).value.expiry.Some?
  {
    After(times, limits).value.expiry.value - limits.window
  }

  /** The counter always has an expiry, set by the request that opened its window, and counts the window's requests. */
  lemma {:induction false} CounterShape(times: seq<int>, limits: Limits)
    requires Ordered(times) && times != [] && limits.window > 0
    ensures After(times, limits).value.expiry.Some? && After(times, limits).value.count >= 1
    ensures var start := WindowStart(times, limits);
            start <= times[|times| - 1] < start + limits.window
  {
    var front := times[..|times| - 1];
    if front != [] {
      CounterShape(front, limits);
    }
  }

  function Least(a: int, b: int): int {
    if a < b then a else b
  }

  /** One counter lifetime admits at most `limit`: exactly the lesser of its requests and the limit. */
  lemma {:induction false} WindowAdmits(times: seq<int>, limits: Limits)
    requires Ordered(times) && times != [] && limits.window > 0
    ensures After(times, limits).value.expiry.Some?
    ensures AdmittedSince(times, limits, WindowStart(times, limits))
         == Least(After(times, limits).value.count, limits.limit)
  {
    CounterShape(times, limits);
    var n := |times| - 1;
    var front, t := times[..n], times[n];
    var start := WindowStart(times, limits);
    if front == [] {
      assert AdmittedSince(front, limits, start) == 0;
    } else {
      CounterShape(front, limits);
      WindowAdmits(front, limits);
      if Live(After(front, limits), t).None? {
        NothingSince(front, limits, t);
      }
    }
  }

  /** Requests before `from` do not count from it on. */
  lemma {:induction false} NothingSince(times: seq<int>, limits: Limits, from: int)
    requires forall i | 0 <= i < |times| :: times[i] < from
    ensures AdmittedSince(times, limits, from) == 0
  {
    if times == [] {
    } else {
      NothingSince(times[..|times| - 1], limits, from);
    }
  }

  /** At most `limit` requests are admitted in the lifetime of one counter. */
  lemma CounterLifetimeBound(times: seq<int>, limits: Limits)
    requires Ordered(times) && times != [] && limits.window > 0
    ensures After(times, limits).value.expiry.Some?
    ensures AdmittedSince(times, limits, WindowStart(times, limits)) <= limits.limit
  {
    WindowAdmits(times, limits);
  }

  // ---------------------------------------------------------------- any interval of one window length

  /** Later than the opening of the current window, at least the opener is missing from the count. */
  lemma {:induction false} AfterTheOpener(times: seq<int>, limits: Limits, from: int)
    requires Ordered(times) && times != [] && limits.window > 0 && limits.limit >= 1
    requires After(times, limits).value.expiry.Some? && WindowStart(times, limits) < from
    ensures AdmittedSince(times, limits, from) <= Least(After(times, limits).value.count, limits.limit) - 1
  {
    var n := |times| - 1;
    var front, t := times[..n], times[n];
    if front != [] {
      CounterShape(front, limits);
      if Live(After(front, limits), t).Some? {
        AfterTheOpener(front, limits, from);
      } else {
        NothingSince(front, limits, from);
      }
    }
  }

  /** An interval shorter than a window meets the tail of one window and the head of the next. */
  lemma {:induction false} AcrossTwoWindows(times: seq<int>, limits: Limits, from: int)
    requires Ordered(times) && times != [] && limits.window > 0 && limits.limit >= 1
    requires times[|times| - 1] < from + limits.window
    requires After(times, limits).value.expiry.Some? && WindowStart(times, limits) >= from
    ensures AdmittedSince(times, limits, from)
         <= limits.limit - 1 + Least(After(times, limits).value.count, limits.limit)
  {
    var n := |times| - 1;
    var front, t := times[..n], times[n];
    if front != [] {
      CounterShape(front, limits);
      if Live(After(front, limits), t).Some? {
        AcrossTwoWindows(front, limits, from);
      } else {
        AfterTheOpener(front, limits, from);
      }
    }
  }

  /** How many requests in the half-open interval were admitted. */
  function AdmittedIn(times: seq<int>, limits: Limits, from: int, to: int): nat {
    if times == [] then 0
    else
      var i := |times| - 1;
      AdmittedIn(times[..i], limits, from, to)
      + (if from <= times[i] < to && Admitted(times, limits, i) then 1 else 0)
  }

  lemma {:induction false} AllBefore(times: seq<int>, limits: Limits, from: int, to: int)
    requires forall i | 0 <= i < |times| :: times[i] < to
    ensures AdmittedIn(times, limits, from, to) == AdmittedSince(times, limits, from)
  {
    if times == [] {
    } else {
      AllBefore(times[..|times| - 1], limits, from, to);
    }
  }

  /** Any interval of one window length admits at most 2 * limit - 1 requests, and none when the limit is 0. */
  lemma {:induction false} IntervalBound(times: seq<int>, limits: Limits, from: int)
    requires Ordered(times) && limits.window > 0
    ensures AdmittedIn(times, limits, from, from + limits.window)
         <= if limits.limit >= 1 then 2 * limits.limit - 1 else 0
  {
    if times == [] {
    } else {
      var last := times[|times| - 1];
      if limits.limit == 0 || last >= from + limits.window {
        IntervalBound(times[..|times| - 1], limits, from);
      } else {
        AllBefore(times, limits, from, from + limits.window);
        CounterShape(times, limits);
        if WindowStart(times, limits) < from {
          AfterTheOpener(times, limits, from);
        } else {
          AcrossTwoWindows(times, limits, from);
        }
      }
    }
  }

  // ---------------------------------------------------------------- the bound is met

  /** One request opens a window, and n more come just before it ends. */
  function Opening(limits: Limits, n: nat): seq<int> {
    if n == 0 then [0] else Opening(limits, n - 1) + [limits.window - 1]
  }

  /** The rest of one window's allowance, then n requests as the next window opens. */
  function Burst(limits: Limits, n: nat): seq<int>
    requires limits.limit >= 1
  {
    if n == 0 then Opening(limits, limits.limit - 1) else Burst(limits, n - 1) + [limits.window]
  }

  lemma OneMoreRequest(times: seq<int>, limits: Limits, t: int, from: int, to: int)
    ensures After(times + [t], limits) == Some(Bumped(After(times, limits), limits, t))
    ensures AdmittedIn(times + [t], limits, from, to)
         == AdmittedIn(times, limits, from, to)
          + (if from <= t < to && Bumped(After(times, limits), limits, t).count <= limits.limit then 1 else 0)
  {
    var all := times + [t];
    assert all[..|times|] == times;
  }

  /** A request inside the window and the limit is admitted and counted. */
  lemma Within(times: seq<int>, limits: Limits, counter: Counter, t: int, from: int, to: int)
    requires After(times, limits) == Some(counter) && counter.expiry.Some? && t < counter.expiry.value
    requires 1 <= counter.count < limits.limit && from <= t < to
    ensures After(times + [t], limits) == Some(counter.(count := counter.count + 1))
    ensures AdmittedIn(times + [t], limits, from, to) == AdmittedIn(times, limits, from, to) + 1
  {
    OneMoreRequest(times, limits, t, from, to);
  }

  /** A request after the window opens the next one. */
  lemma Beyond(times: seq<int>, limits: Limits, t: int, from: int, to: int)
    requires Live(After(times, limits), t) == None && limits.limit >= 1
    ensures After(times + [t], limits) == Some(Counter(1, Some(t + limits.window)))
    ensures AdmittedIn(times + [t], limits, from, to)
         == AdmittedIn(times, limits, from, to) + (if from <= t < to then 1 else 0)
  {
    OneMoreRequest(times, limits, t, from, to);
  }

  lemma OpensWindow(limits: Limits)
    ensures After([], limits) == None
    ensures After([0], limits) == Some(Counter(1, Some(limits.window)))
    ensures AdmittedIn([], limits, limits.window - 1, 2 * limits.window - 1) == 0
  {
    assert [0][..0] == [];
  }

  lemma {:induction false} OpeningAdmits(limits: Limits, n: nat)
    requires limits.limit >= 1 && limits.window >= 2 && n < limits.limit
    ensures After(Opening(limits, n), limits) == Some(Counter(n + 1, Some(limits.window)))
    ensures AdmittedIn(Opening(limits, n), limits, limits.window - 1, 2 * limits.window - 1) == n
  {
    hide After, AdmittedIn;
    var from, to := limits.window - 1, 2 * limits.window - 1;
    if n == 0 {
      OpensWindow(limits);
      assert [] + [0] == [0];
      Beyond([], limits, 0, from, to);
    } else {
      OpeningAdmits(limits, n - 1);
      Within(Opening(limits, n - 1), limits, Counter(n, Some(limits.window)), limits.window - 1, from, to);
    }
  }

  lemma {:induction false} BurstAdmits(limits: Limits, n: nat)
    requires limits.limit >= 1 && limits.window >= 2 && n <= limits.limit
    ensures After(Burst(limits, n), limits)
         == Some(if n == 0 then Counter(limits.limit, Some(limits.window)) else Counter(n, Some(2 * limits.window)))
    ensures AdmittedIn(Burst(limits, n), limits, limits.window - 1, 2 * limits.window - 1) == limits.limit - 1 + n
  {
    hide After, AdmittedIn;
    var from, to := limits.window - 1, 2 * limits.window - 1;
    if n == 0 {
      OpeningAdmits(limits, limits.limit - 1);
    } else {
      BurstAdmits(limits, n - 1);
      if n == 1 {
        Beyond(Burst(limits, 0), limits, limits.window, from, to);
      } else {
        Within(Burst(limits, n - 1), limits, Counter(n - 1, Some(2 * limits.window)), limits.window, from, to);
      }
    }
  }

  lemma OrderedAppend(times: seq<int>, t: int)
    requires Ordered(times) && (times != [] ==> times[|times| - 1] <= t)
    ensures Ordered(times + [t])
  {
  }

  lemma {:induction false} OpeningIsOrdered(limits: Limits, n: nat)
    requires limits.window >= 2
    ensures Ordered(Opening(limits, n)) && Opening(limits, n) != []
    ensures Opening(limits, n)[|Opening(limits, n)| - 1] < limits.window
  {
    if n == 0 {
    } else {
      OpeningIsOrdered(limits, n - 1);
      OrderedAppend(Opening(limits, n - 1), limits.window - 1);
    }
  }

  lemma {:induction false} BurstIsOrdered(limits: Limits, n: nat)
    requires limits.limit >= 1 && limits.window >= 2
    ensures Ordered(Burst(limits, n)) && Burst(limits, n) != []
    ensures Burst(limits, n)[|Burst(limits, n)| - 1] <= limits.window
  {
    if n == 0 {
      OpeningIsOrdered(limits, limits.limit - 1);
    } else {
      BurstIsOrdered(limits, n - 1);
      OrderedAppend(Burst(limits, n - 1), limits.window);
    }
  }

  /** For every limit and every window of at least two ticks some trace meets the bound. */
  lemma IntervalBoundIsReached(limits: Limits) returns (times: seq<int>, from: int)
    requires limits.limit >= 1 && limits.window >= 2
    ensures Ordered(times) && AdmittedIn(times, limits, from, from + limits.window) == 2 * limits.limit - 1
  {
    times, from := Burst(limits, limits.limit), limits.window - 1;
    BurstAdmits(limits, limits.limit);
    BurstIsOrdered(limits, limits.limit);
  }

  // ---------------------------------------------------------------- what a verdict tells its client

  function LastVerdict(times: seq<int>, limits: Limits): Verdict
    requires times != []
  {
    VerdictOf(After(times, limits).value, limits, times[|times| - 1])
  }

  /** Further requests before the window ends are counted in it. */
  lemma {:induction false} SameWindow(times: seq<int>, limits: Limits, more: seq<int>)
    requires times != [] && After(times, limits).value.expiry.Some?
    requires forall t | t in more :: t < After(times, limits).value.expiry.value
    ensures After(times + more, limits)
         == Some(Counter(After(times, limits).value.count + |more|, After(times, limits).value.expiry))
  {
    if more == [] {
      assert times + more == times;
    } else {
      var n := |more| - 1;
      assert (times + more)[..|times + more| - 1] == times + more[..n];
      assert forall t | t in more[..n] :: t in more;
      SameWindow(times, limits, more[..n]);
      assert more[n] in more;
    }
  }

  /** `remaining` is exactly how many more requests the same window admits. */
  lemma RemainingExactly(times: seq<int>, limits: Limits, more: seq<int>)
    requires Ordered(times) && times != [] && limits.window > 0 && more != []
    requires forall t | t in more :: t < times[|times| - 1] + LastVerdict(times, limits).retryAfter
    ensures Admitted(times + more, limits, |times| + |more| - 1) <==> |more| <= LastVerdict(times, limits).remaining
  {
    CounterShape(times, limits);
    var all, last := times + more, |times| + |more| - 1;
    SameWindow(times, limits, more);
    assert all[..|all|] == all && all[..last] == all[..|all| - 1];
  }

  /** And `retryAfter` is exactly how long a client that has used up its window must wait. */
  lemma RetryAfterExactly(times: seq<int>, limits: Limits, later: int)
    requires Ordered(times) && times != [] && limits.window > 0 && limits.limit > 0
    requires LastVerdict(times, limits).remaining == 0 && later >= times[|times| - 1]
    ensures LastVerdict(times, limits).retryAfter > 0
    ensures Admitted(times + [later], limits, |times|) <==>
              later >= times[|times| - 1] + LastVerdict(times, limits).retryAfter
  {
    CounterShape(times, limits);
    assert (times + [later])[..|times|] == times;
  }
}
