/** Shared vocabulary: optional values, results that carry an error, and sums over sequences. */
module Prelude {

  datatype Option<+T> = None | Some(value: T)

  datatype Result<+R, +E> = Success(value: R) | Failure(error: E) {

    predicate IsFailure() {
      Failure?
    }

    function PropagateFailure<U>(): Result<U, E>
      requires Failure?
    {
      Failure(error)
    }

    function Extract(): R
      requires Success?
    {
      value
    }
  }

  /** The sum of a measure over a table, read in row order. */
  function Sum<T>(rows: seq<T>, measure: T -> int): int {
    if rows == [] then 0 else Sum(rows[..|rows| - 1], measure) + measure(rows[|rows| - 1])
  }

  lemma SumAppend<T>(rows: seq<T>, row: T, measure: T -> int)
    ensures Sum(rows + [row], measure) == Sum(rows, measure) + measure(row)
  {
    assert (rows + [row])[..|rows|] == rows;
  }

  lemma {:induction false} SumConcat<T>(front: seq<T>, back: seq<T>, measure: T -> int)
    ensures Sum(front + back, measure) == Sum(front, measure) + Sum(back, measure)
  {
    if back == [] {
      assert front + back == front;
    } else {
      var rest, last := back[..|back| - 1], back[|back| - 1];
      assert front + back == (front + rest) + [last];
      SumConcat(front, rest, measure);
      SumAppend(front + rest, last, measure);
    }
  }

  /** A measure that vanishes on every row sums to nothing. */
  lemma {:induction false} SumOfNothing<T>(rows: seq<T>, measure: T -> int)
    requires forall row | row in rows :: measure(row) == 0
    ensures Sum(rows, measure) == 0
  {
    if rows == [] {
    } else {
      SumOfNothing(rows[..|rows| - 1], measure);
    }
  }

  /** Measures that agree on every row have the same sum. */
  lemma {:induction false} SumAgrees<T>(rows: seq<T>, f: T -> int, g: T -> int)
    requires forall row | row in rows :: f(row) == g(row)
    ensures Sum(rows, f) == Sum(rows, g)
  {
    if rows == [] {
    } else {
      SumAgrees(rows[..|rows| - 1], f, g);
    }
  }

  /** A measure that splits into two parts sums to the two sums. */
  lemma {:induction false} SumSplits<T>(rows: seq<T>, whole: T -> int, f: T -> int, g: T -> int)
    requires forall row | row in rows :: whole(row) == f(row) + g(row)
    ensures Sum(rows, whole) == Sum(rows, f) + Sum(rows, g)
  {
    if rows == [] {
    } else {
      SumSplits(rows[..|rows| - 1], whole, f, g);
    }
  }

  /** The sum of a measure over a finite set, in no particular order. */
  ghost function SetSum<T>(items: set<T>, measure: T -> int): int {
    if items == {} then 0
    else
      var item :| item in items;
      measure(item) + SetSum(items - {item}, measure)
  }

  lemma {:induction false} SetSumTakes<T>(items: set<T>, item: T, measure: T -> int)
    requires item in items
    ensures SetSum(items, measure) == measure(item) + SetSum(items - {item}, measure)
    decreases |items|
  {
    var first :| first in items && SetSum(items, measure) == measure(first) + SetSum(items - {first}, measure);
    if first != item {
      SetSumTakes(items - {first}, item, measure);
      SetSumTakes(items - {item}, first, measure);
      assert items - {first} - {item} == items - {item} - {first};
    }
  }

  lemma {:induction false} SetSumAgrees<T>(items: set<T>, f: T -> int, g: T -> int)
    requires forall item | item in items :: f(item) == g(item)
    ensures SetSum(items, f) == SetSum(items, g)
    decreases |items|
  {
    if items == {} {
    } else {
      var item :| item in items;
      SetSumTakes(items, item, f);
      SetSumTakes(items, item, g);
      SetSumAgrees(items - {item}, f, g);
    }
  }

  /** What a row contributes to one item of a set. */
  function PerItem<T, R>(part: T -> R -> int, row: R): T -> int {
    (item: T) => part(item)(row)
  }

  function TableTotal<T, R>(rows: seq<R>, part: T -> R -> int): T -> int {
    (item: T) => Sum(rows, part(item))
  }

  /** Totals per item, added over the items, are the rows' contributions added over the rows. */
  lemma {:induction false} SumsExchange<T, R>(items: set<T>, rows: seq<R>, part: T -> R -> int, whole: R -> int)
    requires forall row | row in rows :: SetSum(items, PerItem(part, row)) == whole(row)
    ensures SetSum(items, TableTotal(rows, part)) == Sum(rows, whole)
  {
    if rows == [] {
      SetSumOfNothing(items, TableTotal(rows, part));
    } else {
      var rest, last := rows[..|rows| - 1], rows[|rows| - 1];
      SumsExchange(items, rest, part, whole);
      SetSumSplits(items, TableTotal(rows, part), TableTotal(rest, part), PerItem(part, last));
    }
  }

  lemma {:induction false} SetSumOfNothing<T>(items: set<T>, measure: T -> int)
    requires forall item | item in items :: measure(item) == 0
    ensures SetSum(items, measure) == 0
  {
    if items == {} {
    } else {
      var item :| item in items;
      SetSumTakes(items, item, measure);
      SetSumOfNothing(items - {item}, measure);
    }
  }

  lemma {:induction false} SetSumSplits<T>(items: set<T>, whole: T -> int, f: T -> int, g: T -> int)
    requires forall item | item in items :: whole(item) == f(item) + g(item)
    ensures SetSum(items, whole) == SetSum(items, f) + SetSum(items, g)
  {
    if items == {} {
    } else {
      var item :| item in items;
      SetSumTakes(items, item, whole);
      SetSumTakes(items, item, f);
      SetSumTakes(items, item, g);
      SetSumSplits(items - {item}, whole, f, g);
    }
  }

  /** Only one item of the set matters to a row that belongs to it. */
  lemma {:induction false} SetSumOfOne<T>(items: set<T>, item: T, measure: T -> int)
    requires forall other | other in items && other != item :: measure(other) == 0
    ensures SetSum(items, measure) == if item in items then measure(item) else 0
  {
    if item in items {
      SetSumTakes(items, item, measure);
      SetSumOfNothing(items - {item}, measure);
    } else {
      SetSumOfNothing(items, measure);
    }
  }

  lemma {:induction false} SetSumBounded<T>(items: set<T>, measure: T -> int, bound: int)
    requires forall item | item in items :: measure(item) <= bound
    ensures SetSum(items, measure) <= |items| * bound
  {
    if items == {} {
    } else {
      var item :| item in items;
      SetSumTakes(items, item, measure);
      SetSumBounded(items - {item}, measure, bound);
      assert (|items| - 1) * bound + bound == |items| * bound;
    }
  }
}
