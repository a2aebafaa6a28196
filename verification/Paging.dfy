/** Following `next_cursor` through a log that grows between pages. */
module Paging {
  import opened Prelude
  import opened Tables
  import opened Bank
  import opened MoneyLaws
  import opened Statements

  const PAGE_CAP: nat := 100

  /** One page, newest first, at most a hundred rows. */
  function Page(txns: seq<Txn>, id: string, f: Filter, limit: nat, cursor: Option<nat>): seq<nat> {
    ListTransactions(txns, id, f, if limit < PAGE_CAP then limit else PAGE_CAP, cursor, false)
  }

  /** `next_cursor`: the last row of the page, if it has any. */
  function NextCursor(page: seq<nat>): Option<nat> {
    if page == [] then None else Some(page[|page| - 1])
  }

  /** The log as each page finds it. */
  ghost predicate Growing(log: nat -> seq<Txn>) {
    forall i: nat :: log(i) <= log(i + 1)
  }

  function Bound(txns: seq<Txn>, cursor: Option<nat>): nat {
    if cursor.Some? then cursor.value else |txns|
  }

  /** Every row a client collects from page i on, following the cursor until it is null. */
  function Walk(log: nat -> seq<Txn>, id: string, f: Filter, limit: nat, i: nat, cursor: Option<nat>): seq<nat>
    decreases Bound(log(i), cursor)
  {
    var page := Page(log(i), id, f, limit, cursor);
    match NextCursor(page)
    case None => page
    case Some(last) => page + Walk(log, id, f, limit, i + 1, Some(last))
  }

  lemma {:induction false} LaterLogExtends(log: nat -> seq<Txn>, i: nat)
    requires Growing(log)
    ensures log(0) <= log(i)
  {
    if i == 0 {
    } else {
      LaterLogExtends(log, i - 1);
      assert log(i - 1) <= log(i - 1 + 1);
    }
  }

  /** A page is the front of the rows below the cursor; the rest is what lies below its last row. */
  lemma PageSplits(txns: seq<Txn>, id: string, f: Filter, limit: nat, cursor: Option<nat>)
    requires limit > 0 && (cursor.Some? ==> cursor.value < |txns| && txns[cursor.value].account == id)
    ensures var all := Reversed(Chronological(txns, id, f, Bound(txns, cursor)));
            match NextCursor(Page(txns, id, f, limit, cursor))
            case None => all == [] && Page(txns, id, f, limit, cursor) == []
            case Some(last) =>
              && last < Bound(txns, cursor) && txns[last].account == id
              && all == Page(txns, id, f, limit, cursor) + Reversed(Chronological(txns, id, f, last))
  {
    var n := Bound(txns, cursor);
    var up := Chronological(txns, id, f, n);
    var page := Page(txns, id, f, limit, cursor);
    if page != [] {
      ChronologicalPrefix(txns, id, f, n, |up| - |page|);
    }
  }

  /** Below a row it already had, a grown log shows the same page. */
  lemma GrownPage(txns: seq<Txn>, more: seq<Txn>, id: string, f: Filter, limit: nat, cursor: nat)
    requires txns <= more && cursor < |txns| && txns[cursor].account == id
    ensures Page(more, id, f, limit, Some(cursor)) == Page(txns, id, f, limit, Some(cursor))
  {
    GrowingLogSelectsTheSame(txns, more, id, f, cursor);
  }

  lemma ReversedIsNewestFirst(txns: seq<Txn>, id: string, f: Filter, n: nat)
    requires n <= |txns|
    ensures var rows := Reversed(Chronological(txns, id, f, n));
            && (forall i, j | 0 <= i < j < |rows| :: rows[i] > rows[j])
            && (forall x: nat :: x in rows <==> x < n && Matches(id, f, txns[x]))
  {
    var up := Chronological(txns, id, f, n);
    var rows := Reversed(up);
    forall i, j | 0 <= i < j < |rows| ensures rows[i] > rows[j] {
      ChronologicalAscends(txns, id, f, n, |up| - 1 - j, |up| - 1 - i);
    }
    forall x: nat | x < n && Matches(id, f, txns[x]) ensures x in rows {
      var at := ChronologicalIsComplete(txns, id, f, n, x);
      assert rows[|up| - 1 - at] == x;
    }
  }

  /** From any cursor on, the walk collects the rows the log already had below it. */
  lemma {:induction false} WalkFromCursor(log: nat -> seq<Txn>, id: string, f: Filter, limit: nat, i: nat, cursor: nat)
    requires Growing(log) && limit > 0
    requires cursor < |log(0)| && log(0)[cursor].account == id
    ensures Walk(log, id, f, limit, i, Some(cursor)) == Reversed(Chronological(log(0), id, f, cursor))
    decreases cursor
  {
    hide Chronological, Reversed, Page, Growing;
    LaterLogExtends(log, i);
    GrownPage(log(0), log(i), id, f, limit, cursor);
    PageSplits(log(0), id, f, limit, Some(cursor));
    var page := Page(log(0), id, f, limit, Some(cursor));
    if page != [] {
      WalkFromCursor(log, id, f, limit, i + 1, page[|page| - 1]);
    }
  }

  lemma WalkFromStart(log: nat -> seq<Txn>, id: string, f: Filter, limit: nat)
    requires Growing(log) && limit > 0
    ensures Walk(log, id, f, limit, 0, None) == Reversed(Chronological(log(0), id, f, |log(0)|))
  {
    hide Chronological, Reversed, Page, Growing;
    PageSplits(log(0), id, f, limit, None);
    var page := Page(log(0), id, f, limit, None);
    if page != [] {
      WalkFromCursor(log, id, f, limit, 1, page[|page| - 1]);
    }
  }

  /** The walk ends and yields every row that matched at the first page, once, newest first. */
  lemma WalkRefinesFilterAndSort(log: nat -> seq<Txn>, id: string, f: Filter, limit: nat)
    requires Growing(log) && limit > 0
    ensures var rows := Walk(log, id, f, limit, 0, None);
            && rows == Reversed(Chronological(log(0), id, f, |log(0)|))
            && (forall i, j | 0 <= i < j < |rows| :: rows[i] > rows[j])
            && (forall x: nat :: x in rows <==> x < |log(0)| && Matches(id, f, log(0)[x]))
  {
    hide Chronological, Matches, Growing, Reversed, Walk;
    WalkFromStart(log, id, f, limit);
    ReversedIsNewestFirst(log(0), id, f, |log(0)|);
  }

  /** A cursor that names no row of the account ends the walk at once. */
  lemma ForeignCursorEndsWalk(log: nat -> seq<Txn>, id: string, f: Filter, limit: nat, i: nat, cursor: nat)
    requires cursor < |log(i)| ==> log(i)[cursor].account != id
    ensures Walk(log, id, f, limit, i, Some(cursor)) == []
  {
  }

  // ---------------------------------------------------------------- every run

  lemma {:induction false} RunOnlyAppends(cfg: Settings, reqs: seq<Request>, more: seq<Request>)
    requires AllProper(more) && reqs <= more
    ensures Run(EMPTY, cfg, reqs).txns <= Run(EMPTY, cfg, more).txns
    decreases |more|
  {
    if |reqs| < |more| {
      var front := more[..|more| - 1];
      RunOnlyAppends(cfg, reqs, front);
      RunIsSafe(cfg, front);
      StepRows(Run(EMPTY, cfg, front), cfg, more[|more| - 1]);
    } else {
      assert reqs == more;
    }
  }

  function LogDuring(cfg: Settings, history: nat -> seq<Request>): nat -> seq<Txn> {
    (i: nat) => Run(EMPTY, cfg, history(i)).txns
  }

  /** Whatever requests the bank serves between the pages, the walk is right about the first page's log. */
  lemma PagingDuringAnyRun(cfg: Settings, history: nat -> seq<Request>, id: string, f: Filter, limit: nat)
    requires limit > 0
    requires forall i: nat :: AllProper(history(i)) && history(i) <= history(i + 1)
    ensures Walk(LogDuring(cfg, history), id, f, limit, 0, None)
         == Reversed(Chronological(Run(EMPTY, cfg, history(0)).txns, id, f, |Run(EMPTY, cfg, history(0)).txns|))
  {
    var log := LogDuring(cfg, history);
    forall i: nat ensures log(i) <= log(i + 1) {
      RunOnlyAppends(cfg, history(i), history(i + 1));
    }
    WalkRefinesFilterAndSort(log, id, f, limit);
  }
}
