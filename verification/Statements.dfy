/** Statements: the filtered rows of one account in id order, with an opening and running balances. */
module Statements {
  import opened Prelude
  import opened Digits
  import opened Tables
  import opened LedgerLaws
  import opened Bank
  import opened MoneyLaws

  const EXPORT_MAX_ROWS := 500

  /** Day bounds as times, amount bounds in currency units, direction already stripped and lower-cased. */
  datatype Filter = Filter(
    from: Option<int>,
    until: Option<int>,
    types: Option<seq<string>>,
    least: Option<real>,
    most: Option<real>,
    direction: string)

  // ---------------------------------------------------------------- the type filter

  function KindText(kind: Kind): string {
    match kind
    case DemoGrant => "demo_grant"
    case TransferOut => "transfer_out"
    case TransferIn => "transfer_in"
    case Withdrawal => "withdraw"
    case Deposit => "deposit"
    case OtherKind(name) => name
  }

  const TRANSFER_TYPES := ["transfer_in", "transfer_out", "pix_in", "pix_out"]
  const GRANT_TYPES := ["demo_grant", "deposit", "interest", "refund"]

  predicate AnyType(txType: Option<string>) {
    txType.None? || txType.value == "" || txType.value == "all"
  }

  function KeyTypes(key: string): seq<string> {
    if key == "transfer" then TRANSFER_TYPES
    else if key == "grant" then GRANT_TYPES
    else if key == "withdraw" then ["withdraw"]
    else [key]
  }

  /** `_types_for_filter`: the list handed to the query, or none for "every type". */
  function TypesForFilter(txType: Option<string>): Option<seq<string>> {
    if AnyType(txType) then None else Some(KeyTypes(Lower(Strip(txType.value))))
  }

  predicate KeyMatch(t: string, key: string) {
    if key == "transfer" then t == "transfer_in" || t == "transfer_out" || t == "pix_in" || t == "pix_out"
    else if key == "grant" then t == "demo_grant" || t == "deposit" || t == "interest" || t == "refund"
    else if key == "withdraw" then t == "withdraw"
    else t == key
  }

  /** `type_filter_match`: the same filter applied to one row afterwards. */
  predicate TypeFilterMatch(kind: string, txType: Option<string>) {
    AnyType(txType) || KeyMatch(Lower(kind), Lower(Strip(txType.value)))
  }

  lemma OneOfFour(x: string, a: string, b: string, c: string, d: string)
    ensures x in [a, b, c, d] <==> x == a || x == b || x == c || x == d
  {
  }

  lemma KeysAgree(t: string, key: string)
    ensures KeyMatch(t, key) <==> t in KeyTypes(key)
  {
    if key == "transfer" {
      OneOfFour(t, "transfer_in", "transfer_out", "pix_in", "pix_out");
    } else if key == "grant" {
      OneOfFour(t, "demo_grant", "deposit", "interest", "refund");
    }
  }

  /** The two type filters select the same rows, so filtering again after the query removes nothing. */
  lemma TypeFiltersAgree(kind: string, txType: Option<string>)
    requires Lower(kind) == kind
    ensures TypeFilterMatch(kind, txType) <==>
              TypesForFilter(txType).None? || kind in TypesForFilter(txType).value
  {
    if !AnyType(txType) {
      KeysAgree(kind, Lower(Strip(txType.value)));
    }
  }

  // ---------------------------------------------------------------- the query

  predicate InPeriod(f: Filter, t: Txn) {
    && (f.from.Some? ==> t.createdAt >= f.from.value)
    && (f.until.Some? ==> t.createdAt < f.until.value)
  }

  predicate Matches(id: string, f: Filter, t: Txn) {
    && t.account == id
    && InPeriod(f, t)
    && (f.types.Some? ==> KindText(t.kind) in f.types.value)
    && (f.least.Some? ==> t.amount as real >= f.least.value * 100.0)
    && (f.most.Some? ==> t.amount as real <= f.most.value * 100.0)
    && (f.direction == "in" ==> t.amount >= 0)
    && (f.direction == "out" ==> t.amount < 0)
  }

  /** Ids below n of the matching rows, in ascending order. */
  function Chronological(txns: seq<Txn>, id: string, f: Filter, n: nat): (r: seq<nat>)
    requires n <= |txns|
    ensures forall i | 0 <= i < |r| :: r[i] < n && Matches(id, f, txns[r[i]])
  {
    if n == 0 then []
    else Chronological(txns, id, f, n - 1) + (if Matches(id, f, txns[n - 1]) then [n - 1] else [])
  }

  lemma {:induction false} ChronologicalAscends(txns: seq<Txn>, id: string, f: Filter, n: nat, i: nat, j: nat)
    requires n <= |txns| && i < j < |Chronological(txns, id, f, n)|
    ensures Chronological(txns, id, f, n)[i] < Chronological(txns, id, f, n)[j]
  {
    if j < |Chronological(txns, id, f, n - 1)| {
      ChronologicalAscends(txns, id, f, n - 1, i, j);
    }
  }

  /** Position of a matching row in the selection. */
  lemma {:induction false} ChronologicalIsComplete(txns: seq<Txn>, id: string, f: Filter, n: nat, x: nat)
    returns (at: nat)
    requires x < n <= |txns| && Matches(id, f, txns[x])
    ensures at < |Chronological(txns, id, f, n)| && Chronological(txns, id, f, n)[at] == x
  {
    if x < n - 1 {
      at := ChronologicalIsComplete(txns, id, f, n - 1, x);
    } else {
      at := |Chronological(txns, id, f, n - 1)|;
    }
  }

  function Reversed(ids: seq<nat>): (r: seq<nat>)
    ensures |r| == |ids| && forall i | 0 <= i < |r| :: r[i] == ids[|ids| - 1 - i]
  {
    seq(|ids|, i requires 0 <= i < |ids| => ids[|ids| - 1 - i])
  }

  function Take(ids: seq<nat>, limit: nat): seq<nat> {
    if |ids| <= limit then ids else ids[..limit]
  }

  /** `list_transactions`: a cursor that is not a row of the account yields nothing. */
  function ListTransactions(txns: seq<Txn>, id: string, f: Filter, limit: nat, cursor: Option<nat>,
                            chronological: bool): seq<nat>
  {
    if cursor.Some? && !(cursor.value < |txns| && txns[cursor.value].account == id) then []
    else
      var ids := Chronological(txns, id, f, if cursor.Some? then cursor.value else |txns|);
      Take(if chronological then ids else Reversed(ids), limit)
  }

  function DatedBefore(id: string, before: int): Txn -> int {
    (t: Txn) => if t.account == id && t.createdAt < before then t.amount else 0
  }

  function SumAmountBefore(txns: seq<Txn>, id: string, before: int): int {
    Sum(txns, DatedBefore(id, before))
  }

  function AmountAt(txns: seq<Txn>): nat -> int {
    (i: nat) => if i < |txns| then txns[i].amount else 0
  }

  // ---------------------------------------------------------------- the export

  function Exported(txns: seq<Txn>, id: string, f: Filter): seq<nat> {
    ListTransactions(txns, id, f, EXPORT_MAX_ROWS, None, true)
  }

  /** The sum dated before the period, or before the first listed row when the period has no start. */
  function Opening(txns: seq<Txn>, id: string, f: Filter): int {
    var rows := Exported(txns, id, f);
    if f.from.Some? then SumAmountBefore(txns, id, f.from.value)
    else if rows == [] then 0
    else SumAmountBefore(txns, id, txns[rows[0]].createdAt)
  }

  function BalanceAfter(txns: seq<Txn>, id: string, f: Filter, k: nat): int
    requires k <= |Exported(txns, id, f)|
  {
    Opening(txns, id, f) + Sum(Exported(txns, id, f)[..k], AmountAt(txns))
  }

  function Closing(txns: seq<Txn>, id: string, f: Filter): int {
    BalanceAfter(txns, id, f, |Exported(txns, id, f)|)
  }

  datatype Statement = Statement(opening: int, rows: seq<nat>, balances: seq<int>, closing: int)

  /** `export_statement` up to rendering. */
  method ExportStatement(txns: seq<Txn>, id: string, f: Filter) returns (s: Statement)
    ensures s.rows == Exported(txns, id, f) && s.opening == Opening(txns, id, f)
    ensures |s.balances| == |s.rows|
    ensures forall k | 0 <= k < |s.rows| :: s.balances[k] == BalanceAfter(txns, id, f, k + 1)
    ensures s.closing == Closing(txns, id, f)
  {
    var rows := ListTransactions(txns, id, f, EXPORT_MAX_ROWS, None, true);
    var start := f.from;
    if start.None? && rows != [] {
      start := Some(txns[rows[0]].createdAt);
    }
    var opening := if start.Some? then SumAmountBefore(txns, id, start.value) else 0;
    var running := opening;
    var balances := [];
    for k := 0 to |rows|
      invariant |balances| == k && running == BalanceAfter(txns, id, f, k)
      invariant forall i | 0 <= i < k :: balances[i] == BalanceAfter(txns, id, f, i + 1)
    {
      SumAppend<nat>(rows[..k], rows[k], AmountAt(txns));
      assert rows[..k + 1] == rows[..k] + [rows[k]];
      running := running + txns[rows[k]].amount;
      balances := balances + [running];
    }
    s := Statement(opening, rows, balances, running);
  }

  // ---------------------------------------------------------------- what the query selects

  lemma {:induction false} ChronologicalPrefix(txns: seq<Txn>, id: string, f: Filter, n: nat, k: nat)
    requires n <= |txns| && k < |Chronological(txns, id, f, n)|
    ensures Chronological(txns, id, f, Chronological(txns, id, f, n)[k]) == Chronological(txns, id, f, n)[..k]
  {
    var all, front := Chronological(txns, id, f, n), Chronological(txns, id, f, n - 1);
    if k < |front| {
      ChronologicalPrefix(txns, id, f, n - 1, k);
      assert all[..k] == front[..k];
    } else {
      assert all[..k] == front;
    }
  }

  lemma {:induction false} GrowingLogSelectsTheSame(txns: seq<Txn>, more: seq<Txn>, id: string, f: Filter, n: nat)
    requires n <= |txns| && txns <= more
    ensures Chronological(more, id, f, n) == Chronological(txns, id, f, n)
  {
    if n == 0 {
    } else {
      GrowingLogSelectsTheSame(txns, more, id, f, n - 1);
    }
  }

  function MatchedAmount(id: string, f: Filter): Txn -> int {
    (t: Txn) => if Matches(id, f, t) then t.amount else 0
  }

  lemma {:induction false} MatchedSum(txns: seq<Txn>, id: string, f: Filter, n: nat)
    requires n <= |txns|
    ensures Sum(Chronological(txns, id, f, n), AmountAt(txns)) == Sum(txns[..n], MatchedAmount(id, f))
  {
    if n == 0 {
    } else {
      MatchedSum(txns, id, f, n - 1);
      assert txns[..n][..n - 1] == txns[..n - 1];
      var front := Chronological(txns, id, f, n - 1);
      SumAppend<nat>(front, n - 1, AmountAt(txns));
      assert front + [] == front;
    }
  }

  // ---------------------------------------------------------------- statements tell the truth

  predicate DatesOnly(f: Filter) {
    f.types.None? && f.least.None? && f.most.None? && f.direction != "in" && f.direction != "out"
  }

  /** The account's rows are dated in id order. */
  ghost predicate DatedInOrder(txns: seq<Txn>, id: string) {
    forall i, j | 0 <= i < j < |txns| && txns[i].account == txns[j].account == id ::
      txns[i].createdAt <= txns[j].createdAt
  }

  /** Where the opening balance stops: the start of the period, or the first listed row. */
  function StartOf(txns: seq<Txn>, id: string, f: Filter): int
    requires Exported(txns, id, f) != []
  {
    if f.from.Some? then f.from.value else txns[Exported(txns, id, f)[0]].createdAt
  }

  lemma ListedIsPrefix(txns: seq<Txn>, id: string, f: Filter, k: nat)
    requires k < |Exported(txns, id, f)|
    ensures var row := Exported(txns, id, f)[k];
            Exported(txns, id, f)[..k + 1] == Chronological(txns, id, f, row + 1)
  {
    var all := Chronological(txns, id, f, |txns|);
    ChronologicalPrefix(txns, id, f, |txns|, k);
    assert all[..k + 1] == all[..k] + [all[k]];
    assert Exported(txns, id, f)[..k + 1] == all[..k + 1];
  }

  lemma FirstListedIsFirst(txns: seq<Txn>, id: string, f: Filter, x: nat)
    requires x < |txns| && Matches(id, f, txns[x])
    ensures Exported(txns, id, f) != [] && Exported(txns, id, f)[0] <= x
  {
    var at := ChronologicalIsComplete(txns, id, f, |txns|, x);
    if at > 0 {
      ChronologicalAscends(txns, id, f, |txns|, 0, at);
    }
  }

  lemma ListedInOrder(txns: seq<Txn>, id: string, f: Filter, i: nat, j: nat)
    requires i <= j < |Exported(txns, id, f)|
    ensures Exported(txns, id, f)[i] <= Exported(txns, id, f)[j]
  {
    if i < j {
      ChronologicalAscends(txns, id, f, |txns|, i, j);
    }
  }

  /** In date order a row up to the listed one is either before the opening or selected, never both. */
  lemma EachRowOnce(txns: seq<Txn>, id: string, f: Filter, k: nat, i: nat)
    requires DatesOnly(f) && DatedInOrder(txns, id) && k < |Exported(txns, id, f)|
    requires i <= Exported(txns, id, f)[k]
    ensures var start := StartOf(txns, id, f);
            OfAccount(id)(txns[i]) == DatedBefore(id, start)(txns[i]) + MatchedAmount(id, f)(txns[i])
  {
    var rows := Exported(txns, id, f);
    assert Matches(id, f, txns[rows[k]]) && Matches(id, f, txns[rows[0]]);
    if txns[i].account == id {
      assert txns[i].createdAt <= txns[rows[k]].createdAt;
      if f.from.None? {
        FirstListedIsFirst(txns, id, f, i);
      }
    }
  }

  /** Nothing after a listed row counts towards the opening balance. */
  lemma OpeningIsBefore(txns: seq<Txn>, id: string, f: Filter, k: nat)
    requires DatedInOrder(txns, id) && k < |Exported(txns, id, f)|
    ensures Opening(txns, id, f) == Sum(txns[..Exported(txns, id, f)[k] + 1], DatedBefore(id, StartOf(txns, id, f)))
  {
    var rows := Exported(txns, id, f);
    var start := StartOf(txns, id, f);
    var n := rows[k] + 1;
    assert Matches(id, f, txns[rows[k]]) && Matches(id, f, txns[rows[0]]);
    ListedInOrder(txns, id, f, 0, k);
    assert txns[rows[k]].createdAt >= start;
    forall t | t in txns[n..] ensures DatedBefore(id, start)(t) == 0 {
      var j :| n <= j < |txns| && txns[j] == t;
    }
    SumOfNothing(txns[n..], DatedBefore(id, start));
    SumConcat(txns[..n], txns[n..], DatedBefore(id, start));
    assert txns == txns[..n] + txns[n..];
  }

  /** Each balance printed is the account's balance right after that row. */
  lemma RunningBalanceIsExact(txns: seq<Txn>, id: string, f: Filter, k: nat)
    requires DatesOnly(f) && DatedInOrder(txns, id) && k < |Exported(txns, id, f)|
    ensures BalanceAfter(txns, id, f, k + 1) == Sum(txns[..Exported(txns, id, f)[k] + 1], OfAccount(id))
  {
    var n := Exported(txns, id, f)[k] + 1;
    var start := StartOf(txns, id, f);
    forall t | t in txns[..n] ensures OfAccount(id)(t) == DatedBefore(id, start)(t) + MatchedAmount(id, f)(t) {
      var i :| 0 <= i < n && txns[i] == t;
      EachRowOnce(txns, id, f, k, i);
    }
    SumSplits(txns[..n], OfAccount(id), DatedBefore(id, start), MatchedAmount(id, f));
    OpeningIsBefore(txns, id, f, k);
    ListedIsPrefix(txns, id, f, k);
    MatchedSum(txns, id, f, n);
  }

  // ---------------------------------------------------------------- the closing balance, whatever the dates

  /** Matching rows beyond the export limit. */
  function Omitted(txns: seq<Txn>, id: string, f: Filter): seq<nat> {
    var all := Chronological(txns, id, f, |txns|);
    all[|Exported(txns, id, f)|..]
  }

  /** What an open-ended statement counts twice: rows dated before the first listed one. */
  function CountedTwice(txns: seq<Txn>, id: string, f: Filter): int {
    if f.from.None? then Opening(txns, id, f) else 0
  }

  /** Without an end date the statement closes at the balance, less the rows cut off, plus the rows counted twice. */
  lemma ClosingBalance(db: Db, id: string, f: Filter)
    requires CachedIsLog(db) && id in db.accounts && DatesOnly(f) && f.until.None?
    ensures Closing(db.txns, id, f)
         == db.accounts[id].balance - Sum(Omitted(db.txns, id, f), AmountAt(db.txns)) + CountedTwice(db.txns, id, f)
  {
    var txns := db.txns;
    var all, rows := Chronological(txns, id, f, |txns|), Exported(txns, id, f);
    assert all == rows + Omitted(txns, id, f);
    SumConcat(rows, Omitted(txns, id, f), AmountAt(txns));
    MatchedSum(txns, id, f, |txns|);
    assert txns[..|txns|] == txns && rows[..|rows|] == rows;
    if f.from.Some? {
      SumSplits(txns, OfAccount(id), DatedBefore(id, f.from.value), MatchedAmount(id, f));
    } else {
      SumAgrees(txns, OfAccount(id), MatchedAmount(id, f));
    }
  }

  /** It closes at the balance exactly when the rows cut off and the rows counted twice cancel out. */
  lemma ClosesAtBalanceIff(db: Db, id: string, f: Filter)
    requires CachedIsLog(db) && id in db.accounts && DatesOnly(f) && f.until.None?
    ensures Closing(db.txns, id, f) == db.accounts[id].balance <==>
              Sum(Omitted(db.txns, id, f), AmountAt(db.txns)) == CountedTwice(db.txns, id, f)
    ensures |Chronological(db.txns, id, f, |db.txns|)| <= EXPORT_MAX_ROWS && f.from.Some? ==>
              Closing(db.txns, id, f) == db.accounts[id].balance
    ensures |Chronological(db.txns, id, f, |db.txns|)| <= EXPORT_MAX_ROWS && DatedInOrder(db.txns, id) ==>
              Closing(db.txns, id, f) == db.accounts[id].balance
  {
    ClosingBalance(db, id, f);
    var rows := Exported(db.txns, id, f);
    if DatedInOrder(db.txns, id) && f.from.None? && rows != [] {
      forall t | t in db.txns ensures DatedBefore(id, StartOf(db.txns, id, f))(t) == 0 {
        var i :| 0 <= i < |db.txns| && db.txns[i] == t;
        if t.account == id {
          FirstListedIsFirst(db.txns, id, f, i);
        }
      }
      SumOfNothing(db.txns, DatedBefore(id, StartOf(db.txns, id, f)));
    }
  }

  const EVERYTHING := Filter(None, None, None, None, None, "")

  /** Rows of the account dated neither before the opening nor inside the period. */
  function DatedPast(id: string, f: Filter, start: int): Txn -> int {
    (t: Txn) => if t.account == id && t.createdAt >= start && !InPeriod(f, t) then t.amount else 0
  }

  /** What the opening balance or the list takes a row into account for. */
  function Shown(id: string, f: Filter, start: int): Txn -> int {
    (t: Txn) => (if f.from.Some? then DatedBefore(id, start)(t) else 0) + MatchedAmount(id, f)(t)
  }

  /** The rows up to a listed one: shown, or past the end date. */
  lemma ShownOrPast(txns: seq<Txn>, id: string, f: Filter, k: nat, n: nat)
    requires DatesOnly(f) && k < |Exported(txns, id, f)| && n <= |txns|
    ensures var start := StartOf(txns, id, f);
            && Sum(txns[..n], OfAccount(id))
               == Sum(txns[..n], Shown(id, f, start)) + Sum(txns[..n], DatedPast(id, f, start))
            && Sum(txns[..n], Shown(id, f, start))
               == (if f.from.Some? then Sum(txns[..n], DatedBefore(id, start)) else 0)
                  + Sum(txns[..n], MatchedAmount(id, f))
  {
    var start := StartOf(txns, id, f);
    var first := txns[Exported(txns, id, f)[0]];
    assert Matches(id, f, first) && InPeriod(f, first);
    forall t | t in txns[..n] ensures OfAccount(id)(t) == Shown(id, f, start)(t) + DatedPast(id, f, start)(t) {
      assert MatchedAmount(id, f)(t) == if t.account == id && InPeriod(f, t) then t.amount else 0;
      if f.from.None? && t.createdAt < start {
        assert InPeriod(f, t);
      }
    }
    SumSplits(txns[..n], OfAccount(id), Shown(id, f, start), DatedPast(id, f, start));
    if f.from.Some? {
      SumSplits(txns[..n], Shown(id, f, start), DatedBefore(id, start), MatchedAmount(id, f));
    } else {
      SumAgrees(txns[..n], Shown(id, f, start), MatchedAmount(id, f));
    }
  }

  lemma ListedIsStored(txns: seq<Txn>, id: string, f: Filter, k: nat)
    requires k < |Exported(txns, id, f)|
    ensures Exported(txns, id, f)[k] < |txns|
  {
  }

  /** In any date order, a line of a date-filtered statement is right exactly when the later rows dated before the
      opening (and, without a start date, the earlier ones, which are listed too) add up to what the earlier rows past
      the end date do. */
  lemma LineIsExactIff(txns: seq<Txn>, id: string, f: Filter, k: nat)
    requires DatesOnly(f) && k < |Exported(txns, id, f)|
    ensures var n, start := Exported(txns, id, f)[k] + 1, StartOf(txns, id, f);
            BalanceAfter(txns, id, f, k + 1) == Sum(txns[..n], OfAccount(id)) <==>
              Sum(txns[n..], DatedBefore(id, start))
              + (if f.from.Some? then 0 else Sum(txns[..n], DatedBefore(id, start)))
              == Sum(txns[..n], DatedPast(id, f, start))
  {
    hide Sum, Exported, Chronological, InPeriod, DatedBefore, DatedPast, Shown, MatchedAmount, OfAccount;
    var n, start := Exported(txns, id, f)[k] + 1, StartOf(txns, id, f);
    ListedIsPrefix(txns, id, f, k);
    ListedIsStored(txns, id, f, k);
    MatchedSum(txns, id, f, n);
    ShownOrPast(txns, id, f, k, n);
    SumConcat(txns[..n], txns[n..], DatedBefore(id, start));
    assert txns == txns[..n] + txns[n..];
  }

  /** Two transactions committed against their start order: the first line is already off by the second amount. */
  lemma OutOfOrderRowsMislead(id: string, first: int, second: int, time: int)
    requires second != 0
    ensures var txns := [Txn(id, first, Deposit, None, None, time + 1), Txn(id, second, Deposit, None, None, time)];
            && Exported(txns, id, EVERYTHING) != []
            && BalanceAfter(txns, id, EVERYTHING, 1) == first + second
            && Sum(txns[..Exported(txns, id, EVERYTHING)[0] + 1], OfAccount(id)) == first
  {
    var txns := [Txn(id, first, Deposit, None, None, time + 1), Txn(id, second, Deposit, None, None, time)];
    assert Chronological(txns, id, EVERYTHING, 0) == [];
    assert Chronological(txns, id, EVERYTHING, 1) == [0];
    assert Exported(txns, id, EVERYTHING) == [0, 1];
    SumAppend(txns[..1], txns[1], DatedBefore(id, time + 1));
    SumAppend(txns[..0], txns[0], DatedBefore(id, time + 1));
    SumAppend(txns[..0], txns[0], OfAccount(id));
    assert txns == txns[..1] + [txns[1]] && txns[..1] == txns[..0] + [txns[0]];
    SumAppend<nat>([], 0, AmountAt(txns));
    assert Exported(txns, id, EVERYTHING)[..1] == [] + [0];
  }

  // ---------------------------------------------------------------- every reachable state

  ghost predicate InTimeOrder(reqs: seq<Request>) {
    forall i, j | 0 <= i < j < |reqs| :: reqs[i].now <= reqs[j].now
  }

  ghost predicate LogInOrder(txns: seq<Txn>) {
    forall i, j | 0 <= i < j < |txns| :: txns[i].createdAt <= txns[j].createdAt
  }

  lemma AppendedInOrder(txns: seq<Txn>, more: seq<Txn>, now: int)
    requires LogInOrder(txns) && txns <= more
    requires forall t | t in txns :: t.createdAt <= now
    requires forall t | t in more[|txns|..] :: t.createdAt == now
    ensures LogInOrder(more) && forall t | t in more :: t.createdAt <= now
  {
    forall i | 0 <= i < |more| ensures if i < |txns| then more[i] in txns else more[i].createdAt == now {
      if i >= |txns| {
        assert more[i] == more[|txns|..][i - |txns|];
      }
    }
  }

  lemma {:induction false} RunDatesRows(cfg: Settings, reqs: seq<Request>)
    requires AllProper(reqs) && InTimeOrder(reqs)
    ensures LogInOrder(Run(EMPTY, cfg, reqs).txns)
    ensures forall t | t in Run(EMPTY, cfg, reqs).txns :: reqs != [] && t.createdAt <= reqs[|reqs| - 1].now
  {
    if reqs == [] {
    } else {
      var front, last := reqs[..|reqs| - 1], reqs[|reqs| - 1];
      var db := Run(EMPTY, cfg, front);
      RunDatesRows(cfg, front);
      RunIsSafe(cfg, front);
      StepRows(db, cfg, last);
      AppendedInOrder(db.txns, Apply(db, cfg, last).txns, last.now);
    }
  }

  /** Right on every line, and at the end when no date cuts it short. */
  ghost predicate ExactStatement(db: Db, id: string, f: Filter)
    requires id in db.accounts
  {
    && (forall k: nat | k < |Exported(db.txns, id, f)| ::
          BalanceAfter(db.txns, id, f, k + 1) == Sum(db.txns[..Exported(db.txns, id, f)[k] + 1], OfAccount(id)))
    && (f.until.None? && |Chronological(db.txns, id, f, |db.txns|)| <= EXPORT_MAX_ROWS ==>
          Closing(db.txns, id, f) == db.accounts[id].balance)
  }

  lemma DateFilteredIsExact(db: Db, id: string, f: Filter)
    requires CachedIsLog(db) && id in db.accounts && DatesOnly(f) && DatedInOrder(db.txns, id)
    ensures ExactStatement(db, id, f)
  {
    forall k: nat | k < |Exported(db.txns, id, f)|
      ensures BalanceAfter(db.txns, id, f, k + 1) == Sum(db.txns[..Exported(db.txns, id, f)[k] + 1], OfAccount(id)) {
      RunningBalanceIsExact(db.txns, id, f, k);
    }
    if f.until.None? {
      ClosesAtBalanceIff(db, id, f);
    }
  }

  /** After any run in time order, every date-filtered statement is exact. */
  lemma RunStatementsAreExact(cfg: Settings, reqs: seq<Request>, id: string, f: Filter)
    requires AllProper(reqs) && InTimeOrder(reqs) && DatesOnly(f)
    requires id in Run(EMPTY, cfg, reqs).accounts
    ensures ExactStatement(Run(EMPTY, cfg, reqs), id, f)
  {
    RunDatesRows(cfg, reqs);
    RunIsSafe(cfg, reqs);
    DateFilteredIsExact(Run(EMPTY, cfg, reqs), id, f);
  }
}
