/** Which rows a statement or a page lists, in the terms of its filters. */
module StatementQueries {
  import opened Prelude
  import opened Digits
  import opened Tables
  import opened Statements
  import opened Paging

  /** What a type filter asks for: a kind of movement, all of them, or a type by its own name. */
  predicate KindWanted(filter: Option<string>, kind: Kind)
    requires !kind.OtherKind?
  {
    if filter.None? || filter.value == "" || filter.value == "all" then true
    else
      var word := Lower(Strip(filter.value));
      if word == "transfer" then kind == TransferIn || kind == TransferOut
      else if word == "grant" then kind == DemoGrant || kind == Deposit
      else
        && (kind == TransferIn <==> word == "transfer_in") && (kind == TransferOut <==> word == "transfer_out")
        && (kind == DemoGrant <==> word == "demo_grant") && (kind == Deposit <==> word == "deposit")
        && (kind == Withdrawal <==> word == "withdraw")
  }

  lemma KindsAreWanted(filter: Option<string>, kind: Kind)
    requires !kind.OtherKind?
    ensures TypesForFilter(filter).None? || KindText(kind) in TypesForFilter(filter).value <==> KindWanted(filter, kind)
  {
    hide Lower, Strip;
    if !AnyType(filter) {
      KeysAgree(KindText(kind), Lower(Strip(filter.value)));
    }
  }

  /** A row of the account, dated in the period, of a kind and a size asked for, money in or money out as asked for. */
  predicate Wanted(id: string, f: Filter, filter: Option<string>, t: Txn)
    requires !t.kind.OtherKind?
  {
    && t.account == id && KindWanted(filter, t.kind)
    && !(f.from.Some? && t.createdAt < f.from.value) && !(f.until.Some? && t.createdAt >= f.until.value)
    && !(f.least.Some? && t.amount as real / 100.0 < f.least.value)
    && !(f.most.Some? && t.amount as real / 100.0 > f.most.value)
    && !(f.direction == "in" && t.amount < 0) && !(f.direction == "out" && t.amount >= 0)
  }

  lemma MatchesIs(id: string, f: Filter, filter: Option<string>, t: Txn)
    requires !t.kind.OtherKind? && f.types == TypesForFilter(filter)
    ensures Matches(id, f, t) <==> Wanted(id, f, filter, t)
  {
    hide TypesForFilter, KindWanted, KindText;
    KindsAreWanted(filter, t.kind);
  }

  /** The rows below a bound that a filter lists are exactly those wanted. */
  lemma ListedExactly(txns: seq<Txn>, id: string, f: Filter, filter: Option<string>, n: nat, x: nat)
    requires n <= |txns| && f.types == TypesForFilter(filter) && forall t | t in txns :: !t.kind.OtherKind?
    ensures x in Chronological(txns, id, f, n) <==> x < n && Wanted(id, f, filter, txns[x])
  {
    hide TypesForFilter, Wanted;
    forall y | 0 <= y < n ensures Matches(id, f, txns[y]) <==> Wanted(id, f, filter, txns[y]) {
      MatchesIs(id, f, filter, txns[y]);
    }
    if x < n && Matches(id, f, txns[x]) {
      var at := ChronologicalIsComplete(txns, id, f, n, x);
    }
  }

  function Towards(f: Filter, direction: string): Filter {
    f.(direction := direction)
  }

  /** Money in and money out make up the whole: every listed amount is on one side, by its sign. */
  lemma DirectionsPartition(txns: seq<Txn>, id: string, f: Filter)
    ensures var n := |txns|;
            var into := Sum(Chronological(txns, id, Towards(f, "in"), n), AmountAt(txns));
            var out := Sum(Chronological(txns, id, Towards(f, "out"), n), AmountAt(txns));
            into + out == Sum(Chronological(txns, id, Towards(f, "all"), n), AmountAt(txns)) && into >= 0 && out <= 0
  {
    var i, o, a := Towards(f, "in"), Towards(f, "out"), Towards(f, "all");
    MatchedSum(txns, id, i, |txns|);
    MatchedSum(txns, id, o, |txns|);
    MatchedSum(txns, id, a, |txns|);
    assert txns[..|txns|] == txns;
    SumSplits(txns, MatchedAmount(id, a), MatchedAmount(id, i), MatchedAmount(id, o));
    SignOf(txns, MatchedAmount(id, i));
    SignOf(txns, MatchedAmount(id, o));
  }

  lemma {:induction false} SignOf(txns: seq<Txn>, measure: Txn -> int)
    ensures (forall t | t in txns :: measure(t) >= 0) ==> Sum(txns, measure) >= 0
    ensures (forall t | t in txns :: measure(t) <= 0) ==> Sum(txns, measure) <= 0
  {
    if txns == [] {
    } else {
      SignOf(txns[..|txns| - 1], measure);
    }
  }

  function Least(a: nat, b: nat): nat {
    if a < b then a else b
  }

  /** A page is as long as it can be: up to its limit, a hundred, or the rows left below the cursor. */
  lemma PageIsFull(txns: seq<Txn>, id: string, f: Filter, limit: nat, cursor: Option<nat>)
    requires cursor.Some? ==> cursor.value < |txns| && txns[cursor.value].account == id
    ensures |Page(txns, id, f, limit, cursor)|
         == Least(Least(limit, 100), |Chronological(txns, id, f, Bound(txns, cursor))|)
  {
  }

  /** An export holds the first five hundred rows of the period, oldest first. */
  lemma ExportIsFull(txns: seq<Txn>, id: string, f: Filter)
    ensures |Exported(txns, id, f)| == Least(500, |Chronological(txns, id, f, |txns|)|)
    ensures Exported(txns, id, f) <= Chronological(txns, id, f, |txns|)
  {
  }
}
