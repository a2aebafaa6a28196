/** Python's ordering of strings (code point by code point) and `sorted` over distinct strings. */
module TextOrder {

  predicate Less(a: string, b: string) {
    b != "" && (a == "" || a[0] < b[0] || (a[0] == b[0] && Less(a[1..], b[1..])))
  }

  lemma {:induction false} LessIsStrict(a: string, b: string)
    ensures Less(a, b) ==> !Less(b, a) && a != b
  {
    if a != "" && b != "" && a[0] == b[0] {
      LessIsStrict(a[1..], b[1..]);
    }
  }

  lemma {:induction false} LessIsTotal(a: string, b: string)
    ensures Less(a, b) || a == b || Less(b, a)
  {
    if a != "" && b != "" && a[0] == b[0] {
      LessIsTotal(a[1..], b[1..]);
      assert a == [a[0]] + a[1..] && b == [b[0]] + b[1..];
    }
  }

  lemma {:induction false} LessIsTransitive(a: string, b: string, c: string)
    requires Less(a, b) && Less(b, c)
    ensures Less(a, c)
  {
    if a != "" && a[0] == b[0] && b[0] == c[0] {
      LessIsTransitive(a[1..], b[1..], c[1..]);
    }
  }

  /** The first place where two texts differ decides, and a text comes before its continuations. */
  lemma {:induction false} LessExactly(a: string, b: string)
    ensures Less(a, b) <==> exists i :: DecidedAt(a, b, i)
  {
    if b == "" || a == "" {
      if b != "" {
        assert DecidedAt(a, b, 0);
      }
    } else if a[0] != b[0] {
      if a[0] < b[0] {
        assert DecidedAt(a, b, 0);
      }
      forall i ensures DecidedAt(a, b, i) ==> i == 0 {
        assert 0 < i <= |a| && i < |b| ==> a[..i][0] == a[0] && b[..i][0] == b[0];
      }
    } else {
      LessExactly(a[1..], b[1..]);
      if Less(a[1..], b[1..]) {
        var i :| DecidedAt(a[1..], b[1..], i);
        assert a[..i + 1] == [a[0]] + a[1..][..i] && b[..i + 1] == [b[0]] + b[1..][..i];
        assert DecidedAt(a, b, i + 1);
      }
      if i :| DecidedAt(a, b, i) {
        assert i > 0;
        assert a[1..][..i - 1] == a[..i][1..] && b[1..][..i - 1] == b[..i][1..];
        assert DecidedAt(a[1..], b[1..], i - 1);
      }
    }
  }

  predicate DecidedAt(a: string, b: string, i: int) {
    && 0 <= i <= |a| && i < |b| && a[..i] == b[..i]
    && (i == |a| || a[i] < b[i])
  }

  ghost predicate Ascending(ids: seq<string>) {
    forall i, j | 0 <= i < j < |ids| :: Less(ids[i], ids[j])
  }

  /** `sorted(set(ids))`: ascending, without repetitions. */
  function Sorted(ids: seq<string>): (r: seq<string>)
    ensures Ascending(r)
    ensures forall id :: id in r <==> id in ids
  {
    if ids == [] then [] else Insert(ids[0], Sorted(ids[1..]))
  }

  function Insert(id: string, ids: seq<string>): (r: seq<string>)
    requires Ascending(ids)
    ensures Ascending(r)
    ensures forall x :: x in r <==> x == id || x in ids
  {
    if ids == [] then [id]
    else if id == ids[0] then ids
    else if Less(id, ids[0]) then
      assert forall x | x in ids :: Less(id, x) by {
        forall x | x in ids ensures Less(id, x) {
          if x != ids[0] { LessIsTransitive(id, ids[0], x); }
        }
      }
      [id] + ids
    else
      LessIsTotal(id, ids[0]);
      var rest := Insert(id, ids[1..]);
      assert forall x | x in rest :: Less(ids[0], x);
      [ids[0]] + rest
  }

  /** An ascending sequence is determined by its elements, so sorting forgets the input order. */
  lemma {:induction false} AscendingIsUnique(a: seq<string>, b: seq<string>)
    requires Ascending(a) && Ascending(b)
    requires forall x :: x in a <==> x in b
    ensures a == b
  {
    assert a != [] ==> a[0] in a;
    assert b != [] ==> b[0] in b;
    if a != [] && b != [] {
      LessIsStrict(a[0], b[0]);
      LessIsStrict(b[0], a[0]);
      assert a[0] == b[0];
      forall x ensures x in a[1..] <==> x in b[1..] {
        LessIsStrict(a[0], a[0]);
        assert x in a <==> x == a[0] || x in a[1..];
        assert x in b <==> x == b[0] || x in b[1..];
        if x == a[0] {
          assert x !in a[1..];
          assert x !in b[1..];
        }
      }
      AscendingIsUnique(a[1..], b[1..]);
      assert a == [a[0]] + a[1..] && b == [b[0]] + b[1..];
    }
  }
}
