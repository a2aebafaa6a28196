/** The canonical form of a request body, and the idempotency key built from it. */
module Canonical {
  import opened Prelude
  import opened TextOrder
  import opened Errors
  import opened Money

  /** A parsed JSON value; `Float` holds the decimal its printed form denotes. */
  datatype Json =
    | Null
    | Bool(b: bool)
    | Int(n: int)
    | Float(d: Decimal)
    | Text(s: string)
    | List(items: seq<Json>)
    | Obj(fields: seq<Field>)

  datatype Field = Field(key: string, value: Json)

  /** `dict.get`: a key written twice has its last value. */
  function Get(fields: seq<Field>, key: string): (r: Option<Json>)
    ensures r.Some? ==> exists i :: 0 <= i < |fields| && fields[i] == Field(key, r.value)
    ensures r.Some? <==> key in Keys(fields)
  {
    if fields == [] then None
    else
      var front, last := fields[..|fields| - 1], fields[|fields| - 1];
      assert Keys(fields) == Keys(front) + [last.key];
      if last.key == key then Some(last.value) else Get(front, key)
  }

  function Keys(fields: seq<Field>): (r: seq<string>)
    ensures |r| == |fields| && forall i | 0 <= i < |r| :: r[i] == fields[i].key
  {
    seq(|fields|, i requires 0 <= i < |fields| => fields[i].key)
  }

  predicate Excluded(key: string) {
    key == "timestamp" || key == "request_id" || key == "idempotency_key" || key == "client_request_id"
    || key == "correlation_id"
  }

  predicate Monetary(key: string) {
    key == "amount" || key == "delta_amount"
  }

  // ---------------------------------------------------------------- amounts

  function OfInt(n: int): Decimal {
    Decimal(n < 0, if n < 0 then -n else n, 0)
  }

  /** The number a value is read as, if any. */
  function Number(v: Json): Option<Decimal> {
    match v
    case Int(n) => Some(OfInt(n))
    case Float(d) => Some(d)
    case Text(s) => ParseDecimal(s)
    case _ => None
  }

  /** That number in two decimals, when it fits the precision. */
  function Rounded(v: Json): Option<Decimal> {
    if Number(v).Some? then Quantize(Number(v).value) else None
  }

  /** `_normalize_decimal`: a number that does not fit raises, a text that is no amount is left alone. */
  function NormalizeDecimal(v: Json): Result<Json, Error> {
    match v
    case Int(_) => if Rounded(v).Some? then Success(Text(Str(Rounded(v).value))) else Failure(DecimalOverflow)
    case Float(_) => if Rounded(v).Some? then Success(Text(Str(Rounded(v).value))) else Failure(DecimalOverflow)
    case Text(s) => Success(Text(NormalizeText(s)))
    case _ => Success(v)
  }

  lemma QuantizeIsStable(d: Decimal)
    requires Quantize(d).Some?
    ensures Quantize(Quantize(d).value) == Quantize(d)
  {
    assert Hundredths(Quantize(d).value) == Hundredths(d) by { assert Pow10(0) == 1; }
  }

  /** A canonical amount still denotes the rounded number, and normalizing it again changes nothing. */
  lemma NormalizedAmount(v: Json)
    requires NormalizeDecimal(v).Success?
    ensures var c := NormalizeDecimal(v).value;
            && NormalizeDecimal(c) == Success(c)
            && Rounded(c) == Rounded(v)
            && (Rounded(v).Some? ==> c == Text(Str(Rounded(v).value)))
            && (Rounded(v).None? ==> c == v)
  {
    if Rounded(v).Some? {
      QuantizeIsStable(Number(v).value);
      AmountRoundTrip(Rounded(v).value);
    }
  }

  /** Same number of hundredths with the same sign, or the very same value where that is no amount. */
  predicate SameAmount(a: Json, b: Json) {
    if Rounded(a).Some? && Rounded(b).Some? then Rounded(a) == Rounded(b) else a == b
  }

  lemma SameAmountIff(a: Json, b: Json)
    requires NormalizeDecimal(a).Success? && NormalizeDecimal(b).Success?
    ensures NormalizeDecimal(a) == NormalizeDecimal(b) <==> SameAmount(a, b)
  {
    NormalizedAmount(a);
    NormalizedAmount(b);
  }

  // ---------------------------------------------------------------- canonical values

  /** `_canonicalize_value`; `monetary` says whether the key is a monetary one. */
  function CanonValue(v: Json, monetary: bool): Result<Json, Error>
    decreases v
  {
    match v
    case Obj(fields) =>
      var canonical :- CanonKeys(v, Sorted(Keys(fields)));
      Success(Obj(canonical))
    case List(items) =>
      var canonical :- CanonItems(v, 0);
      Success(List(canonical))
    case _ => if monetary then NormalizeDecimal(v) else Success(v)
  }

  /** The loop of `_canonicalize_dict` over the keys still to come. */
  function CanonKeys(o: Json, keys: seq<string>): Result<seq<Field>, Error>
    requires o.Obj? && forall key | key in keys :: key in Keys(o.fields)
    decreases o, |keys|
  {
    if keys == [] then Success([])
    else if Excluded(keys[0]) then CanonKeys(o, keys[1..])
    else
      var value :- CanonValue(Get(o.fields, keys[0]).value, Monetary(keys[0]));
      var rest :- CanonKeys(o, keys[1..]);
      Success([Field(keys[0], value)] + rest)
  }

  function CanonItems(l: Json, i: nat): Result<seq<Json>, Error>
    requires l.List? && i <= |l.items|
    decreases l, |l.items| - i
  {
    if i == |l.items| then Success([])
    else
      var value :- CanonValue(l.items[i], false);
      var rest :- CanonItems(l, i + 1);
      Success([value] + rest)
  }

  /** `_canonicalize_dict` */
  function CanonDict(fields: seq<Field>): Result<seq<Field>, Error> {
    CanonKeys(Obj(fields), Sorted(Keys(fields)))
  }

  function Prepended<T>(front: seq<T>, rest: Result<seq<T>, Error>): Result<seq<T>, Error> {
    match rest
    case Success(back) => Success(front + back)
    case Failure(e) => Failure(e)
  }

  lemma PrependedNothing<T>(rest: Result<seq<T>, Error>)
    ensures Prepended([], rest) == rest
  {
    if rest.Success? {
      assert [] + rest.value == rest.value;
    }
  }

  lemma PrependedMore<T>(front: seq<T>, one: T, rest: Result<seq<T>, Error>)
    ensures Prepended(front + [one], rest) == Prepended(front, Prepended([one], rest))
  {
    if rest.Success? {
      assert front + [one] + rest.value == front + ([one] + rest.value);
    }
  }

  method CanonicalizeValue(v: Json, monetary: bool) returns (r: Result<Json, Error>)
    ensures r == CanonValue(v, monetary)
    decreases v
  {
    match v {
      case Obj(_) =>
        var canonical :- CanonicalizeDict(v);
        return Success(Obj(canonical));
      case List(items) =>
        var canonical := [];
        PrependedNothing(CanonItems(v, 0));
        for i := 0 to |items|
          invariant CanonItems(v, 0) == Prepended(canonical, CanonItems(v, i))
        {
          var value :- CanonicalizeValue(items[i], false);
          PrependedMore(canonical, value, CanonItems(v, i + 1));
          canonical := canonical + [value];
        }
        assert canonical + [] == canonical;
        return Success(List(canonical));
      case _ =>
        return if monetary then NormalizeDecimal(v) else Success(v);
    }
  }

  method CanonicalizeDict(o: Json) returns (r: Result<seq<Field>, Error>)
    requires o.Obj?
    ensures r == CanonDict(o.fields)
    decreases o, 0
  {
    hide Excluded, Monetary, Get, CanonValue, Sorted, Keys;
    var keys := Sorted(Keys(o.fields));
    assert o == Obj(o.fields);
    var canonical := [];
    PrependedNothing(CanonKeys(o, keys));
    assert keys[0..] == keys;
    for i := 0 to |keys|
      invariant CanonKeys(o, keys) == Prepended(canonical, CanonKeys(o, keys[i..]))
    {
      assert keys[i..][1..] == keys[i + 1..];
      if Excluded(keys[i]) { continue; }
      var value :- CanonicalizeValue(Get(o.fields, keys[i]).value, Monetary(keys[i]));
      PrependedMore(canonical, Field(keys[i], value), CanonKeys(o, keys[i + 1..]));
      canonical := canonical + [Field(keys[i], value)];
    }
    assert canonical + [] == canonical;
    r := Success(canonical);
  }

  // ---------------------------------------------------------------- looking things up in a canonical dict

  /** What a canonical dict holds under a key. */
  function CanonLookup(fields: seq<Field>, key: string): Option<Result<Json, Error>> {
    if Excluded(key) || key !in Keys(fields) then None
    else Some(CanonValue(Get(fields, key).value, Monetary(key)))
  }

  lemma GetFront(first: Field, rest: seq<Field>, key: string)
    requires first.key !in Keys(rest)
    ensures Get([first] + rest, key) == if key == first.key then Some(first.value) else Get(rest, key)
  {
    if rest == [] {
      assert [first] + rest == [first] && [first][..0] == [];
    } else {
      var front := rest[..|rest| - 1];
      assert ([first] + rest)[..|rest|] == [first] + front;
      assert Keys(rest) == Keys(front) + [rest[|rest| - 1].key];
      GetFront(first, front, key);
    }
  }

  /** The keys that are not excluded. */
  function Kept(keys: seq<string>): (r: seq<string>)
    ensures forall k :: k in r <==> k in keys && !Excluded(k)
  {
    if keys == [] then [] else (if Excluded(keys[0]) then [] else [keys[0]]) + Kept(keys[1..])
  }

  lemma {:induction false} KeptAscends(keys: seq<string>)
    requires Ascending(keys)
    ensures Ascending(Kept(keys))
  {
    if keys == [] {
    } else {
      KeptAscends(keys[1..]);
      assert forall k | k in Kept(keys[1..]) :: k in keys[1..] && Less(keys[0], k);
    }
  }

  lemma {:induction false} CanonKeysKept(o: Json, keys: seq<string>)
    requires o.Obj? && forall key | key in keys :: key in Keys(o.fields)
    requires CanonKeys(o, keys).Success?
    ensures Keys(CanonKeys(o, keys).value) == Kept(keys)
  {
    if keys == [] {
    } else {
      CanonKeysKept(o, keys[1..]);
    }
  }

  lemma {:induction false} CanonKeysLookup(o: Json, keys: seq<string>, key: string)
    requires o.Obj? && (forall key | key in keys :: key in Keys(o.fields)) && Ascending(keys)
    requires CanonKeys(o, keys).Success? && key in keys && !Excluded(key)
    ensures key in Keys(CanonKeys(o, keys).value)
    ensures Some(Success(Get(CanonKeys(o, keys).value, key).value)) == CanonLookup(o.fields, key)
  {
    hide Excluded, Monetary, Get, Keys, CanonValue;
    CanonKeysKept(o, keys);
    if Excluded(keys[0]) {
      CanonKeysLookup(o, keys[1..], key);
    } else {
      var rest := CanonKeys(o, keys[1..]).value;
      CanonKeysKept(o, keys[1..]);
      KeptAscends(keys);
      LessIsStrict(keys[0], keys[0]);
      GetFront(Field(keys[0], CanonValue(Get(o.fields, keys[0]).value, Monetary(keys[0])).value), rest, key);
      if key != keys[0] {
        CanonKeysLookup(o, keys[1..], key);
      }
    }
  }

  /** A canonical dict: ascending keys, no excluded key, canonical values. */
  lemma CanonDictLookup(fields: seq<Field>, key: string)
    requires CanonDict(fields).Success?
    ensures var r := CanonDict(fields).value;
            && Ascending(Keys(r))
            && (key in Keys(r) <==> key in Keys(fields) && !Excluded(key))
            && (key in Keys(r) ==> Some(Success(Get(r, key).value)) == CanonLookup(fields, key))
  {
    var keys := Sorted(Keys(fields));
    CanonKeysKept(Obj(fields), keys);
    KeptAscends(keys);
    if key in keys && !Excluded(key) {
      CanonKeysLookup(Obj(fields), keys, key);
    }
  }

  /** Fields in ascending key order are looked up by position. */
  lemma GetAt(fields: seq<Field>, i: nat)
    requires Ascending(Keys(fields)) && i < |fields|
    ensures Get(fields, fields[i].key) == Some(fields[i].value)
  {
    hide Get;
    var value := Get(fields, fields[i].key).value by { assert Keys(fields)[i] in Keys(fields); }
    var j :| 0 <= j < |fields| && fields[j] == Field(fields[i].key, value);
    if i != j {
      LessIsStrict(Keys(fields)[i], Keys(fields)[j]);
      LessIsStrict(Keys(fields)[j], Keys(fields)[i]);
    }
  }

  /** A dict in ascending key order is determined by its lookups. */
  lemma AscendingFieldsAreUnique(a: seq<Field>, b: seq<Field>)
    requires Ascending(Keys(a)) && Ascending(Keys(b))
    requires forall key :: Get(a, key) == Get(b, key)
    ensures a == b
  {
    forall key ensures key in Keys(a) <==> key in Keys(b) {
      assert Get(a, key) == Get(b, key);
    }
    AscendingIsUnique(Keys(a), Keys(b));
    forall i | 0 <= i < |a| ensures a[i] == b[i] {
      GetAt(a, i);
      GetAt(b, i);
      assert Keys(a)[i] == Keys(b)[i];
    }
  }

  // ---------------------------------------------------------------- stability

  /** Canonicalizing a canonical value changes nothing. */
  lemma {:induction false} CanonIsIdempotent(v: Json, monetary: bool)
    requires CanonValue(v, monetary).Success?
    ensures CanonValue(CanonValue(v, monetary).value, monetary) == CanonValue(v, monetary)
    decreases v
  {
    match v {
      case Obj(fields) => CanonDictIsIdempotent(v);
      case List(items) => CanonItemsAreStable(v, 0);
      case _ => if monetary { NormalizedAmount(v); }
    }
  }

  ghost predicate StableField(f: Field) {
    !Excluded(f.key) && CanonValue(f.value, Monetary(f.key)) == Success(f.value)
  }

  lemma {:induction false} CanonDictIsIdempotent(o: Json)
    requires o.Obj? && CanonDict(o.fields).Success?
    ensures CanonDict(CanonDict(o.fields).value) == CanonDict(o.fields)
    decreases o, 0
  {
    var r := CanonDict(o.fields).value;
    assert o == Obj(o.fields);
    CanonDictLookup(o.fields, "");
    forall i | 0 <= i < |r| ensures StableField(r[i]) {
      var key := r[i].key;
      assert Keys(r)[i] == key;
      CanonDictLookup(o.fields, key);
      GetAt(r, i);
      CanonIsIdempotent(Get(o.fields, key).value, Monetary(key));
    }
    AscendingIsUnique(Sorted(Keys(r)), Keys(r));
    StableFieldsStay(Obj(r), 0);
    assert Keys(r)[0..] == Keys(r) && r[0..] == r;
  }

  lemma {:induction false} StableFieldsStay(o: Json, i: nat)
    requires o.Obj? && i <= |o.fields| && Ascending(Keys(o.fields))
    requires forall f | f in o.fields :: StableField(f)
    ensures CanonKeys(o, Keys(o.fields)[i..]) == Success(o.fields[i..])
    decreases |o.fields| - i
  {
    hide Excluded, Monetary, Get, CanonValue;
    var keys := Keys(o.fields)[i..];
    if i < |o.fields| {
      assert keys[1..] == Keys(o.fields)[i + 1..];
      StableFieldsStay(o, i + 1);
      GetAt(o.fields, i);
      assert keys[0] == o.fields[i].key && StableField(o.fields[i]);
      assert Field(keys[0], o.fields[i].value) == o.fields[i];
      assert o.fields[i..] == [o.fields[i]] + o.fields[i + 1..];
    } else {
      assert keys == [] && o.fields[i..] == [];
    }
  }

  lemma {:induction false} CanonItemsAreStable(l: Json, i: nat)
    requires l.List? && i <= |l.items| && CanonItems(l, i).Success?
    ensures CanonItems(List(CanonItems(l, i).value), 0) == CanonItems(l, i)
    decreases l, |l.items| - i
  {
    forall j: nat | j < |CanonItems(l, i).value|
      ensures CanonValue(CanonItems(l, i).value[j], false) == Success(CanonItems(l, i).value[j]) {
      CanonItemAt(l, i, j);
      CanonIsIdempotent(l.items[i + j], false);
    }
    StableItemsStay(List(CanonItems(l, i).value), 0);
  }

  lemma {:induction false} CanonItemAt(l: Json, i: nat, j: nat)
    requires l.List? && i <= |l.items| && CanonItems(l, i).Success?
    ensures |CanonItems(l, i).value| == |l.items| - i
    ensures j < |l.items| - i ==> Success(CanonItems(l, i).value[j]) == CanonValue(l.items[i + j], false)
    decreases |l.items| - i
  {
    if i == |l.items| {
    } else {
      CanonItemAt(l, i + 1, if j > 0 then j - 1 else 0);
    }
  }

  lemma {:induction false} StableItemsStay(l: Json, i: nat)
    requires l.List? && i <= |l.items|
    requires forall j | 0 <= j < |l.items| :: CanonValue(l.items[j], false) == Success(l.items[j])
    ensures CanonItems(l, i) == Success(l.items[i..])
    decreases |l.items| - i
  {
    if i < |l.items| {
      StableItemsStay(l, i + 1);
      assert l.items[i..] == [l.items[i]] + l.items[i + 1..];
    } else {
      assert l.items[i..] == [];
    }
  }

  // ---------------------------------------------------------------- what the canonical form forgets

  /** Equal up to key order, excluded keys and the spelling of amounts, at every depth. */
  ghost predicate Alike(a: Json, b: Json, monetary: bool)
    decreases a
  {
    if a.Obj? && b.Obj? then AlikeDicts(a, b)
    else if a.List? && b.List? then AlikeLists(a, b)
    else if monetary then SameAmount(a, b)
    else a == b
  }

  ghost predicate AlikeDicts(a: Json, b: Json)
    requires a.Obj? && b.Obj?
    decreases a, 1
  {
    forall key :: AlikeUnder(a, b, key)
  }

  ghost predicate AlikeLists(a: Json, b: Json)
    requires a.List? && b.List?
    decreases a, 1
  {
    |a.items| == |b.items| && forall i | 0 <= i < |a.items| :: Alike(a.items[i], b.items[i], false)
  }

  ghost predicate AlikeUnder(a: Json, b: Json, key: string)
    requires a.Obj? && b.Obj?
    decreases a, 0
  {
    Excluded(key) ||
    match (Get(a.fields, key), Get(b.fields, key))
    case (Some(x), Some(y)) => Alike(x, y, Monetary(key))
    case (None, None) => true
    case _ => false
  }

  /** The canonical form keeps exactly what `Alike` keeps: two bodies share it if and only if they are alike. */
  lemma {:induction false} SameFormIffAlike(a: Json, b: Json, monetary: bool)
    requires CanonValue(a, monetary).Success? && CanonValue(b, monetary).Success?
    ensures CanonValue(a, monetary) == CanonValue(b, monetary) <==> Alike(a, b, monetary)
    decreases a
  {
    if a.Obj? && b.Obj? {
      assert a == Obj(a.fields) && b == Obj(b.fields);
      SameDictIffAlike(a, b);
    } else if a.List? && b.List? {
      SameItemsIffAlike(a, b);
    } else if monetary && !a.Obj? && !a.List? && !b.Obj? && !b.List? {
      SameAmountIff(a, b);
    } else if monetary {
      DifferentKinds(a, b);
    }
  }

  lemma DifferentKinds(a: Json, b: Json)
    requires CanonValue(a, true).Success? && CanonValue(b, true).Success?
    requires (a.Obj? && !b.Obj?) || (!a.Obj? && b.Obj?) || (a.List? && !b.List?) || (!a.List? && b.List?)
    ensures CanonValue(a, true) != CanonValue(b, true) && !SameAmount(a, b)
  {
  }

  lemma {:induction false} LookupsAgreeIff(a: Json, b: Json, key: string)
    requires a.Obj? && b.Obj? && CanonDict(a.fields).Success? && CanonDict(b.fields).Success?
    ensures Get(CanonDict(a.fields).value, key) == Get(CanonDict(b.fields).value, key) <==> AlikeUnder(a, b, key)
    decreases a, 0
  {
    CanonDictLookup(a.fields, key);
    CanonDictLookup(b.fields, key);
    if !Excluded(key) && key in Keys(a.fields) && key in Keys(b.fields) {
      SameFormIffAlike(Get(a.fields, key).value, Get(b.fields, key).value, Monetary(key));
    }
  }

  lemma {:induction false} SameDictIffAlike(a: Json, b: Json)
    requires a.Obj? && b.Obj? && CanonDict(a.fields).Success? && CanonDict(b.fields).Success?
    ensures CanonDict(a.fields) == CanonDict(b.fields) <==> AlikeDicts(a, b)
    decreases a, 1
  {
    var x, y := CanonDict(a.fields).value, CanonDict(b.fields).value;
    forall key ensures Get(x, key) == Get(y, key) <==> AlikeUnder(a, b, key) {
      LookupsAgreeIff(a, b, key);
    }
    CanonDictLookup(a.fields, "");
    CanonDictLookup(b.fields, "");
    assert CanonDict(a.fields) == Success(x) && CanonDict(b.fields) == Success(y);
    if AlikeDicts(a, b) {
      forall key ensures Get(x, key) == Get(y, key) {
        assert AlikeUnder(a, b, key);
      }
      AscendingFieldsAreUnique(x, y);
    }
    if x == y {
      assert AlikeDicts(a, b);
    }
  }

  lemma {:induction false} ItemsAgreeIff(a: Json, b: Json, i: nat)
    requires a.List? && b.List? && CanonItems(a, 0).Success? && CanonItems(b, 0).Success?
    requires i < |a.items| && i < |b.items|
    ensures i < |CanonItems(a, 0).value| && i < |CanonItems(b, 0).value|
    ensures CanonItems(a, 0).value[i] == CanonItems(b, 0).value[i] <==> Alike(a.items[i], b.items[i], false)
    decreases a, 0
  {
    CanonItemAt(a, 0, i);
    CanonItemAt(b, 0, i);
    SameFormIffAlike(a.items[i], b.items[i], false);
  }

  lemma {:induction false} SameItemsIffAlike(a: Json, b: Json)
    requires a.List? && b.List? && CanonItems(a, 0).Success? && CanonItems(b, 0).Success?
    ensures CanonItems(a, 0) == CanonItems(b, 0) <==> AlikeLists(a, b)
    decreases a, 1
  {
    var x, y := CanonItems(a, 0).value, CanonItems(b, 0).value;
    CanonItemAt(a, 0, 0);
    CanonItemAt(b, 0, 0);
    assert CanonItems(a, 0) == Success(x) && CanonItems(b, 0) == Success(y);
    forall i: nat | i < |x| && i < |y| ensures x[i] == y[i] <==> Alike(a.items[i], b.items[i], false) {
      ItemsAgreeIff(a, b, i);
    }
    if AlikeLists(a, b) {
      forall i: nat | i < |x| ensures x[i] == y[i] {
        assert Alike(a.items[i], b.items[i], false);
      }
      assert x == y;
    }
    if x == y {
      assert AlikeLists(a, b);
    }
  }
}
