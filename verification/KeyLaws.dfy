/** What a key tells apart and what it forgets, on every route. */
module KeyLaws {
  import opened Prelude
  import opened TextOrder
  import opened Canonical
  import opened RequestKeys
  import Money

  // ---------------------------------------------------------------- what a key names

  /** Requests that share a key have one route, one method and one user. */
  lemma KeyNamesRequest(route: string, verb: string, user: string, a: seq<Field>, route': string, verb': string,
                        user': string, b: seq<Field>)
    requires GenerateKey(route, verb, user, a).Success?
    requires GenerateKey(route, verb, user, a) == GenerateKey(route', verb', user', b)
    ensures route == route' && verb == verb' && user == user'
  {
    hide NormalForm, Ordered;
  }

  /** On routes without a form of their own a key is exactly route, method, user and body up to spelling. */
  lemma PlainKeysExactly(route: string, verb: string, user: string, a: seq<Field>, route': string, verb': string,
                         user': string, b: seq<Field>)
    requires CanonDict(a).Success? && CanonDict(b).Success? && Plain(route)
    ensures GenerateKey(route, verb, user, a) == GenerateKey(route', verb', user', b) <==>
              route == route' && verb == verb' && user == user' && Alike(Obj(a), Obj(b), false)
  {
    hide CanonDict, Alike, NormalForm, Ordered, Plain;
    PlainKey(route, verb, user, a);
    if GenerateKey(route, verb, user, a) == GenerateKey(route', verb', user', b) {
      KeyNamesRequest(route, verb, user, a, route', verb', user', b);
    }
    if route == route' && verb == verb' && user == user' {
      PlainShare(route, verb, user, a, b);
    }
  }

  predicate Plain(route: string) {
    && route != EVENT && !EndsWith(route, "/withdrawals") && !EndsWith(route, "/deposits")
    && !(Contains(route, "/accounts/") && EndsWith(route, "/balance"))
  }

  lemma PlainKey(route: string, verb: string, user: string, body: seq<Field>)
    requires CanonDict(body).Success? && Plain(route)
    ensures GenerateKey(route, verb, user, body).Success?
  {
  }

  lemma PlainShare(route: string, verb: string, user: string, a: seq<Field>, b: seq<Field>)
    requires CanonDict(a).Success? && CanonDict(b).Success? && Plain(route)
    ensures GenerateKey(route, verb, user, a) == GenerateKey(route, verb, user, b) <==> Alike(Obj(a), Obj(b), false)
  {
    hide CanonDict, Alike, GenerateKey, Contains, EndsWith;
    PlainRoutesShareKeyIffAlike(route, verb, user, a, b);
  }

  // ---------------------------------------------------------------- which requests have a key

  /** Every amount that is a number, at any depth and under a field that counts, fits the precision. */
  ghost predicate Encodable(v: Json, monetary: bool)
    decreases v
  {
    match v
    case Obj(fields) =>
      forall key | key in Keys(fields) && Counts(key) :: Encodable(Get(fields, key).value, IsAmount(key))
    case List(items) => forall i | 0 <= i < |items| :: Encodable(items[i], false)
    case Int(_) => monetary ==> Rounded(v).Some?
    case Float(_) => monetary ==> Rounded(v).Some?
    case _ => true
  }

  /** Every field but those that differ from one attempt to the next. */
  predicate Counts(key: string) {
    key !in ["timestamp", "request_id", "idempotency_key", "client_request_id", "correlation_id"]
  }

  predicate IsAmount(key: string) {
    key in ["amount", "delta_amount"]
  }

  lemma FieldKinds(key: string)
    ensures Excluded(key) <==> !Counts(key)
    ensures Monetary(key) <==> IsAmount(key)
  {
  }

  lemma {:induction false} ValueSucceedsIff(v: Json, monetary: bool)
    ensures CanonValue(v, monetary).Success? <==> Encodable(v, monetary)
    decreases v
  {
    match v {
      case Obj(fields) => DictSucceedsIff(v);
      case List(items) =>
        ItemsSucceedIff(v, 0);
      case _ =>
    }
  }

  lemma {:induction false} DictSucceedsIff(o: Json)
    requires o.Obj?
    ensures CanonDict(o.fields).Success? <==> Encodable(o, false)
    decreases o, 0
  {
    hide Excluded, Monetary, Get, Counts, IsAmount, CanonValue, CanonKeys;
    var keys := Sorted(Keys(o.fields));
    assert o == Obj(o.fields);
    KeysSucceedIff(o, keys);
    forall key | key in Keys(o.fields)
      ensures Excluded(key) <==> !Counts(key)
      ensures CanonValue(Get(o.fields, key).value, Monetary(key)).Success? <==>
                Encodable(Get(o.fields, key).value, IsAmount(key))
    {
      FieldKinds(key);
      ValueSucceedsIff(Get(o.fields, key).value, Monetary(key));
    }
  }

  lemma {:induction false} KeysSucceedIff(o: Json, keys: seq<string>)
    requires o.Obj? && forall key | key in keys :: key in Keys(o.fields)
    ensures CanonKeys(o, keys).Success? <==>
              forall key | key in keys && !Excluded(key) :: CanonValue(Get(o.fields, key).value, Monetary(key)).Success?
  {
    hide Excluded, Monetary, Get, CanonValue;
    if keys == [] {
    } else {
      KeysSucceedIff(o, keys[1..]);
      assert forall key :: key in keys <==> key == keys[0] || key in keys[1..];
    }
  }

  lemma {:induction false} ItemsSucceedIff(l: Json, i: nat)
    requires l.List? && i <= |l.items|
    ensures CanonItems(l, i).Success? <==> forall j | i <= j < |l.items| :: Encodable(l.items[j], false)
    decreases l, |l.items| - i
  {
    if i < |l.items| {
      ValueSucceedsIff(l.items[i], false);
      ItemsSucceedIff(l, i + 1);
    }
  }

  /** A canonical amount is in the form the routes put it into. */
  lemma CanonicalAmountStays(body: seq<Field>, key: string)
    requires CanonDict(body).Success? && IsAmount(key)
    ensures var amount := OrNull(CanonDict(body).value, key); NormalizeDecimal(amount) == Success(amount)
  {
    hide CanonKeys, Get, Money.Str, Rounded, Money.NormalizeText;
    CanonDictLookup(body, key);
    if key in Keys(CanonDict(body).value) {
      var v := Get(body, key).value;
      CanonIsIdempotent(v, true);
    }
  }

  /** A request has a key exactly when its amounts can be encoded, whatever the route. */
  lemma KeyExistsIff(route: string, verb: string, user: string, body: seq<Field>)
    ensures GenerateKey(route, verb, user, body).Success? <==> Encodable(Obj(body), false)
  {
    hide CanonDict, Encodable, NormalizeDecimal, OrNull, Ordered, EndsWith, Contains;
    DictSucceedsIff(Obj(body));
    if CanonDict(body).Success? {
      CanonicalAmountStays(body, "amount");
      CanonicalAmountStays(body, "delta_amount");
    }
  }

  // ---------------------------------------------------------------- fields that do not count, and fields that do

  lemma LastFieldWins(body: seq<Field>, key: string, v: Json, other: string)
    ensures Get(body + [Field(key, v)], other) == if other == key then Some(v) else Get(body, other)
    ensures other in Keys(body + [Field(key, v)]) <==> other == key || other in Keys(body)
  {
    hide Get;
    GetLast(body, Field(key, v), other);
  }

  /** A retry that differs in its timestamp or request ids alone has the same key. */
  lemma AttemptFieldsAreIgnored(route: string, verb: string, user: string, body: seq<Field>, key: string, v: Json)
    requires !Counts(key)
    ensures GenerateKey(route, verb, user, body + [Field(key, v)]).Success?
       <==> GenerateKey(route, verb, user, body).Success?
    ensures GenerateKey(route, verb, user, body).Success? ==>
              GenerateKey(route, verb, user, body + [Field(key, v)]) == GenerateKey(route, verb, user, body)
  {
    hide GenerateKey, CanonDict, Counts, IsAmount, Get, Keys, Excluded, Monetary, CanonValue;
    var more := body + [Field(key, v)];
    KeyExistsIff(route, verb, user, body);
    KeyExistsIff(route, verb, user, more);
    forall other ensures other != key ==> Get(more, other) == Get(body, other)
                 ensures other in Keys(more) <==> other == key || other in Keys(body) {
      LastFieldWins(body, key, v, other);
    }
    assert Encodable(Obj(more), false) <==> Encodable(Obj(body), false);
    if Encodable(Obj(body), false) {
      DictSucceedsIff(Obj(body));
      DictSucceedsIff(Obj(more));
      SameCanonical(body, more, key);
      SameCanonicalSameKey(route, verb, user, body, more);
    }
  }

  lemma SameCanonicalSameKey(route: string, verb: string, user: string, a: seq<Field>, b: seq<Field>)
    requires CanonDict(a) == CanonDict(b)
    ensures GenerateKey(route, verb, user, a) == GenerateKey(route, verb, user, b)
  {
    hide CanonDict, Contains, EndsWith, OrNull, Ordered;
  }

  lemma SameCanonical(a: seq<Field>, b: seq<Field>, key: string)
    requires CanonDict(a).Success? && CanonDict(b).Success? && !Counts(key)
    requires forall other | other != key :: Get(a, other) == Get(b, other)
    requires forall other | other != key :: other in Keys(a) <==> other in Keys(b)
    ensures CanonDict(a) == CanonDict(b)
  {
    hide CanonDict, Counts, Get, Keys, Excluded, Monetary, CanonValue;
    var x, y := CanonDict(a).value, CanonDict(b).value;
    forall other ensures Get(x, other) == Get(y, other) {
      FieldKinds(other);
      CanonDictLookup(a, other);
      CanonDictLookup(b, other);
    }
    CanonDictLookup(a, "");
    CanonDictLookup(b, "");
    AscendingFieldsAreUnique(x, y);
  }

  /** Any other field that is added to a plain request gives it another key. */
  lemma OtherFieldsCount(route: string, verb: string, user: string, body: seq<Field>, key: string, v: Json)
    requires Counts(key) && key !in Keys(body) && Plain(route)
    requires GenerateKey(route, verb, user, body).Success?
    ensures GenerateKey(route, verb, user, body + [Field(key, v)]) != GenerateKey(route, verb, user, body)
  {
    hide GenerateKey, CanonDict, Counts, IsAmount, Excluded, Monetary, CanonValue, Plain;
    var more := body + [Field(key, v)];
    KeyExistsIff(route, verb, user, body);
    KeyExistsIff(route, verb, user, more);
    DictSucceedsIff(Obj(body));
    DictSucceedsIff(Obj(more));
    FieldKinds(key);
    LastFieldWins(body, key, v, key);
    if CanonDict(more).Success? {
      assert !AlikeUnder(Obj(more), Obj(body), key);
      PlainShare(route, verb, user, more, body);
    }
  }

  // ---------------------------------------------------------------- the forms of the money routes

  lemma OrderedTellsApart(p: seq<Field>, q: seq<Field>, key: string)
    requires Ordered(p) == Ordered(q)
    ensures Get(p, key) == Get(q, key)
  {
    hide Ordered, Get;
    OrderedKeepsLookups(p, key);
    OrderedKeepsLookups(q, key);
  }

  /** Withdrawal requests share a key exactly when they agree on account, amount, currency and destination. */
  lemma WithdrawalKeysExactly(route: string, verb: string, user: string, a: seq<Field>, b: seq<Field>)
    requires EndsWith(route, "/withdrawals") && CanonDict(a).Success? && CanonDict(b).Success?
    ensures var x, y := CanonDict(a).value, CanonDict(b).value;
            GenerateKey(route, verb, user, a) == GenerateKey(route, verb, user, b) <==>
              && OrNull(x, "amount") == OrNull(y, "amount")
              && Or(OrNull(x, "account_id"), OrNull(x, "origin")) == Or(OrNull(y, "account_id"), OrNull(y, "origin"))
              && OrElse(x, "currency", Text("BRL")) == OrElse(y, "currency", Text("BRL"))
              && Or(OrNull(x, "destination_account"), OrNull(x, "destination"))
                 == Or(OrNull(y, "destination_account"), OrNull(y, "destination"))
  {
    hide CanonDict, Get, NormalizeDecimal, OrNull, OrElse, Or, Ordered, EndsWith, Contains;
    CanonicalAmountStays(a, "amount");
    CanonicalAmountStays(b, "amount");
    var p, q := WithdrawalForm(CanonDict(a).value).value, WithdrawalForm(CanonDict(b).value).value;
    if Ordered(p) == Ordered(q) {
      FourFields(p[0], p[1], p[2], p[3]);
      FourFields(q[0], q[1], q[2], q[3]);
      OrderedTellsApart(p, q, "account_id");
      OrderedTellsApart(p, q, "amount");
      OrderedTellsApart(p, q, "currency");
      OrderedTellsApart(p, q, "destination_account");
    }
  }

  /** Deposit requests share a key exactly when they agree on account, amount, currency and source. */
  lemma DepositKeysExactly(route: string, verb: string, user: string, a: seq<Field>, b: seq<Field>)
    requires EndsWith(route, "/deposits") && CanonDict(a).Success? && CanonDict(b).Success?
    ensures var x, y := CanonDict(a).value, CanonDict(b).value;
            GenerateKey(route, verb, user, a) == GenerateKey(route, verb, user, b) <==>
              && OrNull(x, "amount") == OrNull(y, "amount")
              && Or(OrNull(x, "account_id"), OrNull(x, "destination"))
                 == Or(OrNull(y, "account_id"), OrNull(y, "destination"))
              && OrElse(x, "currency", Text("BRL")) == OrElse(y, "currency", Text("BRL"))
              && OrNull(x, "source_reference") == OrNull(y, "source_reference")
  {
    hide CanonDict, Get, NormalizeDecimal, OrNull, OrElse, Or, Ordered, Contains;
    OneEnding(route);
    CanonicalAmountStays(a, "amount");
    CanonicalAmountStays(b, "amount");
    var p, q := DepositForm(CanonDict(a).value).value, DepositForm(CanonDict(b).value).value;
    DepositRoute(route, a);
    DepositRoute(route, b);
    if Ordered(p) == Ordered(q) {
      FourFields(p[0], p[1], p[2], p[3]);
      FourFields(q[0], q[1], q[2], q[3]);
      OrderedTellsApart(p, q, "account_id");
      OrderedTellsApart(p, q, "amount");
      OrderedTellsApart(p, q, "currency");
      OrderedTellsApart(p, q, "source_reference");
    }
  }

  /** No route ends in two ways. */
  lemma OneEnding(route: string)
    ensures EndsWith(route, "/deposits") ==> !EndsWith(route, "/withdrawals") && !EndsWith(route, "/balance")
    ensures EndsWith(route, "/balance") ==> !EndsWith(route, "/withdrawals") && !EndsWith(route, "/deposits")
    ensures EndsWith(route, "/deposits") || EndsWith(route, "/withdrawals") || EndsWith(route, "/balance") ==>
              route != EVENT
  {
    if EndsWith(route, "/deposits") || EndsWith(route, "/withdrawals") {
      assert route[|route| - 1] == 's';
    }
    if EndsWith(route, "/balance") {
      assert route[|route| - 1] == 'e';
    }
    if EndsWith(route, "/deposits") {
      assert route[|route| - 2] == 't';
    }
    if EndsWith(route, "/withdrawals") {
      assert route[|route| - 2] == 'l';
    }
  }

  lemma DepositRoute(route: string, body: seq<Field>)
    requires EndsWith(route, "/deposits") && CanonDict(body).Success?
    ensures NormalForm(route, body) == DepositForm(CanonDict(body).value)
  {
    hide CanonDict, DepositForm, WithdrawalForm, Contains, EndsWith;
    OneEnding(route);
  }

  lemma BalanceRoute(route: string, body: seq<Field>)
    requires Contains(route, "/accounts/") && EndsWith(route, "/balance") && CanonDict(body).Success?
    ensures NormalForm(route, body) == BalanceForm(CanonDict(body).value)
  {
    hide CanonDict, DepositForm, WithdrawalForm, BalanceForm, Contains, EndsWith;
    OneEnding(route);
  }

  /** Balance adjustments share a key exactly when they agree on account, amount and kind of operation. */
  lemma BalanceKeysExactly(route: string, verb: string, user: string, a: seq<Field>, b: seq<Field>)
    requires Contains(route, "/accounts/") && EndsWith(route, "/balance")
    requires CanonDict(a).Success? && CanonDict(b).Success?
    ensures var x, y := CanonDict(a).value, CanonDict(b).value;
            GenerateKey(route, verb, user, a) == GenerateKey(route, verb, user, b) <==>
              && OrNull(x, "account_id") == OrNull(y, "account_id")
              && Or(OrNull(x, "delta_amount"), OrNull(x, "amount"))
                 == Or(OrNull(y, "delta_amount"), OrNull(y, "amount"))
              && OrNull(x, "operation_type") == OrNull(y, "operation_type")
  {
    hide CanonDict, Get, NormalizeDecimal, OrNull, Ordered, Contains, EndsWith;
    CanonicalAmountStays(a, "amount");
    CanonicalAmountStays(b, "amount");
    CanonicalAmountStays(a, "delta_amount");
    CanonicalAmountStays(b, "delta_amount");
    BalanceRoute(route, a);
    BalanceRoute(route, b);
    var p, q := BalanceForm(CanonDict(a).value).value, BalanceForm(CanonDict(b).value).value;
    if Ordered(p) == Ordered(q) {
      ThreeFields(p[0], p[1], p[2]);
      ThreeFields(q[0], q[1], q[2]);
      OrderedTellsApart(p, q, "account_id");
      OrderedTellsApart(p, q, "delta_amount");
      OrderedTellsApart(p, q, "operation_type");
    }
  }

  lemma ThreeFields(a: Field, b: Field, c: Field)
    ensures forall key :: Get([a, b, c], key)
                       == if c.key == key then Some(c.value) else if b.key == key then Some(b.value)
                          else if a.key == key then Some(a.value) else None
  {
    forall key ensures Get([a, b, c], key) == if c.key == key then Some(c.value) else Get([a, b], key) {
      GetLast([a, b], c, key);
      assert [a, b] + [c] == [a, b, c];
    }
    forall key ensures Get([a, b], key) == if b.key == key then Some(b.value)
                                           else if a.key == key then Some(a.value) else None {
      GetLast([a], b, key);
      GetLast([], a, key);
      assert [a] + [b] == [a, b] && [] + [a] == [a];
    }
  }

  lemma TransferFields(n: seq<Field>)
    requires TransferForm(n).Success? && NormalizeDecimal(OrNull(n, "amount")) == Success(OrNull(n, "amount"))
    ensures var form := TransferForm(n).value;
            && Get(form, "origin") == Some(OrNull(n, "origin"))
            && Get(form, "destination") == Some(OrNull(n, "destination"))
            && Get(form, "amount") == Some(OrNull(n, "amount"))
            && Get(form, "currency") == Some(OrElse(n, "currency", Text("BRL")))
  {
    hide Get, NormalizeDecimal, OrNull, OrElse;
    var form := TransferForm(n).value;
    FiveFields(form[0], form[1], form[2], form[3], form[4]);
  }

  /** Transfer events share a key exactly when they agree on both accounts, amount and currency. */
  lemma TransferKeysExactly(verb: string, user: string, a: seq<Field>, b: seq<Field>)
    requires CanonDict(a).Success? && CanonDict(b).Success?
    requires OrNull(CanonDict(a).value, "type") == Text("transfer") == OrNull(CanonDict(b).value, "type")
    ensures var x, y := CanonDict(a).value, CanonDict(b).value;
            GenerateKey(EVENT, verb, user, a) == GenerateKey(EVENT, verb, user, b) <==>
              && OrNull(x, "origin") == OrNull(y, "origin") && OrNull(x, "destination") == OrNull(y, "destination")
              && OrNull(x, "amount") == OrNull(y, "amount")
              && OrElse(x, "currency", Text("BRL")) == OrElse(y, "currency", Text("BRL"))
  {
    hide CanonDict, Get, NormalizeDecimal, OrNull, OrElse, Ordered, NormalForm;
    CanonicalAmountStays(a, "amount");
    CanonicalAmountStays(b, "amount");
    EventRoute(a);
    EventRoute(b);
    var p, q := TransferForm(CanonDict(a).value).value, TransferForm(CanonDict(b).value).value;
    if Ordered(p) == Ordered(q) {
      TransferFields(CanonDict(a).value);
      TransferFields(CanonDict(b).value);
      OrderedTellsApart(p, q, "origin");
      OrderedTellsApart(p, q, "destination");
      OrderedTellsApart(p, q, "amount");
      OrderedTellsApart(p, q, "currency");
    }
  }
}
