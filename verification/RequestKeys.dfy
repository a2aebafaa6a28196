/** From a request to its idempotency key: the per-route normal form of the canonical body. */
module RequestKeys {
  import opened Prelude
  import opened TextOrder
  import opened Errors
  import opened Money
  import opened Canonical

  /** `dict.get(key)` with None for a missing key. */
  function OrNull(fields: seq<Field>, key: string): Json {
    match Get(fields, key)
    case Some(v) => v
    case None => Null
  }

  function OrElse(fields: seq<Field>, key: string, other: Json): Json {
    match Get(fields, key)
    case Some(v) => v
    case None => other
  }

  /** Python truth of a JSON value, which decides `a or b`. */
  predicate Truthy(v: Json) {
    match v
    case Null => false
    case Bool(b) => b
    case Int(n) => n != 0
    case Float(d) => d.coefficient != 0
    case Text(s) => s != ""
    case List(items) => items != []
    case Obj(fields) => fields != []
  }

  function Or(a: Json, b: Json): Json {
    if Truthy(a) then a else b
  }

  predicate EndsWith(s: string, suffix: string) {
    |suffix| <= |s| && s[|s| - |suffix|..] == suffix
  }

  predicate Contains(s: string, part: string) {
    part <= s || (s != "" && Contains(s[1..], part))
  }

  function WithdrawalForm(n: seq<Field>): Result<seq<Field>, Error> {
    var amount :- NormalizeDecimal(OrNull(n, "amount"));
    Success([Field("account_id", Or(OrNull(n, "account_id"), OrNull(n, "origin"))),
             Field("amount", amount),
             Field("currency", OrElse(n, "currency", Text("BRL"))),
             Field("destination_account", Or(OrNull(n, "destination_account"), OrNull(n, "destination")))])
  }

  function DepositForm(n: seq<Field>): Result<seq<Field>, Error> {
    var amount :- NormalizeDecimal(OrNull(n, "amount"));
    Success([Field("account_id", Or(OrNull(n, "account_id"), OrNull(n, "destination"))),
             Field("amount", amount),
             Field("currency", OrElse(n, "currency", Text("BRL"))),
             Field("source_reference", OrNull(n, "source_reference"))])
  }

  function BalanceForm(n: seq<Field>): Result<seq<Field>, Error> {
    var amount :- NormalizeDecimal(Or(OrNull(n, "delta_amount"), OrNull(n, "amount")));
    Success([Field("account_id", OrNull(n, "account_id")),
             Field("delta_amount", amount),
             Field("operation_type", OrNull(n, "operation_type"))])
  }

  function TransferForm(n: seq<Field>): Result<seq<Field>, Error> {
    var amount :- NormalizeDecimal(OrNull(n, "amount"));
    Success([Field("type", Text("transfer")),
             Field("origin", OrNull(n, "origin")),
             Field("destination", OrNull(n, "destination")),
             Field("amount", amount),
             Field("currency", OrElse(n, "currency", Text("BRL")))])
  }

  const EVENT := "/event"

  /** `normalize_financial_payload` */
  function NormalForm(route: string, body: seq<Field>): Result<seq<Field>, Error> {
    var n :- CanonDict(body);
    var eventType := OrNull(n, "type");
    if EndsWith(route, "/withdrawals") || (route == EVENT && eventType == Text("withdraw")) then WithdrawalForm(n)
    else if EndsWith(route, "/deposits") || (route == EVENT && eventType == Text("deposit")) then DepositForm(n)
    else if Contains(route, "/accounts/") && EndsWith(route, "/balance") then BalanceForm(n)
    else if route == EVENT && eventType == Text("transfer") then TransferForm(n)
    else Success(n)
  }

  /** `json.dumps(sort_keys=True)`: fields in key order, each key once. */
  function Ordered(fields: seq<Field>): (r: seq<Field>)
    ensures Keys(r) == Sorted(Keys(fields))
  {
    var keys := Sorted(Keys(fields));
    seq(|keys|, i requires 0 <= i < |keys| => Field(keys[i], OrNull(fields, keys[i])))
  }

  /** What is hashed into the key; the client's Idempotency-Key header is not part of it. */
  datatype RequestKey = RequestKey(route: string, verb: string, user: string, payload: seq<Field>)

  /** `generate_key` */
  function GenerateKey(route: string, verb: string, user: string, body: seq<Field>): Result<RequestKey, Error> {
    var form :- NormalForm(route, body);
    Success(RequestKey(route, verb, user, Ordered(form)))
  }

  lemma OrderedKeepsLookups(fields: seq<Field>, key: string)
    ensures Get(Ordered(fields), key) == Get(fields, key)
  {
    var r := Ordered(fields);
    if key in Keys(fields) {
      var i :| 0 <= i < |Keys(r)| && Keys(r)[i] == key;
      GetAt(r, i);
    }
  }

  // ---------------------------------------------------------------- bodies that differ only in spelling

  /** Alike bodies have the same key on every route. */
  lemma AlikeBodiesShareKey(route: string, verb: string, user: string, a: seq<Field>, b: seq<Field>)
    requires CanonDict(a).Success? && CanonDict(b).Success?
    requires Alike(Obj(a), Obj(b), false)
    ensures GenerateKey(route, verb, user, a) == GenerateKey(route, verb, user, b)
  {
    SameDictIffAlike(Obj(a), Obj(b));
  }

  /** On a route with no special form the key tells apart any two bodies that are not alike. */
  lemma PlainRoutesShareKeyIffAlike(route: string, verb: string, user: string, a: seq<Field>, b: seq<Field>)
    requires CanonDict(a).Success? && CanonDict(b).Success? && route != EVENT
    requires !EndsWith(route, "/withdrawals") && !EndsWith(route, "/deposits")
    requires !(Contains(route, "/accounts/") && EndsWith(route, "/balance"))
    ensures GenerateKey(route, verb, user, a) == GenerateKey(route, verb, user, b) <==> Alike(Obj(a), Obj(b), false)
  {
    var x, y := CanonDict(a).value, CanonDict(b).value;
    SameDictIffAlike(Obj(a), Obj(b));
    if Ordered(x) == Ordered(y) {
      forall key ensures Get(x, key) == Get(y, key) {
        OrderedKeepsLookups(x, key);
        OrderedKeepsLookups(y, key);
      }
      CanonDictLookup(a, "");
      CanonDictLookup(b, "");
      AscendingFieldsAreUnique(x, y);
    }
  }

  // ---------------------------------------------------------------- /event

  /** What a valid body of `/event` asks for; amounts in cents. */
  datatype Event =
    | Deposit(destination: string, cents: int)
    | Withdraw(origin: string, cents: int)
    | Transfer(origin: string, destination: string, cents: int)

  function TextAt(fields: seq<Field>, key: string): Option<string> {
    match Get(fields, key)
    case Some(Text(s)) => if s != "" then Some(s) else None
    case _ => None
  }

  function CentsOf(v: Json): Option<int> {
    match v
    case Bool(b) => Some(if b then 100 else 0)
    case _ => if Number(v).Some? then Some(Cents(Number(v).value)) else None
  }

  /** `EventIn`: the fields each type requires; others are ignored. */
  function EventOf(body: seq<Field>): Option<Event> {
    var cents := CentsOf(OrNull(body, "amount"));
    var origin, destination := TextAt(body, "origin"), TextAt(body, "destination");
    if cents.None? then None
    else if OrNull(body, "type") == Text("deposit") && destination.Some? then
      Some(Deposit(destination.value, cents.value))
    else if OrNull(body, "type") == Text("withdraw") && origin.Some? then
      Some(Withdraw(origin.value, cents.value))
    else if OrNull(body, "type") == Text("transfer") && origin.Some? && destination.Some? then
      Some(Transfer(origin.value, destination.value, cents.value))
    else None
  }

  /** Reading the request back from its normal form. */
  function EventOfForm(p: seq<Field>): Option<Event> {
    var cents, account := CentsOf(OrNull(p, "amount")), TextAt(p, "account_id");
    var origin, destination := TextAt(p, "origin"), TextAt(p, "destination");
    if cents.None? then None
    else if Get(p, "source_reference").Some? then
      if account.Some? then Some(Deposit(account.value, cents.value)) else None
    else if Get(p, "destination_account").Some? then
      if account.Some? then Some(Withdraw(account.value, cents.value)) else None
    else if origin.Some? && destination.Some? then Some(Transfer(origin.value, destination.value, cents.value))
    else None
  }

  /** The canonical `account_id` field, which the deposit and withdrawal forms prefer to the event's own field. */
  function AccountField(body: seq<Field>): Json {
    match CanonValue(OrNull(body, "account_id"), false)
    case Success(v) => v
    case Failure(_) => Null
  }

  /** An `account_id` that is not empty and names something else than the account the event moves. */
  predicate Overrides(body: seq<Field>, event: Event) {
    match event
    case Deposit(destination, _) => Truthy(AccountField(body)) && AccountField(body) != Text(destination)
    case Withdraw(origin, _) => Truthy(AccountField(body)) && AccountField(body) != Text(origin)
    case Transfer(_, _, _) => false
  }

  lemma RoundingKeepsCents(d: Decimal)
    requires Quantize(d).Some?
    ensures Quantize(d).value.exponent == -2 && Cents(Quantize(d).value) == Cents(d)
  {
    assert Hundredths(Quantize(d).value) == Hundredths(d) by { assert Pow10(0) == 1; }
  }

  lemma AmountSurvives(v: Json)
    requires NormalizeDecimal(v).Success?
    ensures var c := NormalizeDecimal(v).value;
            NormalizeDecimal(c) == Success(c) && CentsOf(c) == CentsOf(v)
  {
    hide ParseDecimal, Str, Quantize, Cents, NormalizeText;
    NormalizedAmount(v);
    if Rounded(v).Some? {
      RoundingKeepsCents(Number(v).value);
      AmountRoundTrip(Rounded(v).value);
    }
  }

  lemma CanonicalText(body: seq<Field>, key: string)
    requires CanonDict(body).Success? && !Excluded(key) && !Monetary(key)
    ensures TextAt(CanonDict(body).value, key) == TextAt(body, key)
    ensures TextAt(body, key).Some? ==> OrNull(CanonDict(body).value, key) == Text(TextAt(body, key).value)
    ensures OrNull(body, key).Text? ==> OrNull(CanonDict(body).value, key) == OrNull(body, key)
    ensures TextAt(body, key).Some? ==> TextAt(body, key).value != ""
    ensures Success(OrNull(CanonDict(body).value, key)) == CanonValue(OrNull(body, key), false)
  {
    hide Excluded, Monetary;
    CanonDictLookup(body, key);
  }

  lemma CanonicalAmount(body: seq<Field>, key: string)
    requires CanonDict(body).Success? && !Excluded(key) && Monetary(key)
    requires CentsOf(OrNull(body, key)).Some?
    ensures var n := CanonDict(body).value;
            && NormalizeDecimal(OrNull(n, key)) == Success(OrNull(n, key))
            && CentsOf(OrNull(n, key)) == CentsOf(OrNull(body, key))
  {
    hide Excluded, Monetary;
    CanonDictLookup(body, key);
    AmountSurvives(OrNull(body, key));
  }

  /** What the canonical dict holds under the keys the event forms read. */
  lemma CanonicalFields(body: seq<Field>)
    requires CanonDict(body).Success?
    ensures var n := CanonDict(body).value;
            && OrNull(n, "account_id") == AccountField(body)
            && TextAt(n, "origin") == TextAt(body, "origin")
            && TextAt(n, "destination") == TextAt(body, "destination")
            && (TextAt(body, "origin").Some? ==> OrNull(n, "origin") == Text(TextAt(body, "origin").value))
            && (TextAt(body, "destination").Some? ==>
                  OrNull(n, "destination") == Text(TextAt(body, "destination").value))
            && (TextAt(body, "origin").Some? ==> TextAt(body, "origin").value != "")
            && (TextAt(body, "destination").Some? ==> TextAt(body, "destination").value != "")
  {
    hide CanonValue, CanonKeys, CanonDict, TextAt, Get;
    CanonicalText(body, "account_id");
    CanonicalText(body, "origin");
    CanonicalText(body, "destination");
  }

  lemma CanonicalTypeAndAmount(body: seq<Field>)
    requires CanonDict(body).Success?
    ensures var n := CanonDict(body).value;
            && (OrNull(body, "type").Text? ==> OrNull(n, "type") == OrNull(body, "type"))
            && (CentsOf(OrNull(body, "amount")).Some? ==>
                  NormalizeDecimal(OrNull(n, "amount")) == Success(OrNull(n, "amount"))
                  && CentsOf(OrNull(n, "amount")) == CentsOf(OrNull(body, "amount")))
  {
    hide CanonValue, CanonKeys, CanonDict, Get, NormalizeDecimal, CentsOf;
    CanonicalText(body, "type");
    if CentsOf(OrNull(body, "amount")).Some? {
      CanonicalAmount(body, "amount");
    }
  }

  lemma DepositReadsBack(n: seq<Field>)
    requires NormalizeDecimal(OrNull(n, "amount")) == Success(OrNull(n, "amount"))
    requires CentsOf(OrNull(n, "amount")).Some?
    ensures DepositForm(n).Success?
    ensures var form := DepositForm(n).value;
            EventOfForm(form) == match Or(OrNull(n, "account_id"), OrNull(n, "destination"))
                                 case Text(s) =>
                                   if s != "" then Some(Deposit(s, CentsOf(OrNull(n, "amount")).value)) else None
                                 case _ => None
  {
    hide Get, NormalizeDecimal, CentsOf, Truthy;
    var form := DepositForm(n).value;
    FourFields(form[0], form[1], form[2], form[3]);
  }

  lemma WithdrawalReadsBack(n: seq<Field>)
    requires NormalizeDecimal(OrNull(n, "amount")) == Success(OrNull(n, "amount"))
    requires CentsOf(OrNull(n, "amount")).Some?
    ensures WithdrawalForm(n).Success?
    ensures var form := WithdrawalForm(n).value;
            EventOfForm(form) == match Or(OrNull(n, "account_id"), OrNull(n, "origin"))
                                 case Text(s) =>
                                   if s != "" then Some(Withdraw(s, CentsOf(OrNull(n, "amount")).value)) else None
                                 case _ => None
  {
    hide Get, NormalizeDecimal, CentsOf, Truthy;
    var form := WithdrawalForm(n).value;
    FourFields(form[0], form[1], form[2], form[3]);
  }

  lemma TransferReadsBack(n: seq<Field>)
    requires NormalizeDecimal(OrNull(n, "amount")) == Success(OrNull(n, "amount"))
    requires CentsOf(OrNull(n, "amount")).Some? && TextAt(n, "origin").Some? && TextAt(n, "destination").Some?
    ensures TransferForm(n).Success?
    ensures EventOfForm(TransferForm(n).value)
         == Some(Transfer(TextAt(n, "origin").value, TextAt(n, "destination").value,
                          CentsOf(OrNull(n, "amount")).value))
  {
    hide Get, NormalizeDecimal, CentsOf;
    var form := TransferForm(n).value;
    assert Get(form, "amount") == Some(OrNull(n, "amount")) && Get(form, "origin") == Some(OrNull(n, "origin"))
        && Get(form, "destination") == Some(OrNull(n, "destination"))
        && Get(form, "source_reference") == None && Get(form, "destination_account") == None by {
      FiveFields(form[0], form[1], form[2], form[3], form[4]);
    }
  }

  lemma GetLast(front: seq<Field>, last: Field, key: string)
    ensures Get(front + [last], key) == if last.key == key then Some(last.value) else Get(front, key)
  {
    assert (front + [last])[..|front|] == front;
  }

  lemma FourFields(a: Field, b: Field, c: Field, d: Field)
    ensures forall key :: Get([a, b, c, d], key)
                       == if d.key == key then Some(d.value) else if c.key == key then Some(c.value)
                          else if b.key == key then Some(b.value) else if a.key == key then Some(a.value) else None
  {
    forall key ensures Get([a, b, c, d], key)
                    == if d.key == key then Some(d.value) else if c.key == key then Some(c.value)
                       else if b.key == key then Some(b.value) else if a.key == key then Some(a.value) else None
    {
      GetLast([a, b, c], d, key);
      GetLast([a, b], c, key);
      GetLast([a], b, key);
      GetLast([], a, key);
      assert [a, b, c] + [d] == [a, b, c, d] && [a, b] + [c] == [a, b, c] && [a] + [b] == [a, b] && [] + [a] == [a];
    }
  }

  lemma FiveFields(a: Field, b: Field, c: Field, d: Field, e: Field)
    ensures forall key :: Get([a, b, c, d, e], key)
                       == if e.key == key then Some(e.value) else if d.key == key then Some(d.value)
                          else if c.key == key then Some(c.value) else if b.key == key then Some(b.value)
                          else if a.key == key then Some(a.value) else None
  {
    forall key ensures Get([a, b, c, d, e], key) == if e.key == key then Some(e.value) else Get([a, b, c, d], key) {
      GetLast([a, b, c, d], e, key);
      assert [a, b, c, d] + [e] == [a, b, c, d, e];
    }
    FourFields(a, b, c, d);
  }

  /** The normal form of a valid event reads back as that event exactly when no other account id overrides it. */
  lemma FormReadsBack(body: seq<Field>)
    requires EventOf(body).Some? && CanonDict(body).Success?
    ensures NormalForm(EVENT, body).Success?
    ensures EventOfForm(NormalForm(EVENT, body).value) == EventOf(body) <==> !Overrides(body, EventOf(body).value)
  {
    hide Get, NormalizeDecimal, CentsOf, CanonDict, TextAt, EventOfForm, DepositForm, WithdrawalForm, TransferForm;
    var n := CanonDict(body).value;
    CanonicalFields(body);
    CanonicalTypeAndAmount(body);
    EventRoute(body);
    match EventOf(body).value {
      case Deposit(_, _) =>
        DepositReadsBack(n);
      case Withdraw(_, _) =>
        WithdrawalReadsBack(n);
      case Transfer(_, _, _) =>
        TransferReadsBack(n);
    }
  }

  /** Which form `/event` uses. */
  lemma EventRoute(body: seq<Field>)
    requires CanonDict(body).Success?
    ensures var n := CanonDict(body).value;
            var kind := OrNull(n, "type");
            && (kind == Text("withdraw") ==> NormalForm(EVENT, body) == WithdrawalForm(n))
            && (kind == Text("deposit") ==> NormalForm(EVENT, body) == DepositForm(n))
            && (kind == Text("transfer") ==> NormalForm(EVENT, body) == TransferForm(n))
  {
    hide Get, NormalizeDecimal, CanonDict, OrNull, DepositForm, WithdrawalForm, TransferForm, Contains;
    assert |EVENT| == 6;
  }

  lemma OrderedReadsTheSame(p: seq<Field>, key: string)
    ensures Get(Ordered(p), key) == Get(p, key)
    ensures TextAt(Ordered(p), key) == TextAt(p, key) && OrNull(Ordered(p), key) == OrNull(p, key)
  {
    hide Ordered;
    OrderedKeepsLookups(p, key);
  }

  /** The event is read off the lookups alone. */
  lemma ReadsBackOrdered(p: seq<Field>)
    ensures EventOfForm(Ordered(p)) == EventOfForm(p)
  {
    hide Get, CentsOf, Ordered, OrNull, TextAt;
    OrderedReadsTheSame(p, "amount");
    OrderedReadsTheSame(p, "account_id");
    OrderedReadsTheSame(p, "origin");
    OrderedReadsTheSame(p, "destination");
    OrderedReadsTheSame(p, "source_reference");
    OrderedReadsTheSame(p, "destination_account");
  }

  /** Events filed under one key are the same event: type, accounts moved and cents. */
  lemma EventKeyDeterminesEvent(verb: string, user: string, a: seq<Field>, b: seq<Field>)
    requires EventOf(a).Some? && EventOf(b).Some?
    requires !Overrides(a, EventOf(a).value) && !Overrides(b, EventOf(b).value)
    requires GenerateKey(EVENT, verb, user, a).Success?
    requires GenerateKey(EVENT, verb, user, a) == GenerateKey(EVENT, verb, user, b)
    ensures EventOf(a) == EventOf(b)
  {
    FormReadsBack(a);
    FormReadsBack(b);
    ReadsBackOrdered(NormalForm(EVENT, a).value);
    ReadsBackOrdered(NormalForm(EVENT, b).value);
  }

  /** A body with only the fields `EventIn` declares overrides nothing. */
  lemma DeclaredFieldsOverrideNothing(body: seq<Field>)
    requires "account_id" !in Keys(body) && EventOf(body).Some?
    ensures !Overrides(body, EventOf(body).value)
  {
  }

  function WithdrawBody(account: string, origin: string, units: int): seq<Field> {
    [Field("account_id", Text(account)), Field("type", Text("withdraw")), Field("origin", Text(origin)),
     Field("amount", Int(units))]
  }

  /** With an extra `account_id`, withdrawals from two different accounts fall under one key. */
  lemma OverriddenEventsCollide(verb: string, user: string, account: string, a: string, b: string, units: int)
    requires account != "" && a != "" && b != "" && a != b
    requires Rounded(Int(units)).Some?
    ensures EventOf(WithdrawBody(account, a, units)).Some? && EventOf(WithdrawBody(account, b, units)).Some?
    ensures EventOf(WithdrawBody(account, a, units)) != EventOf(WithdrawBody(account, b, units))
    ensures GenerateKey(EVENT, verb, user, WithdrawBody(account, a, units)).Success?
    ensures GenerateKey(EVENT, verb, user, WithdrawBody(account, a, units))
         == GenerateKey(EVENT, verb, user, WithdrawBody(account, b, units))
  {
    hide NormalForm, EventOf;
    OverriddenForm(account, a, units);
    OverriddenForm(account, b, units);
    BodyEvent(account, a, units);
    BodyEvent(account, b, units);
  }

  lemma BodyFields(account: string, origin: string, units: int)
    ensures var body := WithdrawBody(account, origin, units);
            && Get(body, "account_id") == Some(Text(account)) && Get(body, "type") == Some(Text("withdraw"))
            && Get(body, "origin") == Some(Text(origin)) && Get(body, "amount") == Some(Int(units))
            && Get(body, "currency") == None && Get(body, "destination") == None
            && Get(body, "destination_account") == None
  {
    hide Get;
    var body := WithdrawBody(account, origin, units);
    FourFields(body[0], body[1], body[2], body[3]);
  }

  lemma BodySucceeds(account: string, origin: string, units: int)
    requires Rounded(Int(units)).Some?
    ensures CanonDict(WithdrawBody(account, origin, units)).Success?
  {
    hide Get, Rounded, Str, NormalizeText, Excluded;
    var body := WithdrawBody(account, origin, units);
    forall key | key in Keys(body) ensures CanonValue(Get(body, key).value, Monetary(key)).Success? {
      assert Get(body, key).value.Text? || Get(body, key).value == Int(units);
    }
    PlainValuesSucceed(Obj(body), Sorted(Keys(body)));
  }

  lemma {:induction false} PlainValuesSucceed(o: Json, keys: seq<string>)
    requires o.Obj? && forall key | key in keys :: key in Keys(o.fields)
    requires forall key | key in Keys(o.fields) :: CanonValue(Get(o.fields, key).value, Monetary(key)).Success?
    ensures CanonKeys(o, keys).Success?
  {
    if keys == [] {
    } else {
      PlainValuesSucceed(o, keys[1..]);
    }
  }

  /** What the canonical form of such a body holds. */
  lemma BodyCanonical(account: string, origin: string, units: int)
    requires Rounded(Int(units)).Some?
    ensures CanonDict(WithdrawBody(account, origin, units)).Success?
    ensures var n := CanonDict(WithdrawBody(account, origin, units)).value;
            && OrNull(n, "account_id") == Text(account) && OrNull(n, "type") == Text("withdraw")
            && OrNull(n, "amount") == Text(Str(Rounded(Int(units)).value))
            && NormalizeDecimal(OrNull(n, "amount")) == Success(OrNull(n, "amount"))
  {
    hide Get, CanonDict, CanonKeys, Str, Rounded;
    NormalizedAmount(Int(units));
    var body := WithdrawBody(account, origin, units);
    BodySucceeds(account, origin, units);
    BodyFields(account, origin, units);
    CanonicalText(body, "account_id");
    CanonicalText(body, "type");
    CanonDictLookup(body, "amount");
  }

  lemma BodyLacks(account: string, origin: string, units: int, key: string)
    requires CanonDict(WithdrawBody(account, origin, units)).Success?
    requires Get(WithdrawBody(account, origin, units), key) == None
    ensures Get(CanonDict(WithdrawBody(account, origin, units)).value, key) == None
  {
    hide Get, CanonDict, CanonKeys, Excluded, Monetary;
    CanonDictLookup(WithdrawBody(account, origin, units), key);
  }

  lemma OverriddenForm(account: string, origin: string, units: int)
    requires account != "" && Rounded(Int(units)).Some?
    ensures NormalForm(EVENT, WithdrawBody(account, origin, units))
         == Success([Field("account_id", Text(account)), Field("amount", Text(Str(Rounded(Int(units)).value))),
                     Field("currency", Text("BRL")), Field("destination_account", Null)])
  {
    hide Get, CanonDict, CanonKeys, NormalForm, NormalizeDecimal, Str;
    var body := WithdrawBody(account, origin, units);
    BodyCanonical(account, origin, units);
    BodyFields(account, origin, units);
    BodyLacks(account, origin, units, "currency");
    BodyLacks(account, origin, units, "destination");
    BodyLacks(account, origin, units, "destination_account");
    EventRoute(body);
  }

  lemma BodyEvent(account: string, origin: string, units: int)
    requires origin != ""
    ensures EventOf(WithdrawBody(account, origin, units)) == Some(Withdraw(origin, CentsOf(Int(units)).value))
  {
    hide Get;
    BodyFields(account, origin, units);
  }

  function DepositBody(destination: string, units: int): seq<Field> {
    [Field("type", Text("deposit")), Field("destination", Text(destination)), Field("amount", Int(units))]
  }

  lemma DepositFields(destination: string, units: int, key: string)
    ensures Get(DepositBody(destination, units), key)
         == if key == "amount" then Some(Int(units)) else if key == "destination" then Some(Text(destination))
            else if key == "type" then Some(Text("deposit")) else None
  {
    hide Get;
    var body := DepositBody(destination, units);
    GetLast([], body[0], key);
    GetLast([body[0]], body[1], key);
    GetLast([body[0], body[1]], body[2], key);
    assert [] + [body[0]] == [body[0]] && [body[0]] + [body[1]] == [body[0], body[1]];
    assert [body[0], body[1]] + [body[2]] == body;
    assert Get([], key) == None by { EmptyHasNothing(key); }
  }

  lemma EmptyHasNothing(key: string)
    ensures Get([], key) == None
  {
  }

  lemma DepositSucceeds(destination: string, units: int)
    requires Rounded(Int(units)).Some?
    ensures CanonDict(DepositBody(destination, units)).Success?
  {
    hide Get, Rounded, Str, NormalizeText, Excluded;
    var body := DepositBody(destination, units);
    forall key | key in Keys(body) ensures CanonValue(Get(body, key).value, Monetary(key)).Success? {
      assert Get(body, key).value.Text? || Get(body, key).value == Int(units);
    }
    PlainValuesSucceed(Obj(body), Sorted(Keys(body)));
  }

  lemma OneUnitRounds()
    ensures Rounded(Int(1)).Some?
  {
    assert Pow10(2) < Pow10(PRECISION) by { assert Pow10(3) == 1000; }
  }

  /** A plain deposit is an event of so many cents, has a key and overrides nothing. */
  lemma DepositBodyEvent(destination: string, units: int, verb: string, user: string)
    requires destination != "" && Rounded(Int(units)).Some?
    ensures EventOf(DepositBody(destination, units)) == Some(Deposit(destination, 100 * units))
    ensures !Overrides(DepositBody(destination, units), Deposit(destination, 100 * units))
    ensures GenerateKey(EVENT, verb, user, DepositBody(destination, units)).Success?
  {
    hide Get, CanonDict, NormalForm, Ordered, Rounded, AccountField;
    var body := DepositBody(destination, units);
    DepositFields(destination, units, "type");
    DepositFields(destination, units, "destination");
    DepositFields(destination, units, "amount");
    DepositFields(destination, units, "origin");
    UnitsInCents(units);
    DepositSucceeds(destination, units);
    DeclaredFieldsOverrideNothing(body);
    FormReadsBack(body);
  }

  lemma UnitsInCents(units: int)
    ensures CentsOf(Int(units)) == Some(100 * units)
  {
    assert Pow10(2) == 100;
  }
}
