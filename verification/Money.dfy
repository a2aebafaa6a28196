/** Decimal amounts: Python's `Decimal`, the two-decimal `Money`, and the canonical amount text. */
module Money {
  import opened Prelude
  import opened Digits
  import opened Errors

  /** (-1)^negative * coefficient * 10^exponent; zero keeps its sign, as in Python. */
  datatype Decimal = Decimal(negative: bool, coefficient: nat, exponent: int)

  const PRECISION: nat := 28

  function Pow10(n: nat): (p: nat)
    ensures p > 0
  {
    if n == 0 then 1 else 10 * Pow10(n - 1)
  }

  // ---------------------------------------------------------------- reading

  function DropUnderscores(s: string): string {
    if s == "" then "" else (if s[0] == '_' then "" else [s[0]]) + DropUnderscores(s[1..])
  }

  /** Length of the leading run of digits. */
  function DigitRun(s: string): (n: nat)
    ensures n <= |s| && AllDigits(s[..n])
    ensures n < |s| ==> !IsDigit(s[n])
  {
    if s == "" || !IsDigit(s[0]) then 0
    else
      var n := DigitRun(s[1..]);
      assert s[..n + 1] == [s[0]] + s[1..][..n];
      n + 1
  }

  function SplitSign(s: string): (bool, string) {
    if s != "" && s[0] == '-' then (true, s[1..])
    else if s != "" && s[0] == '+' then (false, s[1..])
    else (false, s)
  }

  /** The optional exponent part after the digits. */
  function ParseExponent(s: string): Option<int> {
    if s == "" then Some(0)
    else if s[0] != 'e' && s[0] != 'E' then None
    else
      var (negative, digits) := SplitSign(s[1..]);
      if digits == "" || DigitRun(digits) < |digits| then None
      else
        assert digits == digits[..DigitRun(digits)];
        Some(if negative then -(ToNat(digits) as int) else ToNat(digits))
  }

  function ParseUnsigned(negative: bool, body: string): Option<Decimal> {
    var n := DigitRun(body);
    var pointed := n < |body| && body[n] == '.';
    var after := if pointed then body[n + 1..] else body[n..];
    var m := if pointed then DigitRun(after) else 0;
    var digits := body[..n] + after[..m];
    if digits == "" then None
    else match ParseExponent(after[m..])
      case None => None
      case Some(e) => Some(Decimal(negative, ToNat(digits), e - m))
  }

  /** `Decimal(str)` on finite ASCII numerals. */
  function ParseDecimal(s: string): Option<Decimal> {
    var (negative, body) := SplitSign(DropUnderscores(Strip(s)));
    ParseUnsigned(negative, body)
  }

  // ---------------------------------------------------------------- rounding

  function RoundHalfEven(n: nat, m: nat): nat
    requires m > 0
  {
    var q, r := n / m, n % m;
    if 2 * r > m || (2 * r == m && q % 2 == 1) then q + 1 else q
  }

  /** Magnitude in hundredths after rounding half to even. */
  function Hundredths(d: Decimal): nat {
    if d.exponent >= -2 then d.coefficient * Pow10(d.exponent + 2)
    else RoundHalfEven(d.coefficient, Pow10(-2 - d.exponent))
  }

  function Cents(d: Decimal): int {
    if d.negative then -(Hundredths(d) as int) else Hundredths(d)
  }

  /** `quantize(Decimal("0.01"))`; None is the InvalidOperation raised past 28 digits. */
  function Quantize(d: Decimal): Option<Decimal> {
    if Hundredths(d) < Pow10(PRECISION) then Some(Decimal(d.negative, Hundredths(d), -2)) else None
  }

  /** Numeric equality of decimals: `==` in Python, which ignores the exponent and the sign of zero. */
  predicate SameValue(a: Decimal, b: Decimal) {
    var e := if a.exponent < b.exponent then a.exponent else b.exponent;
    && a.coefficient * Pow10(a.exponent - e) == b.coefficient * Pow10(b.exponent - e)
    && (a.coefficient != 0 ==> a.negative == b.negative)
  }

  // ---------------------------------------------------------------- writing

  function Zeros(n: nat): (s: string)
    ensures |s| == n && AllDigits(s)
  {
    if n == 0 then "" else "0" + Zeros(n - 1)
  }

  function SignText(negative: bool): string {
    if negative then "-" else ""
  }

  /** `str(Decimal)` when no exponent marker is needed: digits with a point `-exponent` from the right. */
  function Str(d: Decimal): string
    requires d.exponent == -2
  {
    var digits := ToText(d.coefficient);
    var point := d.exponent + |digits|;
    SignText(d.negative)
    + (if point <= 0 then "0." + Zeros(-point) + digits else digits[..point] + "." + digits[point..])
  }

  /** `f"{amount:.2f}"`: whole part, point, two digits. */
  function FormatFixed2(d: Decimal): string {
    var h := Hundredths(d);
    SignText(d.negative) + ToText(h / 100) + "." + [DigitChar(h % 100 / 10), DigitChar(h % 10)]
  }

  // ---------------------------------------------------------------- Money

  /** `Money.__init__`: the amount is kept as written when it has no more than two decimals. */
  function MoneyAmount(d: Decimal): Result<Decimal, Error> {
    match Quantize(d)
    case None => Failure(DecimalOverflow)
    case Some(q) => Success(if SameValue(d, q) then d else q)
  }

  /** `Money(text).as_str()`. */
  function MoneyText(text: string): Result<string, Error> {
    match ParseDecimal(text)
    case None => Failure(InvalidAmount)
    case Some(d) =>
      var amount :- MoneyAmount(d);
      Success(FormatFixed2(amount))
  }

  /** `parse_positive_money`, as a number of cents. */
  function ParsePositiveMoney(text: string): (r: Result<int, Error>)
    ensures r.Success? ==> r.value > 0
  {
    match ParseDecimal(text)
    case None => Failure(InvalidAmount)
    case Some(d) =>
      var amount :- MoneyAmount(d);
      if Cents(amount) <= 0 then Failure(InvalidAmount) else Success(Cents(amount))
  }

  /** `_normalize_decimal` on a string: unreadable or oversized text is left alone. */
  function NormalizeText(text: string): string {
    match ParseDecimal(text)
    case None => text
    case Some(d) => match Quantize(d)
      case None => text
      case Some(q) => Str(q)
  }

  // ---------------------------------------------------------------- laws

  lemma {:induction false} Pow10Add(a: nat, b: nat)
    ensures Pow10(a + b) == Pow10(a) * Pow10(b)
  {
    if a == 0 {
    } else {
      Pow10Add(a - 1, b);
      assert Pow10(a + b) == 10 * Pow10(a - 1 + b);
    }
  }

  lemma ScaledDivision(n: nat, m: nat, p: nat)
    requires m > 0 && p > 0
    ensures m * p > 0
    ensures (n * p) / (m * p) == n / m
    ensures (n * p) % (m * p) == (n % m) * p
  {
    var q, r := n / m, n % m;
    assert n == q * m + r;
    assert n * p == q * (m * p) + r * p;
    assert 0 <= r * p < m * p;
    DivisionIsUnique(n * p, m * p, q, r * p);
  }

  lemma NoSmallMultiple(k: int, m: nat)
    requires -(m as int) < k * m < m
    ensures k == 0
  {
  }

  lemma DivisionIsUnique(n: nat, m: nat, q: nat, r: nat)
    requires m > 0 && n == q * m + r && r < m
    ensures n / m == q && n % m == r
  {
    var q', r' := n / m, n % m;
    assert (q' - q) * m == r - r' by {
      assert n == q' * m + r';
      assert (q' - q) * m == q' * m - q * m;
    }
    NoSmallMultiple(q' - q, m);
  }

  lemma RoundingScales(c: nat, m: nat, p: nat)
    requires m > 0 && p > 0
    ensures m * p > 0
    ensures RoundHalfEven(c * p, m * p) == RoundHalfEven(c, m)
  {
    ScaledDivision(c, m, p);
    var r := c % m;
    assert 2 * (r * p) == (2 * r) * p;
    Cancel(2 * r, m, p);
  }

  lemma ExactRounding(q: nat, m: nat)
    requires m > 0
    ensures RoundHalfEven(q * m, m) == q
  {
    DivisionIsUnique(q * m, m, q, 0);
  }

  lemma ScaleWhole(c: nat, k: nat, n: nat)
    ensures c * Pow10(k) * Pow10(n) == c * Pow10(k + n)
  {
    Pow10Add(k, n);
    MulAssociates(c, Pow10(k), Pow10(n));
  }

  lemma ScaleAcrossPoint(c: nat, whole: nat, part: nat)
    ensures RoundHalfEven(c * Pow10(whole + part), Pow10(part)) == c * Pow10(whole)
  {
    ScaleWhole(c, whole, part);
    ExactRounding(c * Pow10(whole), Pow10(part));
  }

  lemma ScaleBelowPoint(c: nat, part: nat, k: nat)
    ensures RoundHalfEven(c * Pow10(k), Pow10(part + k)) == RoundHalfEven(c, Pow10(part))
  {
    Pow10Add(part, k);
    RoundingScales(c, Pow10(part), Pow10(k));
  }

  function Padded(d: Decimal, k: nat): Decimal {
    Decimal(d.negative, d.coefficient * Pow10(k), d.exponent - k)
  }

  lemma PaddedWhole(d: Decimal, k: nat)
    requires d.exponent - k >= -2
    ensures Hundredths(Padded(d, k)) == Hundredths(d)
  {
    ScaleWhole(d.coefficient, k, d.exponent - k + 2);
  }

  lemma PaddedAcrossPoint(d: Decimal, k: nat)
    requires d.exponent - k < -2 <= d.exponent
    ensures Hundredths(Padded(d, k)) == Hundredths(d)
  {
    ScaleAcrossPoint(d.coefficient, d.exponent + 2, -2 - d.exponent + k);
  }

  lemma PaddedBelowPoint(d: Decimal, k: nat)
    requires d.exponent < -2
    ensures Hundredths(Padded(d, k)) == Hundredths(d)
  {
    ScaleBelowPoint(d.coefficient, -2 - d.exponent, k);
  }

  /** Writing more trailing zeros does not change the rounded amount. */
  lemma TrailingZeros(d: Decimal, k: nat)
    ensures Hundredths(Padded(d, k)) == Hundredths(d)
  {
    if d.exponent - k >= -2 {
      PaddedWhole(d, k);
    } else if d.exponent >= -2 {
      PaddedAcrossPoint(d, k);
    } else {
      PaddedBelowPoint(d, k);
    }
  }

  lemma MulAssociates(a: int, b: int, c: int)
    ensures a * (b * c) == (a * b) * c
  {
  }

  lemma Cancel(a: nat, b: nat, p: nat)
    requires p > 0
    ensures a * p > b * p <==> a > b
    ensures a * p == b * p <==> a == b
  {
    if a > b {
      assert (a - b) * p > 0;
    } else if b > a {
      assert (b - a) * p > 0;
    }
  }

  /** Equal numbers round to the same number of cents, however they are spelled. */
  lemma ValueDeterminesCents(a: Decimal, b: Decimal)
    requires SameValue(a, b)
    ensures Hundredths(a) == Hundredths(b) && Cents(a) == Cents(b)
  {
    var e := if a.exponent < b.exponent then a.exponent else b.exponent;
    TrailingZeros(a, a.exponent - e);
    TrailingZeros(b, b.exponent - e);
    assert Hundredths(Padded(a, a.exponent - e)) == Hundredths(Padded(b, b.exponent - e));
    if a.coefficient == 0 {
      ZeroIsZeroCents(a);
    }
  }

  lemma ZeroIsZeroCents(d: Decimal)
    requires d.coefficient == 0
    ensures Hundredths(d) == 0
  {
    if d.exponent < -2 {
      DivisionIsUnique(0, Pow10(-2 - d.exponent), 0, 0);
    }
  }

  /** A two-decimal amount is printed as whole part, point and two digits by either formatter. */
  lemma FixedPointText(d: Decimal)
    requires d.exponent == -2
    ensures Str(d) == FormatFixed2(d)
  {
    var c := d.coefficient;
    assert Hundredths(d) == c by { assert Pow10(0) == 1; }
    if c >= 100 {
      assert ToText(c) == ToText(c / 10) + [DigitChar(c % 10)];
      assert ToText(c / 10) == ToText(c / 10 / 10) + [DigitChar(c / 10 % 10)];
      assert c / 10 / 10 == c / 100 && c / 10 % 10 == c % 100 / 10;
      var whole, cents := ToText(c / 100), [DigitChar(c % 100 / 10), DigitChar(c % 10)];
      assert ToText(c) == whole + cents;
      assert ToText(c)[..|whole|] == whole && ToText(c)[|whole|..] == cents;
    } else if c >= 10 {
      assert ToText(c) == ToText(c / 10) + [DigitChar(c % 10)];
      assert ToText(c / 100) == "0";
      assert Str(d) == SignText(d.negative) + ("0." + Zeros(0) + ToText(c));
    } else {
      assert ToText(c / 100) == "0";
      assert Zeros(1) == "0" by { assert Zeros(1) == "0" + Zeros(0); }
      assert Str(d) == SignText(d.negative) + ("0." + Zeros(1) + ToText(c));
    }
  }

  /** `Money(x).as_str()` succeeds exactly on numerals within precision, and there it is the canonical text. */
  lemma CanonicalAmountIsMoneyText(text: string)
    ensures var d := ParseDecimal(text);
            && (MoneyText(text).Success? <==> d.Some? && Quantize(d.value).Some?)
            && (MoneyText(text).Success? ==> MoneyText(text).value == NormalizeText(text))
  {
    var parsed := ParseDecimal(text);
    if parsed.Some? && Quantize(parsed.value).Some? {
      var d, q := parsed.value, Quantize(parsed.value).value;
      FixedPointText(q);
      assert Hundredths(q) == q.coefficient by { assert Pow10(0) == 1; }
    }
  }

  lemma DigitRunStops(digits: string, rest: string)
    requires AllDigits(digits) && (rest == "" || !IsDigit(rest[0]))
    ensures DigitRun(digits + rest) == |digits|
  {
    if digits != "" {
      DigitRunStops(digits[1..], rest);
      assert (digits + rest)[1..] == digits[1..] + rest;
    } else {
      assert digits + rest == rest;
    }
  }

  predicate PlainChar(c: char) {
    IsDigit(c) || c == '.' || c == '-'
  }

  lemma {:induction false} NothingToDrop(s: string)
    requires forall i | 0 <= i < |s| :: PlainChar(s[i])
    ensures DropUnderscores(s) == s
  {
    if s == "" {
    } else {
      NothingToDrop(s[1..]);
      assert s == [s[0]] + s[1..];
    }
  }

  lemma ParseFixedPointBody(negative: bool, whole: string, fraction: string)
    requires AllDigits(whole) && AllDigits(fraction) && whole != ""
    ensures AllDigits(whole + fraction)
    ensures ParseUnsigned(negative, whole + ("." + fraction))
         == Some(Decimal(negative, ToNat(whole + fraction), -|fraction|))
  {
    var tail := "." + fraction;
    var body := whole + tail;
    DigitRunStops(whole, tail);
    assert body[..|whole|] == whole && body[|whole| + 1..] == fraction;
    DigitRunStops(fraction, "");
    assert fraction + "" == fraction;
    assert fraction[..|fraction|] == fraction && fraction[|fraction|..] == "";
  }

  lemma NothingToClean(s: string)
    requires s != "" && forall i | 0 <= i < |s| :: PlainChar(s[i])
    ensures DropUnderscores(Strip(s)) == s
  {
    assert PlainChar(s[0]) && PlainChar(s[|s| - 1]);
    assert Strip(s) == s;
    NothingToDrop(s);
  }

  lemma PiecesArePlain(negative: bool, whole: string, fraction: string)
    requires AllDigits(whole) && AllDigits(fraction)
    ensures var s := SignText(negative) + (whole + ("." + fraction));
            forall i | 0 <= i < |s| :: PlainChar(s[i])
  {
    var body := whole + ("." + fraction);
    forall i | 0 <= i < |body| ensures PlainChar(body[i]) {
      assert i > |whole| ==> body[i] == fraction[i - |whole| - 1];
    }
  }

  /** Reading sign, whole digits, point and fraction digits. */
  lemma ParseFixedPoint(negative: bool, whole: string, fraction: string)
    requires AllDigits(whole) && AllDigits(fraction) && whole != ""
    ensures AllDigits(whole + fraction)
    ensures ParseDecimal(SignText(negative) + (whole + ("." + fraction)))
         == Some(Decimal(negative, ToNat(whole + fraction), -|fraction|))
  {
    var body := whole + ("." + fraction);
    var s := SignText(negative) + body;
    PiecesArePlain(negative, whole, fraction);
    NothingToClean(s);
    assert SplitSign(s) == (negative, body) by {
      assert IsDigit(body[0]);
      assert negative ==> s[1..] == body;
      assert !negative ==> s == body;
    }
    ParseFixedPointBody(negative, whole, fraction);
  }

  lemma DigitsOfHundredths(h: nat)
    ensures var cents := [DigitChar(h % 100 / 10), DigitChar(h % 10)];
            AllDigits(ToText(h / 100) + cents) && ToNat(ToText(h / 100) + cents) == h
  {
    var whole, cents := ToText(h / 100), [DigitChar(h % 100 / 10), DigitChar(h % 10)];
    NumeralRoundTrip(h / 100);
    ToNatAppend(whole, cents[0]);
    ToNatAppend(whole + [cents[0]], cents[1]);
    assert whole + cents == whole + [cents[0]] + [cents[1]];
  }

  /** Printing a two-decimal amount and reading it back gives the same decimal, sign of zero included. */
  lemma AmountRoundTrip(d: Decimal)
    requires d.exponent == -2
    ensures ParseDecimal(Str(d)) == Some(d)
  {
    var h := d.coefficient;
    assert Hundredths(d) == h by { assert Pow10(0) == 1; }
    var whole, cents := ToText(h / 100), [DigitChar(h % 100 / 10), DigitChar(h % 10)];
    FixedPointText(d);
    assert Str(d) == SignText(d.negative) + (whole + ("." + cents));
    ParseFixedPoint(d.negative, whole, cents);
    DigitsOfHundredths(h);
  }

  /** Two readable amounts share a canonical text exactly when they agree in cents and in sign. */
  lemma SameCanonicalText(a: string, b: string)
    requires MoneyText(a).Success? && MoneyText(b).Success?
    ensures var x, y := ParseDecimal(a).value, ParseDecimal(b).value;
            NormalizeText(a) == NormalizeText(b) <==> Cents(x) == Cents(y) && x.negative == y.negative
  {
    var x, y := ParseDecimal(a).value, ParseDecimal(b).value;
    AmountRoundTrip(Quantize(x).value);
    AmountRoundTrip(Quantize(y).value);
  }

  /** So a number's spelling is ignored, except that a negative zero is not the plain zero. */
  lemma SpellingIsIgnored(a: string, b: string)
    requires MoneyText(a).Success? && MoneyText(b).Success?
    requires SameValue(ParseDecimal(a).value, ParseDecimal(b).value)
    ensures NormalizeText(a) == NormalizeText(b) <==>
            ParseDecimal(a).value.coefficient != 0 || ParseDecimal(a).value.negative == ParseDecimal(b).value.negative
  {
    ValueDeterminesCents(ParseDecimal(a).value, ParseDecimal(b).value);
    SameCanonicalText(a, b);
  }

  /** The exception is real: "0.00" and "-0.00" are the same number with different canonical texts. */
  lemma NegativeZeroIsKept()
    ensures MoneyText("0.00").Success? && MoneyText("-0.00").Success?
    ensures SameValue(ParseDecimal("0.00").value, ParseDecimal("-0.00").value)
    ensures NormalizeText("0.00") != NormalizeText("-0.00")
  {
    var plus, minus := Decimal(false, 0, -2), Decimal(true, 0, -2);
    FixedPointText(plus);
    FixedPointText(minus);
    assert Str(plus) == "0.00" && Str(minus) == "-0.00" by { assert ToText(0) == "0"; }
    AmountRoundTrip(plus);
    AmountRoundTrip(minus);
    SpellingIsIgnored("0.00", "-0.00");
  }

  /** What `parse_positive_money` accepts: a numeral within precision that rounds to at least one cent. */
  lemma PositiveMoneyExactly(text: string)
    ensures var d := ParseDecimal(text);
            && (ParsePositiveMoney(text).Success? <==> MoneyText(text).Success? && Cents(d.value) > 0)
            && (ParsePositiveMoney(text).Success? ==> ParsePositiveMoney(text).value == Cents(d.value))
  {
    var parsed := ParseDecimal(text);
    if parsed.Some? && Quantize(parsed.value).Some? {
      var q := Quantize(parsed.value).value;
      assert Hundredths(q) == q.coefficient by { assert Pow10(0) == 1; }
    }
  }

  lemma Multiples(e: int, m: nat)
    requires m > 0
    ensures e >= 2 ==> e * m >= 2 * m
    ensures e == 1 ==> e * m == m
    ensures e <= -1 ==> e * m <= -(m as int)
  {
    if e >= 2 {
      assert (e - 2) * m >= 0;
    } else if e <= -1 {
      assert (-1 - e) * m >= 0;
    }
  }

  /** How far r, e steps above the quotient, is off the fraction. */
  lemma OffBy(n: nat, m: nat, r: nat)
    requires m > 0
    ensures r * m - n == (r - n / m) * m - n % m
  {
    var q := n / m;
    assert n == q * m + n % m;
    assert (r - q) * m == r * m - q * m;
  }

  /** Rounding to the nearest, ties to the even neighbour: there is exactly one such number. */
  lemma HalfEvenExactly(n: nat, m: nat, r: nat)
    requires m > 0
    ensures var off := r * m - n;
            r == RoundHalfEven(n, m) <==>
              -(m as int) <= 2 * off <= m && (2 * off == m || 2 * off == -(m as int) ==> r % 2 == 0)
  {
    OffBy(n, m, r);
    Multiples(r - n / m, m);
    HalfEvenFrom(n / m, n % m, m, r, r * m - n);
  }

  lemma HalfEvenFrom(q: nat, rest: nat, m: nat, r: nat, off: int)
    requires rest < m
    requires r == q ==> off == -(rest as int)
    requires r == q + 1 ==> off == m - rest
    requires r > q + 1 ==> off >= 2 * m - rest
    requires r < q ==> off <= -(m as int) - rest
    ensures r == (if 2 * rest > m || (2 * rest == m && q % 2 == 1) then q + 1 else q) <==>
              -(m as int) <= 2 * off <= m && (2 * off == m || 2 * off == -(m as int) ==> r % 2 == 0)
  {
  }
}
