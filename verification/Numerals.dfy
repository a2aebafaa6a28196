/** The grammar of amounts: which texts are read as decimals, and as which. */
module Numerals {
  import opened Prelude
  import opened Digits
  import opened Money

  datatype Exponent = Exponent(mark: char, sign: string, digits: string)

  /** A sign, digits, perhaps a point with digits, perhaps an exponent. */
  datatype Numeral = Numeral(sign: string, whole: string, fraction: Option<string>, exponent: Option<Exponent>)

  predicate IsSign(s: string) {
    s == "" || s == "+" || s == "-"
  }

  predicate ValidExponent(e: Exponent) {
    (e.mark == 'e' || e.mark == 'E') && IsSign(e.sign) && e.digits != "" && AllDigits(e.digits)
  }

  function FractionDigits(n: Numeral): string {
    if n.fraction.Some? then n.fraction.value else ""
  }

  predicate Valid(n: Numeral) {
    && IsSign(n.sign) && AllDigits(n.whole) && AllDigits(FractionDigits(n)) && n.whole + FractionDigits(n) != ""
    && (n.exponent.Some? ==> ValidExponent(n.exponent.value))
  }

  function ExponentText(e: Option<Exponent>): string {
    match e
    case None => ""
    case Some(x) => [x.mark] + (x.sign + x.digits)
  }

  function Tail(n: Numeral): string {
    (if n.fraction.Some? then "." + n.fraction.value else "") + ExponentText(n.exponent)
  }

  function Spelled(n: Numeral): string {
    n.sign + (n.whole + Tail(n))
  }

  function Power(n: Numeral): int
    requires Valid(n)
  {
    match n.exponent
    case None => 0
    case Some(e) => if e.sign == "-" then -(ToNat(e.digits) as int) else ToNat(e.digits)
  }

  /** All digits as one number, shifted by the exponent and by the digits after the point. */
  function Denoted(n: Numeral): Decimal
    requires Valid(n)
  {
    Decimal(n.sign == "-", ToNat(n.whole + FractionDigits(n)), Power(n) - |FractionDigits(n)|)
  }

  lemma {:induction false} RunStops(front: string, rest: string)
    requires AllDigits(front) && (rest == "" || !IsDigit(rest[0]))
    ensures DigitRun(front + rest) == |front|
  {
    if front == "" {
      assert front + rest == rest;
    } else {
      assert (front + rest)[1..] == front[1..] + rest;
      RunStops(front[1..], rest);
    }
  }

  lemma SignSplits(sign: string, body: string)
    requires IsSign(sign) && (body == "" || (body[0] != '+' && body[0] != '-'))
    ensures SplitSign(sign + body) == (sign == "-", body)
  {
    if sign == "" {
      assert sign + body == body;
    } else {
      assert (sign + body)[1..] == body;
    }
  }

  lemma ExponentReads(e: Option<Exponent>)
    requires e.Some? ==> ValidExponent(e.value)
    ensures ParseExponent(ExponentText(e))
         == Some(match e
                 case None => 0
                 case Some(x) => if x.sign == "-" then -(ToNat(x.digits) as int) else ToNat(x.digits))
  {
    hide ToNat;
    if e.Some? {
      var x := e.value;
      assert ExponentText(e)[1..] == x.sign + x.digits;
      SignSplits(x.sign, x.digits);
      assert x.digits + "" == x.digits;
      RunStops(x.digits, "");
    }
  }

  lemma PartsLieThere(whole: string, fraction: string, tail: string)
    ensures var after, body := fraction + tail, whole + ("." + fraction + tail);
            && |body| == |whole| + 1 + |after| && body[..|whole|] == whole && body[|whole|] == '.'
            && body[|whole| + 1..] == after && after[..|fraction|] == fraction && after[|fraction|..] == tail
  {
    assert whole + ("." + fraction + tail) == whole + "." + (fraction + tail);
  }

  lemma PointedReads(negative: bool, whole: string, fraction: string, exponent: Option<Exponent>)
    requires AllDigits(whole) && AllDigits(fraction) && whole + fraction != ""
    requires exponent.Some? ==> ValidExponent(exponent.value)
    ensures ParseUnsigned(negative, whole + ("." + fraction + ExponentText(exponent)))
         == match ParseExponent(ExponentText(exponent))
            case None => None
            case Some(e) => Some(Decimal(negative, ToNat(whole + fraction), e - |fraction|))
  {
    hide ToNat, ParseExponent, DigitRun, ExponentText, AllDigits, IsDigit;
    var rest := "." + fraction + ExponentText(exponent);
    var body, after := whole + rest, fraction + ExponentText(exponent);
    ExponentStart(exponent);
    assert rest[0] == '.' && !IsDigit(rest[0]) by { PointIsNoDigit(); }
    RunStops(whole, rest);
    assert ExponentText(exponent) == "" || !IsDigit(ExponentText(exponent)[0]) by { PointIsNoDigit(); }
    RunStops(fraction, ExponentText(exponent));
    PartsLieThere(whole, fraction, ExponentText(exponent));
  }

  lemma PointIsNoDigit()
    ensures !IsDigit('.') && !IsDigit('e') && !IsDigit('E')
  {
  }

  lemma PointlessReads(negative: bool, whole: string, exponent: Option<Exponent>)
    requires AllDigits(whole) && whole != "" && (exponent.Some? ==> ValidExponent(exponent.value))
    ensures ParseUnsigned(negative, whole + ExponentText(exponent))
         == match ParseExponent(ExponentText(exponent))
            case None => None
            case Some(e) => Some(Decimal(negative, ToNat(whole), e))
  {
    hide ToNat, ParseExponent, DigitRun, ExponentText;
    var rest := ExponentText(exponent);
    var body := whole + rest;
    ExponentStart(exponent);
    RunStops(whole, rest);
    assert body[..|whole|] == whole && body[|whole|..] == rest && rest[0..] == rest && whole + rest[..0] == whole;
  }

  /** Every numeral is read as what it denotes. */
  lemma NumeralReads(n: Numeral)
    requires Valid(n)
    ensures var (negative, body) := SplitSign(Spelled(n)); ParseUnsigned(negative, body) == Some(Denoted(n))
  {
    hide ToNat, ParseExponent, ParseUnsigned, DigitRun, SplitSign, ExponentText, AllDigits;
    BodyStart(n);
    SignSplits(n.sign, n.whole + Tail(n));
    ExponentReads(n.exponent);
    if n.fraction.Some? {
      PointedReads(n.sign == "-", n.whole, n.fraction.value, n.exponent);
    } else {
      assert n.whole + "" == n.whole && "" + ExponentText(n.exponent) == ExponentText(n.exponent);
      PointlessReads(n.sign == "-", n.whole, n.exponent);
    }
  }

  lemma BodyStart(n: Numeral)
    requires Valid(n)
    ensures var body := n.whole + Tail(n); body == "" || (body[0] != '+' && body[0] != '-')
  {
    ExponentStart(n.exponent);
    if n.whole != "" {
      assert (n.whole + Tail(n))[0] == n.whole[0] && IsDigit(n.whole[0]);
    }
  }

  lemma ExponentStart(e: Option<Exponent>)
    requires e.Some? ==> ValidExponent(e.value)
    ensures ExponentText(e) == "" || (ExponentText(e)[0] == 'e' || ExponentText(e)[0] == 'E')
  {
  }

  lemma SignFound(s: string) returns (sign: string)
    ensures IsSign(sign) && s == sign + SplitSign(s).1 && (SplitSign(s).0 <==> sign == "-")
  {
    sign := if s != "" && (s[0] == '-' || s[0] == '+') then [s[0]] else "";
  }

  lemma ExponentFound(s: string) returns (e: Option<Exponent>)
    requires ParseExponent(s).Some?
    ensures e.Some? ==> ValidExponent(e.value)
    ensures ExponentText(e) == s
  {
    if s == "" {
      e := None;
    } else {
      var sign := SignFound(s[1..]);
      var digits := SplitSign(s[1..]).1;
      assert digits == digits[..DigitRun(digits)];
      e := Some(Exponent(s[0], sign, digits));
    }
  }

  lemma PartsJoin(body: string, k: nat, after: string, m: nat)
    requires k < |body| && body[k] == '.' && after == body[k + 1..] && m <= |after|
    ensures body[..k] + (("." + after[..m]) + after[m..]) == body
  {
    assert body == body[..k] + ("." + after) && after == after[..m] + after[m..];
  }

  lemma PointedFound(body: string) returns (n: Numeral)
    requires var k := DigitRun(body);
             k < |body| && body[k] == '.' && ParseUnsigned(false, body).Some?
    ensures Valid(n) && n.sign == "" && n.whole + Tail(n) == body
  {
    hide ToNat, ParseExponent, ExponentText, DigitRun, AllDigits;
    var k := DigitRun(body);
    var after := body[k + 1..];
    var m := DigitRun(after);
    var e := ExponentFound(after[m..]);
    n := Numeral("", body[..k], Some(after[..m]), e);
    PartsJoin(body, k, after, m);
  }

  lemma PointlessFound(body: string) returns (n: Numeral)
    requires var k := DigitRun(body);
             !(k < |body| && body[k] == '.') && ParseUnsigned(false, body).Some?
    ensures Valid(n) && n.sign == "" && n.whole + Tail(n) == body
  {
    hide ToNat, ParseExponent, ExponentText;
    var k := DigitRun(body);
    assert body[k..][0..] == body[k..] && body[..k] + body[k..][..0] == body[..k];
    var e := ExponentFound(body[k..]);
    n := Numeral("", body[..k], None, e);
    assert Tail(n) == body[k..];
    assert body == body[..k] + body[k..];
  }

  lemma SignDoesNotMatter(a: bool, b: bool, body: string)
    ensures ParseUnsigned(a, body).Some? <==> ParseUnsigned(b, body).Some?
  {
    hide ToNat, ParseExponent, DigitRun;
  }

  /** Every text that is read is the spelling of a numeral. */
  lemma NumeralFound(s: string) returns (n: Numeral)
    requires var (negative, body) := SplitSign(s); ParseUnsigned(negative, body).Some?
    ensures Valid(n) && Spelled(n) == s
  {
    hide ToNat, ParseUnsigned, SplitSign, Tail, DigitRun, ExponentText;
    var sign := SignFound(s);
    var (negative, body) := SplitSign(s);
    SignDoesNotMatter(negative, false, body);
    var k := DigitRun(body);
    if k < |body| && body[k] == '.' {
      n := PointedFound(body);
    } else {
      n := PointlessFound(body);
    }
    n := Signed(n, sign);
  }

  lemma Signed(n: Numeral, sign: string) returns (m: Numeral)
    requires Valid(n) && IsSign(sign)
    ensures m == n.(sign := sign) && Valid(m) && m.whole + Tail(m) == n.whole + Tail(n)
  {
    m := n.(sign := sign);
  }

  /** A text is an amount exactly when, without outer spaces and underscores, it spells a numeral; it is then read as
      the number denoted. */
  lemma ReadsExactly(s: string, d: Decimal)
    ensures ParseDecimal(s) == Some(d) <==>
              exists n :: Valid(n) && Spelled(n) == DropUnderscores(Strip(s)) && Denoted(n) == d
  {
    hide Strip, DropUnderscores, SplitSign, ParseUnsigned, Spelled, Valid;
    var text := DropUnderscores(Strip(s));
    if ParseDecimal(s) == Some(d) {
      var n := NumeralFound(text);
      NumeralReads(n);
    }
    forall n | Valid(n) && Spelled(n) == text ensures ParseDecimal(s) == Some(Denoted(n)) {
      NumeralReads(n);
    }
  }
}
