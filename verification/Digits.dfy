/** Decimal numerals: Python's `str(int)` and `int(str)` on ASCII digits. */
module Digits {

  predicate IsDigit(c: char) {
    '0' <= c <= '9'
  }

  predicate AllDigits(s: string) {
    forall i | 0 <= i < |s| :: IsDigit(s[i])
  }

  function DigitValue(c: char): nat
    requires IsDigit(c)
  {
    (c as int) - ('0' as int)
  }

  function DigitChar(d: nat): (c: char)
    requires d < 10
    ensures IsDigit(c) && DigitValue(c) == d
  {
    (('0' as int) + d) as char
  }

  function ToText(n: nat): (s: string)
    ensures s != "" && AllDigits(s)
  {
    if n < 10 then [DigitChar(n)] else ToText(n / 10) + [DigitChar(n % 10)]
  }

  function ToNat(s: string): nat
    requires AllDigits(s)
  {
    if s == "" then 0 else 10 * ToNat(s[..|s| - 1]) + DigitValue(s[|s| - 1])
  }

  lemma {:induction false} NumeralRoundTrip(n: nat)
    ensures ToNat(ToText(n)) == n
  {
    if n >= 10 {
      NumeralRoundTrip(n / 10);
      var front := ToText(n / 10);
      assert ToText(n) == front + [DigitChar(n % 10)];
      assert ToText(n)[..|ToText(n)| - 1] == front;
    } else {
      assert ToText(n)[..0] == "";
    }
  }

  /** Appending one digit multiplies by ten, which is how an unhyphenated display is split. */
  lemma ToNatAppend(s: string, c: char)
    requires AllDigits(s) && IsDigit(c)
    ensures AllDigits(s + [c]) && ToNat(s + [c]) == 10 * ToNat(s) + DigitValue(c)
  {
    assert (s + [c])[..|s|] == s;
  }

  /** ASCII members of Python's whitespace class. */
  predicate IsSpace(c: char) {
    9 <= c as int <= 13 || 28 <= c as int <= 32
  }

  /** `str.strip()`. */
  function Strip(s: string): string {
    if s == "" then ""
    else if IsSpace(s[0]) then Strip(s[1..])
    else if IsSpace(s[|s| - 1]) then Strip(s[..|s| - 1])
    else s
  }

  /** `str.lower()` on ASCII. */
  function Lower(s: string): string {
    if s == "" then ""
    else [if 'A' <= s[0] <= 'Z' then (s[0] as int + 32) as char else s[0]] + Lower(s[1..])
  }

  /** `re.sub(r"\D", "", value)`. */
  function DigitsOnly(s: string): (r: string)
    ensures AllDigits(r)
  {
    if s == "" then "" else DigitsOnly(s[..|s| - 1]) + (if IsDigit(s[|s| - 1]) then [s[|s| - 1]] else "")
  }

  lemma {:induction false} DigitsOnlyKeepsDigits(s: string)
    requires AllDigits(s)
    ensures DigitsOnly(s) == s
  {
    if s == "" {
    } else {
      var front, last := s[..|s| - 1], s[|s| - 1];
      DigitsOnlyKeepsDigits(front);
      assert IsDigit(last) && DigitsOnly(s) == front + [last];
      assert s == front + [last];
    }
  }

  /** The digits of a text are those of its parts, in order. */
  lemma {:induction false} DigitsOnlyConcat(a: string, b: string)
    ensures DigitsOnly(a + b) == DigitsOnly(a) + DigitsOnly(b)
  {
    if b == "" {
      assert a + b == a;
    } else {
      var front := b[..|b| - 1];
      assert (a + b)[..|a + b| - 1] == a + front;
      DigitsOnlyConcat(a, front);
    }
  }

  /** From i to j lies all of the text but spaces at its ends. */
  ghost predicate Inner(s: string, i: nat, j: nat) {
    && i <= j <= |s| && (forall k | 0 <= k < i || j <= k < |s| :: IsSpace(s[k]))
    && (i < j ==> !IsSpace(s[i]) && !IsSpace(s[j - 1]))
  }

  lemma SpaceBefore(s: string, i: nat, j: nat)
    requires s != "" && IsSpace(s[0]) && Inner(s[1..], i, j)
    ensures Inner(s, i + 1, j + 1) && s[1..][i..j] == s[i + 1..j + 1]
  {
    assert forall k | 0 < k < |s| :: s[k] == s[1..][k - 1];
  }

  lemma SpaceAfter(s: string, i: nat, j: nat)
    requires s != "" && IsSpace(s[|s| - 1]) && Inner(s[..|s| - 1], i, j)
    ensures Inner(s, i, j) && s[..|s| - 1][i..j] == s[i..j]
  {
  }

  /** Stripping cuts off the spaces at both ends and nothing else. */
  lemma {:induction false} StripExactly(s: string) returns (i: nat, j: nat)
    ensures Inner(s, i, j) && Strip(s) == s[i..j]
  {
    hide Inner, IsSpace;
    if s == "" {
      i, j := 0, 0;
      assert Inner(s, i, j) by { NoSpaces(s); }
    } else if IsSpace(s[0]) {
      i, j := StripExactly(s[1..]);
      SpaceBefore(s, i, j);
      i, j := i + 1, j + 1;
    } else if IsSpace(s[|s| - 1]) {
      i, j := StripExactly(s[..|s| - 1]);
      SpaceAfter(s, i, j);
    } else {
      i, j := 0, |s|;
      NoSpaces(s);
    }
  }

  lemma NoSpaces(s: string)
    requires s == "" || (!IsSpace(s[0]) && !IsSpace(s[|s| - 1]))
    ensures Inner(s, 0, |s|)
  {
  }

  /** Lower-casing replaces each letter on its own. */
  lemma {:induction false} LowerExactly(s: string, i: nat)
    requires i < |s|
    ensures |Lower(s)| == |s|
    ensures Lower(s)[i] == if 'A' <= s[i] <= 'Z' then (s[i] as int + 32) as char else s[i]
  {
    if |s| > 1 {
      LowerExactly(s[1..], if i > 0 then i - 1 else 0);
    }
  }

  /** Spaces around a text hold no digits. */
  lemma SpacesAreNoDigits(text: string)
    ensures DigitsOnly(Strip(text)) == DigitsOnly(text)
  {
    hide Strip, DigitsOnly;
    var i, j := StripExactly(text);
    assert text == text[..i] + text[i..j] + text[j..];
    DigitsOnlyConcat(text[..i] + text[i..j], text[j..]);
    DigitsOnlyConcat(text[..i], text[i..j]);
    OnlySpaces(text[..i]);
    OnlySpaces(text[j..]);
    assert "" + DigitsOnly(text[i..j]) == DigitsOnly(text[i..j]);
  }

  lemma {:induction false} OnlySpaces(s: string)
    requires forall k | 0 <= k < |s| :: IsSpace(s[k])
    ensures DigitsOnly(s) == ""
  {
    if s == "" {
    } else {
      OnlySpaces(s[..|s| - 1]);
    }
  }
}
