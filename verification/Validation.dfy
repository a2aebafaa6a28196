/** Tax-document check digits and account display numbers. */
module Validation {
  import opened Prelude
  import opened Errors
  import opened Digits

  function Numbers(s: string): (r: seq<nat>)
    requires AllDigits(s)
    ensures |r| == |s|
    ensures forall i | 0 <= i < |s| :: r[i] == DigitValue(s[i]) && r[i] <= 9
  {
    seq(|s|, i requires 0 <= i < |s| => DigitValue(s[i]))
  }

  /** `sum(n * w for n, w in zip(nums, weights))` */
  function Weighted(nums: seq<nat>, weights: seq<nat>): nat
    requires |nums| >= |weights|
  {
    if weights == [] then 0
    else Weighted(nums, weights[..|weights| - 1]) + nums[|weights| - 1] * weights[|weights| - 1]
  }

  const CPF1: seq<nat> := [10, 9, 8, 7, 6, 5, 4, 3, 2]
  const CPF2: seq<nat> := [11, 10, 9, 8, 7, 6, 5, 4, 3, 2]
  const CNPJ1: seq<nat> := [5, 4, 3, 2, 9, 8, 7, 6, 5, 4, 3, 2]
  const CNPJ2: seq<nat> := [6, 5, 4, 3, 2, 9, 8, 7, 6, 5, 4, 3, 2]

  function CpfDigit(sum: nat): nat {
    sum * 10 % 11 % 10
  }

  function CnpjDigit(sum: nat): nat {
    if sum % 11 < 2 then 0 else 11 - sum % 11
  }

  /** `cleaned == cleaned[0] * n` */
  predicate AllSame(s: string)
    requires s != ""
  {
    forall i | 0 <= i < |s| :: s[i] == s[0]
  }

  function ValidateCpf(cpf: string): Result<string, Error> {
    var cleaned := DigitsOnly(cpf);
    if |cleaned| != 11 || AllSame(cleaned) then Failure(OnboardingError(InvalidCpf))
    else
      var nums := Numbers(cleaned);
      if CpfDigit(Weighted(nums, CPF1)) != nums[9] then Failure(OnboardingError(InvalidCpf))
      else if CpfDigit(Weighted(nums, CPF2)) != nums[10] then Failure(OnboardingError(InvalidCpf))
      else Success(cleaned)
  }

  function ValidateCnpj(cnpj: string): Result<string, Error> {
    var cleaned := DigitsOnly(cnpj);
    if |cleaned| != 14 || AllSame(cleaned) then Failure(OnboardingError(InvalidCnpj))
    else
      var nums := Numbers(cleaned);
      if CnpjDigit(Weighted(nums, CNPJ1)) != nums[12] then Failure(OnboardingError(InvalidCnpj))
      else if CnpjDigit(Weighted(nums, CNPJ2)) != nums[13] then Failure(OnboardingError(InvalidCnpj))
      else Success(cleaned)
  }

  function ValidateDocument(document: string): Result<string, Error> {
    var cleaned := DigitsOnly(document);
    if |cleaned| == 11 then ValidateCpf(cleaned)
    else if |cleaned| == 14 then ValidateCnpj(cleaned)
    else Failure(OnboardingError(UnknownDocumentKind))
  }

  // ---------------------------------------------------------------- one-digit errors

  /** Both documents print a check digit in the same way. */
  lemma CheckDigitsAgree(sum: nat)
    ensures CpfDigit(sum) == CnpjDigit(sum)
  {
    var q, r := sum / 11, sum % 11;
    var c := if r == 0 then 0 else r - 1;
    assert sum * 10 == 11 * (10 * q + c) + (if r == 0 then 0 else 11 - r);
  }

  /** The sum may shift so without changing its check digit: by multiples of 11, or between remainders 0 and 1. */
  predicate Keeps(sum: nat, shift: int) {
    shift % 11 == 0 || (sum % 11 == 0 && shift % 11 == 1) || (sum % 11 == 1 && shift % 11 == 10)
  }

  lemma ShiftedDigit(s: nat, t: nat)
    ensures CnpjDigit(s) == CnpjDigit(t) <==> Keeps(s, t - s)
  {
  }

  /** Changes that both sums keep when the two weights are 5 and 6. */
  predicate FiveAndSixMiss(change: int, sum1: nat, sum2: nat) {
    || (sum1 % 11 == 0 && sum2 % 11 == 1 && (change == 9 || change == -2))
    || (sum1 % 11 == 1 && sum2 % 11 == 0 && (change == 2 || change == -9))
  }

  /** Two shifts that are kept differ by at most two, modulo 11. */
  lemma KeptShiftsAreClose(shift: int, change: int, sum1: nat, sum2: nat)
    requires change != 0 && -9 <= change <= 9 && Keeps(sum1, shift) && Keeps(sum2, shift + change)
    ensures change == 1 || change == -1 || change == 2 || change == -2 || change == 9 || change == -9
  {
  }

  /** Neighbouring weights, as most positions have, miss a change only when they are 5 and 6. */
  lemma NeighbouringWeights(w: nat, change: int, sum1: nat, sum2: nat)
    requires 2 <= w <= 9 && change != 0 && -9 <= change <= 9
    ensures Keeps(sum1, change * w) && Keeps(sum2, change * (w + 1)) <==> w == 5 && FiveAndSixMiss(change, sum1, sum2)
  {
    var shift := change * w;
    assert change * (w + 1) == shift + change;
    if Keeps(sum1, shift) && Keeps(sum2, shift + change) {
      KeptShiftsAreClose(shift, change, sum1, sum2);
    }
    if change == 1 || change == -1 {
      assert shift == w || shift == -(w as int);
    } else if change == 2 || change == -2 {
      assert shift == 2 * w || shift == -2 * w;
    } else if change == 9 || change == -9 {
      assert shift == 9 * w || shift == -9 * w;
    }
  }

  /** One changed digit changes a weighted sum by its weight times the change, or not at all beyond the weights. */
  lemma {:induction false} WeightedChange(a: seq<nat>, b: seq<nat>, weights: seq<nat>, at: nat)
    requires |a| == |b| >= |weights|
    requires forall i | 0 <= i < |a| && i != at :: a[i] == b[i]
    ensures (Weighted(b, weights) as int) - (Weighted(a, weights) as int)
         == if at < |weights| then ((b[at] as int) - (a[at] as int)) * weights[at] else 0
  {
    if weights == [] {
    } else {
      WeightedChange(a, b, weights[..|weights| - 1], at);
    }
  }

  /** Where all digits but two are zero only those two count. */
  lemma {:induction false} TwoDigits(n: seq<nat>, weights: seq<nat>, i: nat, j: nat)
    requires |n| >= |weights| && i < j
    requires forall k | 0 <= k < |weights| && k != i && k != j :: n[k] == 0
    ensures Weighted(n, weights)
         == (if i < |weights| then n[i] * weights[i] else 0) + (if j < |weights| then n[j] * weights[j] else 0)
  {
    if weights == [] {
    } else {
      TwoDigits(n, weights[..|weights| - 1], i, j);
    }
  }

  /** The change from one digit to another. */
  function Change(s: string, at: nat, d: char): int
    requires at < |s| && IsDigit(s[at]) && IsDigit(d)
  {
    DigitValue(d) - DigitValue(s[at])
  }

  lemma ChangedNumbers(s: string, at: nat, d: char)
    requires AllDigits(s) && at < |s| && IsDigit(d)
    ensures AllDigits(s[at := d])
    ensures var m, n := Numbers(s), Numbers(s[at := d]);
            && n[at] == m[at] + Change(s, at, d)
            && forall i | 0 <= i < |s| && i != at :: m[i] == n[i]
  {
  }

  /** A document whose other digits are all zero has sums of one term. */
  lemma OnlyDigit(s: string, weights: seq<nat>, at: nat, d: char)
    requires AllDigits(s) && at < |weights| < |s| && IsDigit(d) && AllSame(s[at := d]) && s[|s| - 1] == '0'
    ensures Weighted(Numbers(s), weights) == -Change(s, at, d) * weights[at]
  {
    var t := s[at := d];
    assert t[|s| - 1] == '0' && t[|s| - 1] == t[0] && t[at] == t[0];
    forall k | 0 <= k < |s| && k != at ensures Numbers(s)[k] == 0 {
      assert t[k] == s[k] && t[k] == t[0];
    }
    TwoDigits(Numbers(s), weights, at, |s|);
  }

  // ---------------------------------------------------------------- CPF

  predicate CpfChecks(n: seq<nat>)
    requires |n| == 11
  {
    CnpjDigit(Weighted(n, CPF1)) == n[9] && CnpjDigit(Weighted(n, CPF2)) == n[10]
  }

  lemma CpfAccepted(s: string)
    requires AllDigits(s)
    ensures ValidateCpf(s).Success? <==> |s| == 11 && !AllSame(s) && CpfChecks(Numbers(s))
  {
    hide Weighted;
    DigitsOnlyKeepsDigits(s);
    if |s| == 11 {
      CheckDigitsAgree(Weighted(Numbers(s), CPF1));
      CheckDigitsAgree(Weighted(Numbers(s), CPF2));
    }
  }

  /** The changes a CPF does not notice: at the 1st digit by one, at the 6th by two or nine, for these remainders. */
  predicate CpfMisses(at: nat, change: int, sum1: nat, sum2: nat) {
    || (at == 0 && ((sum1 % 11 == 0 && change == -1) || (sum1 % 11 == 1 && change == 1)))
    || (at == 5 && FiveAndSixMiss(change, sum1, sum2))
  }

  lemma CpfShifts(at: nat, change: int, sum1: nat, sum2: nat)
    requires at < 9 && change != 0 && -9 <= change <= 9
    ensures Keeps(sum1, change * CPF1[at]) && Keeps(sum2, change * CPF2[at]) <==> CpfMisses(at, change, sum1, sum2)
  {
    if at > 0 {
      assert CPF2[at] == CPF1[at] + 1;
      NeighbouringWeights(CPF1[at], change, sum1, sum2);
    }
  }

  /** A missed change never leads to one of the refused documents of eleven equal digits. */
  lemma CpfMissesAreNotAllSame(s: string, at: nat, d: char)
    requires AllDigits(s) && |s| == 11 && CpfChecks(Numbers(s)) && at < 9 && IsDigit(d)
    requires CpfMisses(at, Change(s, at, d), Weighted(Numbers(s), CPF1), Weighted(Numbers(s), CPF2))
    ensures !AllSame(s[at := d])
  {
    hide Weighted;
    if AllSame(s[at := d]) {
      var t := s[at := d];
      assert t[9] == s[9] && t[10] == s[10] && t[9] == t[0] && t[10] == t[0];
      assert Numbers(s)[9] == 0 && s[9] == '0';
      OnlyDigit(s, CPF1, at, d);
      OnlyDigit(s, CPF2, at, d);
    }
  }

  /** The same, for a document written as its digits alone. */
  lemma CpfDigitChange(s: string, at: nat, d: char)
    requires AllDigits(s) && |s| == 11 && ValidateCpf(s).Success? && at < |s| && IsDigit(d) && d != s[at]
    ensures ValidateCpf(s[at := d]).Success? <==>
              CpfMisses(at, Change(s, at, d), Weighted(Numbers(s), CPF1), Weighted(Numbers(s), CPF2))
  {
    hide Weighted, ValidateCpf;
    var m, n := Numbers(s), Numbers(s[at := d]);
    CpfAccepted(s);
    CpfAccepted(s[at := d]);
    ChangedNumbers(s, at, d);
    WeightedChange(m, n, CPF1, at);
    WeightedChange(m, n, CPF2, at);
    ShiftedDigit(Weighted(m, CPF1), Weighted(n, CPF1));
    ShiftedDigit(Weighted(m, CPF2), Weighted(n, CPF2));
    if at < 9 {
      CpfShifts(at, Change(s, at, d), Weighted(m, CPF1), Weighted(m, CPF2));
      if CpfMisses(at, Change(s, at, d), Weighted(m, CPF1), Weighted(m, CPF2)) {
        CpfMissesAreNotAllSame(s, at, d);
      }
    }
  }

  /** Exactly which one-digit changes of an accepted CPF are accepted again, however the two are punctuated. */
  lemma CpfOneDigitChange(document: string, changed: string, at: nat, d: char)
    requires ValidateCpf(document).Success? && IsDigit(d)
    requires var s := DigitsOnly(document); at < |s| && d != s[at] && DigitsOnly(changed) == s[at := d]
    ensures var s := DigitsOnly(document);
            ValidateCpf(changed).Success? <==>
              |s| == 11 && CpfMisses(at, Change(s, at, d), Weighted(Numbers(s), CPF1), Weighted(Numbers(s), CPF2))
  {
    hide Weighted;
    DigitsOnlyKeepsDigits(DigitsOnly(document));
    DigitsOnlyKeepsDigits(DigitsOnly(changed));
    CpfDigitChange(DigitsOnly(document), at, d);
  }

  /** Accepted CPFs that differ in one digit differ in the 1st or 6th, by these amounts, with these check digits 0. */
  lemma CpfOneDigitErrors(a: string, b: string, at: nat)
    requires AllDigits(a) && AllDigits(b) && at < |a| == |b| && a[at] != b[at] && b == a[at := b[at]]
    requires ValidateCpf(a).Success? && ValidateCpf(b).Success?
    ensures |a| == 11 && (at == 0 || at == 5) && a[9] == '0' && (at == 5 ==> a[10] == '0')
    ensures var change := Change(a, at, b[at]);
            if at == 0 then change == 1 || change == -1
            else change == 2 || change == -2 || change == 9 || change == -9
  {
    hide Weighted, ValidateCpf;
    CpfAccepted(a);
    CpfDigitChange(a, at, b[at]);
    assert DigitValue(a[9]) == 0 && (at == 5 ==> DigitValue(a[10]) == 0);
  }

  function TextOf(digits: seq<nat>): (s: string)
    requires forall i | 0 <= i < |digits| :: digits[i] < 10
    ensures |s| == |digits| && AllDigits(s) && Numbers(s) == digits
  {
    seq(|digits|, i requires 0 <= i < |digits| => DigitChar(digits[i]))
  }

  /** Such pairs occur. */
  lemma CpfOneDigitErrorOccurs()
    ensures var s := TextOf([0, 0, 0, 0, 0, 3, 0, 0, 9, 0, 0]);
            ValidateCpf(s).Success? && ValidateCpf(s[5 := '1']).Success?
  {
    hide Weighted, ValidateCpf;
    var n := [0, 0, 0, 0, 0, 3, 0, 0, 9, 0, 0];
    var s := TextOf(n);
    TwoDigits(n, CPF1, 5, 8);
    TwoDigits(n, CPF2, 5, 8);
    assert !AllSame(s) by { assert Numbers(s)[5] != Numbers(s)[0]; }
    CpfAccepted(s);
    CpfDigitChange(s, 5, '1');
  }

  // ---------------------------------------------------------------- CNPJ

  predicate CnpjChecks(n: seq<nat>)
    requires |n| == 14
  {
    CnpjDigit(Weighted(n, CNPJ1)) == n[12] && CnpjDigit(Weighted(n, CNPJ2)) == n[13]
  }

  lemma CnpjAccepted(s: string)
    requires AllDigits(s)
    ensures ValidateCnpj(s).Success? <==> |s| == 14 && !AllSame(s) && CnpjChecks(Numbers(s))
  {
    hide Weighted;
    DigitsOnlyKeepsDigits(s);
  }

  /** The changes a CNPJ does not notice: at the 1st, 5th or 9th digit, by these amounts, for these remainders. */
  predicate CnpjMisses(at: nat, change: int, sum1: nat, sum2: nat) {
    || ((at == 0 || at == 8) && FiveAndSixMiss(change, sum1, sum2))
    || (at == 4 && sum1 % 11 == 0 && sum2 % 11 == 1 && (change == 5 || change == -6))
    || (at == 4 && sum1 % 11 == 1 && sum2 % 11 == 0 && (change == 6 || change == -5))
  }

  lemma CnpjShifts(at: nat, change: int, sum1: nat, sum2: nat)
    requires at < 12 && change != 0 && -9 <= change <= 9
    ensures Keeps(sum1, change * CNPJ1[at]) && Keeps(sum2, change * CNPJ2[at]) <==> CnpjMisses(at, change, sum1, sum2)
  {
    if at != 4 {
      assert CNPJ2[at] == CNPJ1[at] + 1;
      NeighbouringWeights(CNPJ1[at], change, sum1, sum2);
    }
  }

  lemma CnpjMissesAreNotAllSame(s: string, at: nat, d: char)
    requires AllDigits(s) && |s| == 14 && CnpjChecks(Numbers(s)) && at < 12 && IsDigit(d)
    requires CnpjMisses(at, Change(s, at, d), Weighted(Numbers(s), CNPJ1), Weighted(Numbers(s), CNPJ2))
    ensures !AllSame(s[at := d])
  {
    hide Weighted;
    if AllSame(s[at := d]) {
      assert Numbers(s)[13] == 0 && s[13] == '0';
      OnlyDigit(s, CNPJ1, at, d);
      OnlyDigit(s, CNPJ2, at, d);
    }
  }

  /** The same, for a document written as its digits alone. */
  lemma CnpjDigitChange(s: string, at: nat, d: char)
    requires AllDigits(s) && |s| == 14 && ValidateCnpj(s).Success? && at < |s| && IsDigit(d) && d != s[at]
    ensures ValidateCnpj(s[at := d]).Success? <==>
              CnpjMisses(at, Change(s, at, d), Weighted(Numbers(s), CNPJ1), Weighted(Numbers(s), CNPJ2))
  {
    hide Weighted, ValidateCnpj;
    var m, n := Numbers(s), Numbers(s[at := d]);
    CnpjAccepted(s);
    CnpjAccepted(s[at := d]);
    ChangedNumbers(s, at, d);
    WeightedChange(m, n, CNPJ1, at);
    WeightedChange(m, n, CNPJ2, at);
    ShiftedDigit(Weighted(m, CNPJ1), Weighted(n, CNPJ1));
    ShiftedDigit(Weighted(m, CNPJ2), Weighted(n, CNPJ2));
    if at < 12 {
      CnpjShifts(at, Change(s, at, d), Weighted(m, CNPJ1), Weighted(m, CNPJ2));
      if CnpjMisses(at, Change(s, at, d), Weighted(m, CNPJ1), Weighted(m, CNPJ2)) {
        CnpjMissesAreNotAllSame(s, at, d);
      }
    }
  }

  /** Exactly which one-digit changes of an accepted CNPJ are accepted again, however the two are punctuated. */
  lemma CnpjOneDigitChange(document: string, changed: string, at: nat, d: char)
    requires ValidateCnpj(document).Success? && IsDigit(d)
    requires var s := DigitsOnly(document); at < |s| && d != s[at] && DigitsOnly(changed) == s[at := d]
    ensures var s := DigitsOnly(document);
            ValidateCnpj(changed).Success? <==>
              |s| == 14 && CnpjMisses(at, Change(s, at, d), Weighted(Numbers(s), CNPJ1), Weighted(Numbers(s), CNPJ2))
  {
    hide Weighted;
    DigitsOnlyKeepsDigits(DigitsOnly(document));
    DigitsOnlyKeepsDigits(DigitsOnly(changed));
    CnpjDigitChange(DigitsOnly(document), at, d);
  }

  /** Accepted CNPJs that differ in one digit differ in the 1st, 5th or 9th, and both check digits are 0. */
  lemma CnpjOneDigitErrors(a: string, b: string, at: nat)
    requires AllDigits(a) && AllDigits(b) && at < |a| == |b| && a[at] != b[at] && b == a[at := b[at]]
    requires ValidateCnpj(a).Success? && ValidateCnpj(b).Success?
    ensures |a| == 14 && (at == 0 || at == 4 || at == 8) && a[12] == '0' && a[13] == '0'
  {
    hide Weighted, ValidateCnpj;
    CnpjAccepted(a);
    CnpjDigitChange(a, at, b[at]);
    assert DigitValue(a[12]) == 0 && DigitValue(a[13]) == 0;
  }

  /** Such pairs occur. */
  lemma CnpjOneDigitErrorOccurs()
    ensures var s := TextOf([3, 0, 0, 0, 0, 0, 0, 0, 0, 0, 0, 9, 0, 0]);
            ValidateCnpj(s).Success? && ValidateCnpj(s[0 := '1']).Success?
  {
    hide Weighted, ValidateCnpj;
    var n := [3, 0, 0, 0, 0, 0, 0, 0, 0, 0, 0, 9, 0, 0];
    var s := TextOf(n);
    TwoDigits(n, CNPJ1, 0, 11);
    TwoDigits(n, CNPJ2, 0, 11);
    assert !AllSame(s) by { assert Numbers(s)[1] != Numbers(s)[0]; }
    CnpjAccepted(s);
    CnpjDigitChange(s, 0, '1');
  }

  // ---------------------------------------------------------------- what is accepted

  /** The first n digits, weighted downward from `top`. */
  function Descending(digits: seq<nat>, n: nat, top: nat): int
    requires n <= |digits|
  {
    if n == 0 then 0 else Descending(digits, n - 1, top) + digits[n - 1] * (top - (n - 1))
  }

  /** The check digit of a weighted sum: its distance to the next multiple of 11, or 0 where that has no digit. */
  predicate Checks(digit: nat, sum: int) {
    digit <= 9 && ((sum + digit) % 11 == 0 || (digit == 0 && sum % 11 == 1))
  }

  lemma ChecksIs(digit: nat, sum: nat)
    requires digit <= 9
    ensures Checks(digit, sum) <==> digit == CnpjDigit(sum)
  {
  }

  lemma WeightedStep(nums: seq<nat>, weights: seq<nat>, k: nat)
    requires k < |weights| <= |nums|
    ensures Weighted(nums, weights[..k + 1]) == Weighted(nums, weights[..k]) + nums[k] * weights[k]
  {
    assert weights[..k + 1][..k] == weights[..k];
  }

  lemma {:induction false} WeightsDescend(nums: seq<nat>, weights: seq<nat>, top: nat, k: nat)
    requires k <= |weights| <= |nums| && forall i | 0 <= i < k :: weights[i] == top - i
    ensures Weighted(nums, weights[..k]) == Descending(nums, k, top)
  {
    if k == 0 {
    } else {
      WeightsDescend(nums, weights, top, k - 1);
      WeightedStep(nums, weights, k - 1);
    }
  }

  /** CNPJ weights descend twice: to 2, and again from 9. */
  lemma {:induction false} WeightsDescendAgain(nums: seq<nat>, weights: seq<nat>, top: nat, m: nat, k: nat)
    requires m <= k <= |weights| <= |nums|
    requires forall i | 0 <= i < m :: weights[i] == top - i
    requires forall i | m <= i < k :: weights[i] == 9 - (i - m)
    ensures Weighted(nums, weights[..k]) == Descending(nums, m, top) + Descending(nums[m..], k - m, 9)
  {
    if k == m {
      WeightsDescend(nums, weights, top, m);
    } else {
      WeightsDescendAgain(nums, weights, top, m, k - 1);
      WeightedStep(nums, weights, k - 1);
      assert nums[m..][k - 1 - m] == nums[k - 1];
    }
  }

  predicate NotAllSame(digits: seq<nat>) {
    exists i :: 0 <= i < |digits| && digits[i] != digits[0]
  }

  lemma SameDigits(s: string)
    requires AllDigits(s) && s != ""
    ensures AllSame(s) <==> !NotAllSame(Numbers(s))
  {
    forall i | 0 <= i < |s| ensures Numbers(s)[i] == Numbers(s)[0] <==> s[i] == s[0] {
    }
  }

  /** A CPF is accepted exactly when it has eleven digits, not all alike, and the last two check the ones before. */
  lemma CpfExactly(text: string)
    ensures var n := Numbers(DigitsOnly(text));
            ValidateCpf(text) == if |n| == 11 && NotAllSame(n) && Checks(n[9], Descending(n, 9, 10))
                                    && Checks(n[10], Descending(n, 10, 11))
                                 then Success(DigitsOnly(text)) else Failure(OnboardingError(InvalidCpf))
  {
    hide Weighted, Descending, DigitsOnly, NotAllSame, Checks, CpfDigit, CnpjDigit, AllSame;
    var n := Numbers(DigitsOnly(text));
    if |n| == 11 {
      SameDigits(DigitsOnly(text));
      WeightsDescend(n, CPF1, 10, 9);
      WeightsDescend(n, CPF2, 11, 10);
      assert CPF1[..9] == CPF1 && CPF2[..10] == CPF2;
      CheckDigitsAgree(Weighted(n, CPF1));
      CheckDigitsAgree(Weighted(n, CPF2));
      ChecksIs(n[9], Weighted(n, CPF1));
      ChecksIs(n[10], Weighted(n, CPF2));
    }
  }

  /** A CNPJ is accepted exactly when it has fourteen digits, not all alike, and the last two check the ones before. */
  lemma CnpjExactly(text: string)
    ensures var n := Numbers(DigitsOnly(text));
            ValidateCnpj(text) == if |n| == 14 && NotAllSame(n)
                                     && Checks(n[12], Descending(n, 4, 5) + Descending(n[4..], 8, 9))
                                     && Checks(n[13], Descending(n, 5, 6) + Descending(n[5..], 8, 9))
                                  then Success(DigitsOnly(text)) else Failure(OnboardingError(InvalidCnpj))
  {
    hide Weighted, Descending, DigitsOnly, NotAllSame, Checks, CnpjDigit, AllSame;
    var n := Numbers(DigitsOnly(text));
    if |n| == 14 {
      SameDigits(DigitsOnly(text));
      WeightsDescendAgain(n, CNPJ1, 5, 4, 12);
      WeightsDescendAgain(n, CNPJ2, 6, 5, 13);
      assert CNPJ1[..12] == CNPJ1 && CNPJ2[..13] == CNPJ2;
      ChecksIs(n[12], Weighted(n, CNPJ1));
      ChecksIs(n[13], Weighted(n, CNPJ2));
    }
  }

  /** A document is accepted exactly as a CPF or as a CNPJ, and stored as its digits. */
  lemma DocumentExactly(text: string)
    ensures ValidateDocument(text).Success? <==> ValidateCpf(text).Success? || ValidateCnpj(text).Success?
    ensures ValidateDocument(text).Success? ==> ValidateDocument(text).value == DigitsOnly(text)
    ensures ValidateDocument(text).Failure? ==>
              ValidateDocument(text).error
              == OnboardingError(if |DigitsOnly(text)| == 11 then InvalidCpf
                                 else if |DigitsOnly(text)| == 14 then InvalidCnpj else UnknownDocumentKind)
  {
    DigitsOnlyKeepsDigits(DigitsOnly(text));
  }

  // ---------------------------------------------------------------- account display

  function LastDash(s: string): (r: Option<nat>)
    ensures r.Some? ==> r.value < |s| && s[r.value] == '-'
  {
    if s == "" then None
    else if s[|s| - 1] == '-' then Some(|s| - 1)
    else LastDash(s[..|s| - 1])
  }

  /** `int(text)` on digits: the empty string is refused. */
  function ParseInt(digits: string): Result<nat, Error>
    requires AllDigits(digits)
  {
    if digits == "" then Failure(ValueError) else Success(ToNat(digits))
  }

  function ParseAccountDisplay(value: string): Result<(nat, nat), Error> {
    var raw := Strip(value);
    match LastDash(raw)
    case Some(dash) =>
      var number :- ParseInt(DigitsOnly(raw[..dash]));
      var digit :- ParseInt(DigitsOnly(raw[dash + 1..]));
      Success((number, digit))
    case None =>
      var digits := DigitsOnly(raw);
      if |digits| < 2 then Failure(OnboardingError(InvalidAccountNumber))
      else Success((ToNat(digits[..|digits| - 1]), DigitValue(digits[|digits| - 1])))
  }

  function FormatAccountDisplay(number: nat, digit: nat): string {
    ToText(number) + "-" + ToText(digit)
  }

  lemma {:induction false} LastDashFound(front: string, back: string)
    requires '-' !in back
    ensures LastDash(front + "-" + back) == Some(|front|)
  {
    var s := front + "-" + back;
    if back != "" {
      LastDashFound(front, back[..|back| - 1]);
      assert s[..|s| - 1] == front + "-" + back[..|back| - 1];
      assert s[|s| - 1] == back[|back| - 1];
    }
  }

  lemma {:induction false} NoDash(s: string)
    requires '-' !in s
    ensures LastDash(s) == None
  {
    if s == "" {
    } else {
      NoDash(s[..|s| - 1]);
    }
  }

  /** A display with a hyphen is read as the digits before the last one and the digits after it. */
  lemma HyphenatedExactly(value: string, left: string, right: string)
    requires Strip(value) == left + "-" + right && '-' !in right
    ensures ParseAccountDisplay(value)
         == if DigitsOnly(left) == "" || DigitsOnly(right) == "" then Failure(ValueError)
            else Success((ToNat(DigitsOnly(left)), ToNat(DigitsOnly(right))))
  {
    hide ToNat, DigitsOnly, LastDash, Strip;
    var raw := left + "-" + right;
    LastDashFound(left, right);
    assert raw[..|left|] == left && raw[|left| + 1..] == right;
  }

  /** Without one, its last digit is the check digit and the digits before it the number. */
  lemma UnhyphenatedExactly(value: string)
    requires '-' !in Strip(value)
    ensures var digits := DigitsOnly(value);
            ParseAccountDisplay(value)
            == if |digits| < 2 then Failure(OnboardingError(InvalidAccountNumber))
               else Success((ToNat(digits[..|digits| - 1]), DigitValue(digits[|digits| - 1])))
  {
    hide ToNat, DigitsOnly, LastDash, Strip;
    NoDash(Strip(value));
    SpacesAreNoDigits(value);
  }

  /** An issued display number is read back as the same number and digit. */
  lemma DisplayRoundTrip(number: nat, digit: nat)
    ensures ParseAccountDisplay(FormatAccountDisplay(number, digit)) == Success((number, digit))
  {
    hide ToText, ToNat, DigitsOnly, LastDash;
    var left, right := ToText(number), ToText(digit);
    var s := FormatAccountDisplay(number, digit);
    assert s == left + "-" + right;
    assert s[0] == left[0] && s[|s| - 1] == right[|right| - 1];
    assert Strip(s) == s;
    assert '-' !in right;
    LastDashFound(left, right);
    assert s[..|left|] == left && s[|left| + 1..] == right;
    DigitsOnlyKeepsDigits(left);
    DigitsOnlyKeepsDigits(right);
    NumeralRoundTrip(number);
    NumeralRoundTrip(digit);
  }

  /** Dropping the hyphen does not change what the display means, because the check digit is one character. */
  lemma DisplayWithoutHyphen(number: nat, digit: nat)
    requires digit < 10
    ensures ParseAccountDisplay(ToText(number) + ToText(digit)) == Success((number, digit))
  {
    var left := ToText(number);
    var s := left + [DigitChar(digit)];
    assert ToText(digit) == [DigitChar(digit)];
    assert s[0] == left[0];
    assert Strip(s) == s;
    assert '-' !in s;
    NoDash(s);
    DigitsOnlyKeepsDigits(s);
    assert s[..|s| - 1] == left;
    NumeralRoundTrip(number);
  }
}
