/** ASCII decimal strings: what Python's `int(s)` computes for a string of
    the digits '0'..'9', and how `f"{n:d}"` prints a natural number. */
module Decimal {

  predicate IsDigit(c: char) {
    '0' <= c <= '9'
  }

  predicate AllDigits(s: string) {
    forall i :: 0 <= i < |s| ==> IsDigit(s[i])
  }

  function DigitValue(c: char): (d: nat)
    requires IsDigit(c)
    ensures d < 10
  {
    (c as int) - ('0' as int)
  }

  function DigitChar(d: nat): (c: char)
    requires d < 10
    ensures IsDigit(c) && DigitValue(c) == d
  {
    (('0' as int) + d) as char
  }

  /** Ten to the power `k`. */
  function Pow10(k: nat): (p: nat)
    ensures p >= 1
  {
    if k == 0 then 1 else 10 * Pow10(k - 1)
  }

  /** The value of a digit string, read left to right; "" reads as 0. A
      string of `k` digits is below ten to the `k`. */
  function Value(s: string): (v: nat)
    requires AllDigits(s)
    ensures v < Pow10(|s|)
  {
    if s == [] then 0 else Value(s[..|s| - 1]) * 10 + DigitValue(s[|s| - 1])
  }

  /** The canonical decimal form of `n`: no leading zero, "0" for zero. */
  function Digits(n: nat): (s: string)
    ensures AllDigits(s) && |s| >= 1
    ensures Value(s) == n
    ensures s[0] == '0' ==> n == 0
    ensures |s| == 1 <==> n < 10
    ensures 10 <= n < 100 ==> |s| == 2
  {
    if n < 10 then
      [DigitChar(n)]
    else
      var s := Digits(n / 10) + [DigitChar(n % 10)];
      assert s[..|s| - 1] == Digits(n / 10);
      s
  }

  /** `k` copies of '0'. */
  function Zeros(k: nat): (s: string)
    ensures |s| == k && AllDigits(s)
  {
    if k == 0 then [] else Zeros(k - 1) + ['0']
  }

  /** Leading zeros do not change the value of a digit string. */
  lemma {:induction false} ValueIgnoresLeadingZeros(k: nat, s: string)
    requires AllDigits(s)
    ensures AllDigits(Zeros(k) + s) && Value(Zeros(k) + s) == Value(s)
  {
    if s == [] {
      assert Zeros(k) + s == Zeros(k);
      ZerosValue(k);
    } else {
      var t := Zeros(k) + s;
      assert t[..|t| - 1] == Zeros(k) + s[..|s| - 1];
      ValueIgnoresLeadingZeros(k, s[..|s| - 1]);
    }
  }

  lemma {:induction false} ZerosValue(k: nat)
    ensures Value(Zeros(k)) == 0
  {
    if k > 0 {
      assert Zeros(k)[..k - 1] == Zeros(k - 1);
      ZerosValue(k - 1);
    }
  }

  /** Appending a digit to the canonical form of a positive number gives
      the canonical form of ten times it plus that digit. */
  lemma DigitsAppend(m: nat, d: nat)
    requires m > 0 && d < 10
    ensures Digits(m * 10 + d) == Digits(m) + [DigitChar(d)]
  {
    var n := m * 10 + d;
    assert n / 10 == m && n % 10 == d;
  }

  /** Every digit string is some zeros followed by the canonical form of its
      value (nothing at all after the zeros when the value is 0). */
  lemma {:induction false} CanonicalForm(s: string)
    requires AllDigits(s)
    ensures Value(s) == 0 ==> s == Zeros(|s|)
    ensures Value(s) > 0 ==>
      |Digits(Value(s))| <= |s| && s == Zeros(|s| - |Digits(Value(s))|) + Digits(Value(s))
  {
    if s != [] {
      var t, c := s[..|s| - 1], s[|s| - 1];
      assert s == t + [c];
      CanonicalForm(t);
      if Value(t) == 0 {
        CanonicalAfterZeros(t, c);
      } else {
        CanonicalAfterPositive(t, c);
      }
    }
  }

  /** Appending a digit multiplies the value by ten and adds the digit. */
  lemma ValueSnoc(t: string, c: char)
    requires AllDigits(t) && IsDigit(c)
    ensures AllDigits(t + [c]) && Value(t + [c]) == Value(t) * 10 + DigitValue(c)
  {
    var s := t + [c];
    assert s[..|s| - 1] == t;
  }

  /** The step of `CanonicalForm` when the digits before the last are all
      zeros. */
  lemma CanonicalAfterZeros(t: string, c: char)
    requires t == Zeros(|t|) && IsDigit(c)
    ensures AllDigits(t + [c])
    ensures Value(t + [c]) == 0 ==> t + [c] == Zeros(|t| + 1)
    ensures Value(t + [c]) > 0 ==> Digits(Value(t + [c])) == [c]
  {
    ValueSnoc(t, c);
    ZerosValue(|t|);
    assert DigitChar(DigitValue(c)) == c;
  }

  /** The step of `CanonicalForm` when the digits before the last have a
      positive value. */
  lemma CanonicalAfterPositive(t: string, c: char)
    requires AllDigits(t) && IsDigit(c) && Value(t) > 0
    ensures AllDigits(t + [c]) && Value(t + [c]) > 0
    ensures Digits(Value(t + [c])) == Digits(Value(t)) + [c]
  {
    ValueSnoc(t, c);
    assert DigitChar(DigitValue(c)) == c;
    DigitsAppend(Value(t), DigitValue(c));
  }
}
