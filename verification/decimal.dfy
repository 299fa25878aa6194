/**
 Decimal rendering of natural numbers, as produced by a JavaScript template
 literal `${n}` for a non-negative integer `n` below 10^21 (which covers every
 array index; from 10^21 up JavaScript switches to exponent form): the
 shortest string of ASCII digits, with no sign and no leading zero (except
 for `0` itself).

 The parser `DecimalValue` is the inverse of `NatToString`: the two are
 inverse bijections between `nat` and the canonical digit strings, which is
 what makes the rendered node ids unique.
 */
module Decimal {

  /** True iff `c` is one of the ASCII digits '0'..'9'. */
  predicate IsDigit(c: char) {
    '0' <= c <= '9'
  }

  /** True iff every character of `s` is an ASCII digit. */
  predicate AllDigits(s: string) {
    forall k :: 0 <= k < |s| ==> IsDigit(s[k])
  }

  /** A canonical decimal: non-empty, all digits, and no leading zero
      unless the whole string is "0". */
  predicate IsCanonical(s: string) {
    && |s| >= 1
    && AllDigits(s)
    && (s[0] == '0' ==> |s| == 1)
  }

  /** The numeric value of a digit character. */
  function DigitValue(c: char): (d: nat)
    requires IsDigit(c)
    ensures d < 10
  {
    c as int - '0' as int
  }

  /** The digit character for a value below ten. */
  function DigitChar(d: nat): (c: char)
    requires d < 10
    ensures IsDigit(c) && DigitValue(c) == d
  {
    ('0' as int + d) as char
  }

  /** The decimal rendering of `n`. */
  function NatToString(n: nat): (s: string)
    ensures IsCanonical(s)
    ensures s[0] == '0' <==> n == 0
    ensures |s| == 1 <==> n < 10
    decreases n
  {
    if n < 10 then [DigitChar(n)]
    else NatToString(n / 10) + [DigitChar(n % 10)]
  }

  /** The value of a string of digits, most significant digit first; the
      empty string reads as 0. */
  function DecimalValue(s: string): nat
    requires AllDigits(s)
    decreases |s|
  {
    if |s| == 0 then 0
    else DecimalValue(s[..|s| - 1]) * 10 + DigitValue(s[|s| - 1])
  }

  /** Reading back a rendered number gives the number. */
  lemma {:induction false} ValueOfNatToString(n: nat)
    ensures DecimalValue(NatToString(n)) == n
    decreases n
  {
    var s := NatToString(n);
    if n < 10 {
      assert s[..|s| - 1] == [];
    } else {
      ValueOfNatToString(n / 10);
      assert s[..|s| - 1] == NatToString(n / 10);
    }
  }

  /** Distinct numbers render to distinct strings. */
  lemma NatToStringInjective(m: nat, n: nat)
    ensures NatToString(m) == NatToString(n) <==> m == n
  {
    if NatToString(m) == NatToString(n) {
      ValueOfNatToString(m);
      ValueOfNatToString(n);
    }
  }

  /** A canonical string of two or more digits starts with a non-zero digit,
      so its value is at least one (and, shifted by a digit, at least ten). */
  lemma {:induction false} CanonicalPrefixPositive(s: string)
    requires |s| >= 1 && AllDigits(s) && s[0] != '0'
    ensures DecimalValue(s) >= 1
    decreases |s|
  {
    if |s| > 1 {
      var p := s[..|s| - 1];
      assert p[0] == s[0];
      CanonicalPrefixPositive(p);
    }
  }

  /** Rendering the value of a canonical string gives the string back, so
      every canonical decimal is the rendering of exactly one number. */
  lemma {:induction false} NatToStringOfValue(s: string)
    requires IsCanonical(s)
    ensures NatToString(DecimalValue(s)) == s
    decreases |s|
  {
    var v := DecimalValue(s);
    if |s| == 1 {
      assert s[..0] == [];
      assert DecimalValue(s[..0]) == 0;
      assert v == DigitValue(s[0]);
      assert NatToString(v) == [DigitChar(v)];
    } else {
      var p := s[..|s| - 1];
      var d := DigitValue(s[|s| - 1]);
      assert p[0] == s[0];
      CanonicalPrefixPositive(p);
      NatToStringOfValue(p);
      assert v == DecimalValue(p) * 10 + d;
      assert v / 10 == DecimalValue(p) && v % 10 == d;
      assert NatToString(v) == NatToString(DecimalValue(p)) + [DigitChar(d)];
      assert DigitChar(d) == s[|s| - 1];
      assert s == p + [s[|s| - 1]];
    }
  }
}
