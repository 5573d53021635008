/**
 * Decimal text of integers, as Python produces and reads it:
 * `str(n)` for an int, the format spec `:02` (zero-pad to width two, sign
 * first), and `int(s)` on a string of decimal digits. The EPSG code and the
 * band file names of src/utils.py are all built from these.
 */
module Decimal {

  predicate IsDigit(c: char) {
    '0' <= c <= '9'
  }

  predicate AllDigits(s: string) {
    forall i :: 0 <= i < |s| ==> IsDigit(s[i])
  }

  function DigitChar(d: nat): (c: char)
    requires d < 10
    ensures IsDigit(c)
  {
    "0123456789"[d]
  }

  function DigitValue(c: char): (d: nat)
    requires IsDigit(c)
    ensures d < 10
  {
    (c as int) - ('0' as int)
  }

  /** `str(n)` for a non-negative int: decimal digits, no leading zero. */
  function NatToString(n: nat): (s: string)
    ensures AllDigits(s) && 1 <= |s|
    ensures n < 10 <==> |s| == 1
    ensures s[0] == '0' ==> n == 0
    decreases n
  {
    if n < 10 then [DigitChar(n)] else NatToString(n / 10) + [DigitChar(n % 10)]
  }

  /** `str(n)` for any int. */
  function IntToString(n: int): (s: string)
    ensures 1 <= |s|
    ensures n >= 0 ==> AllDigits(s) && Value(s) == n
    ensures n < 0 <==> s[0] == '-'
    ensures n < 0 ==> AllDigits(s[1..]) && Value(s[1..]) == -n
  {
    if n < 0 then
      NatToStringRoundTrip(-n);
      assert ("-" + NatToString(-n))[1..] == NatToString(-n);
      "-" + NatToString(-n)
    else
      NatToStringRoundTrip(n);
      NatToString(n)
  }

  /** `f"{n:02}"`: zero-padded to width two; the sign, if any, counts towards the width. */
  function Pad2(n: int): (s: string)
    ensures n < 0 ==> s == IntToString(n)
    ensures 0 <= n < 10 ==> s == "0" + IntToString(n)
    ensures n >= 10 ==> s == IntToString(n)
    ensures 0 <= n < 100 ==> |s| == 2 && AllDigits(s)
  {
    if 0 <= n < 10 then "0" + NatToString(n) else IntToString(n)
  }

  /** `int(s)` for a string of decimal digits. */
  function Value(s: string): (v: nat)
    requires AllDigits(s)
    ensures v < Pow10(|s|)
  {
    if s == [] then 0 else Value(s[..|s| - 1]) * 10 + DigitValue(s[|s| - 1])
  }

  function Pow10(k: nat): (p: nat)
    ensures p >= 1
  {
    if k == 0 then 1 else 10 * Pow10(k - 1)
  }

  lemma {:induction false} DigitRoundTrip(d: nat)
    requires d < 10
    ensures DigitValue(DigitChar(d)) == d
  {
    var digits := "0123456789";
    assert digits[d] as int - '0' as int == d by {
      if d == 0 {} else if d == 1 {} else if d == 2 {} else if d == 3 {} else if d == 4 {}
      else if d == 5 {} else if d == 6 {} else if d == 7 {} else if d == 8 {} else {}
    }
  }

  /** Reading back the decimal text of n gives n: `int(str(n)) == n`. */
  lemma {:induction false} NatToStringRoundTrip(n: nat)
    ensures Value(NatToString(n)) == n
    decreases n
  {
    var s := NatToString(n);
    if n < 10 {
      DigitRoundTrip(n);
      assert s[..0] == [];
    } else {
      NatToStringRoundTrip(n / 10);
      DigitRoundTrip(n % 10);
      assert s[..|s| - 1] == NatToString(n / 10);
    }
  }

  /** The value of a concatenation: `int(s + t) == int(s) * 10^len(t) + int(t)`. */
  lemma {:induction false} ValueConcat(s: string, t: string)
    requires AllDigits(s) && AllDigits(t)
    ensures AllDigits(s + t)
    ensures Value(s + t) == Value(s) * Pow10(|t|) + Value(t)
    decreases |t|
  {
    var u := s + t;
    if t == [] {
      assert u == s;
    } else {
      var t' := t[..|t| - 1];
      var d := DigitValue(t[|t| - 1]);
      assert u[..|u| - 1] == s + t';
      assert Value(u) == Value(s + t') * 10 + d;
      assert Value(t) == Value(t') * 10 + d;
      assert Pow10(|t|) == Pow10(|t'|) * 10;
      ValueConcat(s, t');
      ShiftDigit(Value(s), Pow10(|t'|), Value(t'), d);
    }
  }

  lemma ShiftDigit(a: int, p: int, b: int, d: int)
    ensures (a * p + b) * 10 + d == a * (p * 10) + (b * 10 + d)
  {
  }

  /** Two-digit padding of 0..99 reads back as the number itself. */
  lemma Pad2RoundTrip(n: int)
    requires 0 <= n < 100
    ensures Value(Pad2(n)) == n
  {
    NatToStringRoundTrip(n);
    if n < 10 {
      ValueConcat("0", NatToString(n));
      assert Value("0") == 0 by { assert "0"[..0] == []; DigitRoundTrip(0); }
    }
  }
}
