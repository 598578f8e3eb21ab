/**
 * Fixed-point rendering of a number, as JavaScript's Number.prototype.toFixed
 * produces it (section 21.1.3.3 of ECMA-262), taken over exact reals: the
 * magnitude is scaled by 10^f, rounded to the nearest integer with ties going
 * up, written in decimal, zero padded and split by a point f digits from the
 * right; a negative number gets a leading "-".
 *
 * ReadFixed reads such a string back, so that what toFixed shows can be
 * stated as a number.
 */
module Decimal {
  import opened Wrappers

  function Pow10(f: nat): (p: nat)
    ensures p >= 1
  {
    if f == 0 then 1 else 10 * Pow10(f - 1)
  }

  function Abs(x: real): (a: real)
    ensures a >= 0.0 && (a == x || a == -x)
  {
    if x < 0.0 then -x else x
  }

  predicate IsDigit(c: char) {
    '0' <= c <= '9'
  }

  predicate AllDigits(s: string) {
    forall i :: 0 <= i < |s| ==> IsDigit(s[i])
  }

  function DigitChar(k: nat): (c: char)
    requires k < 10
    ensures IsDigit(c)
  {
    ('0' as int + k) as char
  }

  function DigitValue(c: char): (k: nat)
    requires IsDigit(c)
    ensures k < 10 && DigitChar(k) == c
  {
    c as int - '0' as int
  }

  /** The decimal digits of n, most significant first, without leading zeros ("0" for 0). */
  function DigitsOf(n: nat): (s: string)
    ensures |s| >= 1
    ensures n >= 10 ==> s[0] != '0'
    decreases n
  {
    if n < 10 then [DigitChar(n)] else DigitsOf(n / 10) + [DigitChar(n % 10)]
  }

  /** The number a string of decimal digits denotes. */
  function ValueOf(s: string): nat
    requires AllDigits(s)
  {
    if s == [] then 0 else 10 * ValueOf(s[..|s| - 1]) + DigitValue(s[|s| - 1])
  }

  function Zeros(k: nat): (s: string)
    ensures |s| == k
  {
    if k == 0 then [] else Zeros(k - 1) + ['0']
  }

  /** Rounds to the nearest integer; of two equally near integers, the larger. */
  function RoundHalfUp(x: real): (n: int)
    ensures -0.5 < n as real - x <= 0.5
  {
    (x + 0.5).Floor
  }

  /** |x| * 10^f rounded half up: the whole number of units of 10^-f that toFixed writes. */
  function Magnitude(x: real, f: nat): (n: nat)
    ensures -0.5 < n as real - Abs(x) * Pow10(f) as real <= 0.5
  {
    var r := RoundHalfUp(Abs(x) * Pow10(f) as real);
    if r < 0 then 0 else r
  }

  /** The digits of n, zero padded on the left to at least w digits. */
  function Padded(n: nat, w: nat): (z: string)
    ensures |z| >= w
  {
    var m := DigitsOf(n);
    if |m| < w then Zeros(w - |m|) + m else m
  }

  /** The digits of n, at least f + 1 of them, with a point before the last f when f > 0. */
  function UnsignedFixed(n: nat, f: nat): string
  {
    if f == 0 then DigitsOf(n)
    else
      var z := Padded(n, f + 1);
      z[..|z| - f] + "." + z[|z| - f..]
  }

  /** Number.prototype.toFixed(f), over exact reals. */
  function ToFixed(x: real, f: nat): string
  {
    (if x < 0.0 then "-" else "") + UnsignedFixed(Magnitude(x, f), f)
  }

  /** Reads "<digits>" (f = 0) or "<digits>.<f digits>" back as a count of units of 10^-f. */
  function ReadUnsignedUnits(s: string, f: nat): Option<nat>
  {
    if f == 0 then
      if |s| > 0 && AllDigits(s) then Some(ValueOf(s)) else None
    else if |s| >= f + 2 && s[|s| - f - 1] == '.' && AllDigits(s[..|s| - f - 1] + s[|s| - f..]) then
      Some(ValueOf(s[..|s| - f - 1] + s[|s| - f..]))
    else None
  }

  /** Reads an optionally "-"-signed fixed-point string as a signed count of units of 10^-f. */
  function ReadUnits(s: string, f: nat): Option<int>
  {
    if |s| > 0 && s[0] == '-' then
      match ReadUnsignedUnits(s[1..], f)
      case Some(k) => Some(-(k as int))
      case None => None
    else
      match ReadUnsignedUnits(s, f)
      case Some(k) => Some(k)
      case None => None
  }

  /** Reads an optionally "-"-signed fixed-point string with f fraction digits as a number. */
  function ReadFixed(s: string, f: nat): Option<real>
  {
    match ReadUnits(s, f)
    case Some(k) => Some(k as real / Pow10(f) as real)
    case None => None
  }

  /** The signed count of units of 10^-f that toFixed shows for x. */
  function Units(x: real, f: nat): int
  {
    var n: int := Magnitude(x, f);
    if x < 0.0 then -n else n
  }

  lemma {:induction false} DigitsOfAllDigits(n: nat)
    ensures AllDigits(DigitsOf(n))
    decreases n
  {
    if n >= 10 {
      DigitsOfAllDigits(n / 10);
      AllDigitsAppend(DigitsOf(n / 10), [DigitChar(n % 10)]);
    }
  }

  lemma {:induction false} ZerosAllDigits(k: nat)
    ensures AllDigits(Zeros(k))
  {
    if k > 0 {
      ZerosAllDigits(k - 1);
      AllDigitsAppend(Zeros(k - 1), ['0']);
    }
  }

  lemma PaddedAllDigits(n: nat, w: nat)
    ensures AllDigits(Padded(n, w))
  {
    DigitsOfAllDigits(n);
    var m := DigitsOf(n);
    if |m| < w {
      ZerosAllDigits(w - |m|);
      AllDigitsAppend(Zeros(w - |m|), m);
    }
  }

  lemma {:induction false} ValueOfDigitsOf(n: nat)
    ensures AllDigits(DigitsOf(n))
    ensures ValueOf(DigitsOf(n)) == n
    decreases n
  {
    DigitsOfAllDigits(n);
    if n >= 10 {
      var s := DigitsOf(n);
      assert s[..|s| - 1] == DigitsOf(n / 10);
      ValueOfDigitsOf(n / 10);
    }
  }

  /** Two strings of digits concatenate to a string of digits. */
  lemma AllDigitsAppend(a: string, b: string)
    requires AllDigits(a) && AllDigits(b)
    ensures AllDigits(a + b)
  {
    forall i | 0 <= i < |a + b| ensures IsDigit((a + b)[i]) {
      if i < |a| { assert (a + b)[i] == a[i]; } else { assert (a + b)[i] == b[i - |a|]; }
    }
  }

  lemma ValueOfSnoc(s: string, c: char)
    requires AllDigits(s) && IsDigit(c)
    ensures AllDigits(s + [c])
    ensures ValueOf(s + [c]) == 10 * ValueOf(s) + DigitValue(c)
  {
    AllDigitsAppend(s, [c]);
    assert (s + [c])[..|s|] == s;
  }

  lemma Shift(va: nat, p: nat, vb: nat, d: nat)
    ensures 10 * (va * p + vb) + d == va * (10 * p) + (10 * vb + d)
  {
  }

  /** Appending digits shifts the value of the prefix left by their count. */
  lemma {:induction false} ValueOfAppend(a: string, b: string)
    requires AllDigits(a) && AllDigits(b)
    ensures AllDigits(a + b)
    ensures ValueOf(a + b) == ValueOf(a) * Pow10(|b|) + ValueOf(b)
    decreases |b|
  {
    AllDigitsAppend(a, b);
    if b == [] {
      assert a + b == a;
    } else {
      var b', c := b[..|b| - 1], b[|b| - 1];
      assert b == b' + [c];
      assert a + b == (a + b') + [c];
      ValueOfAppend(a, b');
      ValueOfSnoc(a + b', c);
      ValueOfSnoc(b', c);
      Shift(ValueOf(a), Pow10(|b'|), ValueOf(b'), DigitValue(c));
    }
  }

  lemma {:induction false} ValueOfZeros(k: nat)
    ensures AllDigits(Zeros(k))
    ensures ValueOf(Zeros(k)) == 0
  {
    ZerosAllDigits(k);
    if k > 0 {
      assert Zeros(k)[..k - 1] == Zeros(k - 1);
      ValueOfZeros(k - 1);
    }
  }

  /** Leading zeros do not change the value of a string of digits. */
  lemma ValueOfZerosThen(k: nat, m: string)
    requires AllDigits(m)
    ensures AllDigits(Zeros(k) + m)
    ensures ValueOf(Zeros(k) + m) == ValueOf(m)
  {
    var z := Zeros(k);
    ValueOfZeros(k);
    ValueOfAppend(z, m);
    assert ValueOf(z) * Pow10(|m|) == 0;
  }

  lemma ValueOfPadded(n: nat, w: nat)
    ensures AllDigits(Padded(n, w))
    ensures ValueOf(Padded(n, w)) == n
  {
    var m := DigitsOf(n);
    ValueOfDigitsOf(n);
    if |m| < w {
      ValueOfZerosThen(w - |m|, m);
    }
  }

  lemma AllDigitsSlice(z: string, i: nat, j: nat)
    requires AllDigits(z) && i <= j <= |z|
    ensures AllDigits(z[i..j])
  {
    forall k | 0 <= k < j - i ensures IsDigit(z[i..j][k]) {
      assert z[i..j][k] == z[i + k];
    }
  }

  /** Digits, a point and f more digits read back as the value of all the digits, in units of 10^-f. */
  lemma ReadPointed(a: string, b: string, f: nat)
    requires AllDigits(a) && AllDigits(b) && |a| > 0 && |b| == f > 0
    ensures AllDigits(a + b)
    ensures ReadUnsignedUnits(a + "." + b, f) == Some(ValueOf(a + b))
  {
    AllDigitsAppend(a, b);
    var u := a + "." + b;
    assert |u| >= f + 2 && u[|u| - f - 1] == '.';
    assert u[..|u| - f - 1] == a;
    assert u[|u| - f..] == b;
  }

  /** Digits with a point put before the last f of them read back as the value of the digits. */
  lemma ReadSplitDigits(z: string, f: nat, v: nat, u: string)
    requires AllDigits(z) && 0 < f < |z| && ValueOf(z) == v
    requires u == z[..|z| - f] + "." + z[|z| - f..]
    ensures ReadUnsignedUnits(u, f) == Some(v)
  {
    var a, b := z[..|z| - f], z[|z| - f..];
    AllDigitsSlice(z, 0, |z| - f);
    AllDigitsSlice(z, |z| - f, |z|);
    assert a + b == z;
    ReadPointed(a, b, f);
  }

  /** The unsigned part reads back as n. */
  lemma ReadUnsignedFixedOf(n: nat, f: nat)
    ensures ReadUnsignedUnits(UnsignedFixed(n, f), f) == Some(n)
  {
    if f > 0 {
      ReadPaddedPointed(n, f);
    } else {
      ValueOfDigitsOf(n);
    }
  }

  lemma ReadPaddedPointed(n: nat, f: nat)
    requires f > 0
    ensures ReadUnsignedUnits(UnsignedFixed(n, f), f) == Some(n)
  {
    var z := Padded(n, f + 1);
    var u := UnsignedFixed(n, f);
    assert u == z[..|z| - f] + "." + z[|z| - f..];
    ValueOfPadded(n, f + 1);
    ReadSplitDigits(z, f, n, u);
  }

  /** The unsigned part starts with a digit and holds only digits and a point. */
  lemma UnsignedFixedCharacters(n: nat, f: nat)
    ensures |UnsignedFixed(n, f)| > 0 && IsDigit(UnsignedFixed(n, f)[0])
    ensures forall i :: 0 <= i < |UnsignedFixed(n, f)| ==>
              IsDigit(UnsignedFixed(n, f)[i]) || UnsignedFixed(n, f)[i] == '.'
  {
    if f > 0 {
      var z := Padded(n, f + 1);
      PaddedAllDigits(n, f + 1);
      var a, b := z[..|z| - f], z[|z| - f..];
      var u := a + "." + b;
      forall i | 0 <= i < |u| ensures IsDigit(u[i]) || u[i] == '.' {
        if i < |a| { assert u[i] == z[i]; }
        else if i > |a| { assert u[i] == b[i - |a| - 1] == z[i - 1]; }
      }
    } else {
      DigitsOfAllDigits(n);
    }
  }

  /** A sign in front of an unsigned part that reads back as n reads back as the signed n. */
  lemma ReadSignedUnits(negative: bool, u: string, n: nat, f: nat)
    requires ReadUnsignedUnits(u, f) == Some(n)
    requires |u| > 0 && IsDigit(u[0])
    ensures ReadUnits((if negative then "-" else "") + u, f) == Some(if negative then -(n as int) else n)
  {
    var s := (if negative then "-" else "") + u;
    if negative {
      assert s[0] == '-' && s[1..] == u;
    } else {
      assert s == u;
    }
  }

  /** toFixed's output reads back as Units(x, f). */
  lemma ReadUnitsOfToFixed(x: real, f: nat)
    ensures ReadUnits(ToFixed(x, f), f) == Some(Units(x, f))
  {
    var n := Magnitude(x, f);
    ReadUnsignedFixedOf(n, f);
    UnsignedFixedCharacters(n, f);
    var u := UnsignedFixed(n, f);
    ReadSignedUnits(x < 0.0, u, n, f);
    assert ToFixed(x, f) == (if x < 0.0 then "-" else "") + u;
    assert Units(x, f) == if x < 0.0 then -(n as int) else n;
  }

  /** Units(x, f) is x * 10^f rounded to a whole number: within half a unit of it. */
  lemma UnitsNearest(x: real, f: nat)
    ensures -0.5 <= Units(x, f) as real - x * Pow10(f) as real <= 0.5
  {
    var p := Pow10(f) as real;
    var n := Magnitude(x, f);
    ScaleAbs(x, p);
    if x < 0.0 {
      assert Abs(x) * p == -(x * p);
      assert Units(x, f) == -(n as int);
    } else {
      assert Abs(x) * p == x * p;
      assert Units(x, f) == n;
    }
  }

  lemma ScaleAbs(x: real, p: real)
    ensures Abs(x) * p == if x < 0.0 then -(x * p) else x * p
  {
    if x < 0.0 {
      assert Abs(x) == -x;
    }
  }

  /**
   * What toFixed shows reads back as x rounded to f decimal places: a whole
   * number k of units of 10^-f, within half a unit of x.
   */
  lemma ReadToFixed(x: real, f: nat)
    ensures var k := Units(x, f);
            ReadFixed(ToFixed(x, f), f) == Some(k as real / Pow10(f) as real) &&
            -0.5 <= k as real - x * Pow10(f) as real <= 0.5
  {
    ReadUnitsOfToFixed(x, f);
    UnitsNearest(x, f);
  }

  /** A number that is a whole number k of units of 10^-f is shown exactly. */
  lemma ToFixedExact(x: real, f: nat, k: int)
    requires x * Pow10(f) as real == k as real
    ensures ReadUnits(ToFixed(x, f), f) == Some(k)
  {
    ReadUnitsOfToFixed(x, f);
    UnitsNearest(x, f);
    CloseIntegersEqual(Units(x, f), k);
  }

  /** Two whole numbers within half of each other are equal. */
  lemma CloseIntegersEqual(a: int, b: int)
    requires -0.5 <= a as real - b as real <= 0.5
    ensures a == b
  {
  }

  /** toFixed of a non-negative whole number n of units of 10^-f scales to exactly n. */
  lemma MagnitudeOfWhole(x: real, f: nat, n: nat)
    requires x >= 0.0 && x * Pow10(f) as real == n as real
    ensures Magnitude(x, f) == n
  {
    MagnitudeNear(x, f, n);
    CloseIntegersEqual(Magnitude(x, f), n);
  }

  lemma MagnitudeNear(x: real, f: nat, n: nat)
    requires x >= 0.0 && x * Pow10(f) as real == n as real
    ensures -0.5 < Magnitude(x, f) as real - n as real <= 0.5
  {
    assert Abs(x) == x;
  }

  /** toFixed writes only digits, a point and a leading "-", and starts with a digit when x >= 0. */
  lemma ToFixedCharacters(x: real, f: nat)
    ensures |ToFixed(x, f)| > 0
    ensures x >= 0.0 ==> IsDigit(ToFixed(x, f)[0])
    ensures forall i :: 0 <= i < |ToFixed(x, f)| ==>
              IsDigit(ToFixed(x, f)[i]) || ToFixed(x, f)[i] in ".-"
  {
    var u := UnsignedFixed(Magnitude(x, f), f);
    UnsignedFixedCharacters(Magnitude(x, f), f);
    var s := ToFixed(x, f);
    if x < 0.0 {
      forall i | 0 <= i < |s| ensures IsDigit(s[i]) || s[i] in ".-" {
        if i > 0 { assert s[i] == u[i - 1]; }
      }
    } else {
      assert s == u;
    }
  }
}
