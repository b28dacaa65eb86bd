/**
 * The decimal text of a Java `long`, as `Long.toString` writes it (and so as
 * a `{}` placeholder of the plain-text writer renders a timestamp), together
 * with the parser that reads it back.
 */
module LongText {
  import opened Options

  /** Java's `long`: a two's-complement 64-bit integer. */
  newtype int64 = x: int | -0x8000_0000_0000_0000 <= x < 0x8000_0000_0000_0000

  predicate IsDigit(c: char) {
    '0' <= c <= '9'
  }

  predicate AllDigits(s: string) {
    forall i :: 0 <= i < |s| ==> IsDigit(s[i])
  }

  function DigitChar(d: nat): (c: char)
    requires d < 10
    ensures IsDigit(c)
  {
    (48 + d) as char
  }

  function DigitValue(c: char): (d: nat)
    requires IsDigit(c)
    ensures d < 10
  {
    (c as int) - 48
  }

  /** The shortest decimal numeral of `n`: digits only, no leading zero. */
  function NatToDigits(n: nat): (s: string)
    ensures |s| >= 1 && AllDigits(s)
    ensures s[0] != '0' || n == 0
    decreases n
  {
    if n < 10 then [DigitChar(n)] else NatToDigits(n / 10) + [DigitChar(n % 10)]
  }

  /** The value of a numeral, most significant digit first. */
  function DigitsToNat(s: string): nat
    requires AllDigits(s)
  {
    if |s| == 0 then 0 else DigitsToNat(s[..|s| - 1]) * 10 + DigitValue(s[|s| - 1])
  }

  /** A numeral without leading zeros ("0" itself aside), after an optional minus sign. */
  predicate CanonicalDigits(s: string) {
    |s| >= 1 && AllDigits(s) && (s[0] != '0' || |s| == 1)
  }

  predicate CanonicalDecimal(s: string) {
    CanonicalDigits(s) || (|s| >= 2 && s[0] == '-' && CanonicalDigits(s[1..]) && s[1] != '0')
  }

  /** `Long.toString`: a minus sign before the magnitude of a negative value. */
  function LongToString(t: int64): (s: string)
    ensures CanonicalDecimal(s)
    ensures t >= 0 ==> CanonicalDigits(s)
    ensures t < 0 ==> s[0] == '-' && CanonicalDigits(s[1..]) && s[1] != '0'
  {
    if t < 0 then "-" + NatToDigits(-(t as int)) else NatToDigits(t as int)
  }

  /** Reads a decimal numeral with an optional leading minus sign. */
  function ParseLong(s: string): Option<int> {
    if |s| >= 2 && s[0] == '-' && AllDigits(s[1..]) then Some(0 - DigitsToNat(s[1..]) as int)
    else if |s| >= 1 && AllDigits(s) then Some(DigitsToNat(s))
    else None
  }

  lemma {:induction false} DigitsRoundTrip(n: nat)
    ensures DigitsToNat(NatToDigits(n)) == n
    decreases n
  {
    var s := NatToDigits(n);
    if n < 10 {
      assert s[..|s| - 1] == [];
    } else {
      DigitsRoundTrip(n / 10);
      assert s[..|s| - 1] == NatToDigits(n / 10);
    }
  }

  /** Reading back the text of a `long` gives that `long`. */
  lemma LongRoundTrip(t: int64)
    ensures ParseLong(LongToString(t)) == Some(t as int)
  {
    var s := LongToString(t);
    if t < 0 {
      assert s[1..] == NatToDigits(-(t as int));
      DigitsRoundTrip(-(t as int));
    } else {
      assert s[0] != '-';
      DigitsRoundTrip(t as int);
    }
  }

  lemma {:induction false} LeadingDigitNonZero(s: string)
    requires CanonicalDigits(s) && s[0] != '0'
    ensures DigitsToNat(s) >= 1
    decreases |s|
  {
    if |s| > 1 {
      var p := s[..|s| - 1];
      assert p[0] == s[0];
      LeadingDigitNonZero(p);
    }
  }

  lemma {:induction false} CanonicalDigitsRoundTrip(s: string)
    requires CanonicalDigits(s)
    ensures NatToDigits(DigitsToNat(s)) == s
    decreases |s|
  {
    var p := s[..|s| - 1];
    if |s| == 1 {
      assert s == [s[0]];
    } else {
      assert p[0] == s[0];
      LeadingDigitNonZero(p);
      CanonicalDigitsRoundTrip(p);
      assert s == p + [s[|s| - 1]];
    }
  }

  /**
   * The text of a `long` is the only canonical numeral of its value: any
   * canonical numeral that reads as `t` is `LongToString(t)`.
   */
  lemma CanonicalTextIsLongToString(s: string, t: int64)
    requires CanonicalDecimal(s) && ParseLong(s) == Some(t as int)
    ensures s == LongToString(t)
  {
    if CanonicalDigits(s) {
      assert s[0] != '-';
      CanonicalDigitsRoundTrip(s);
    } else {
      assert !AllDigits(s) by { assert !IsDigit(s[0]); }
      var m := s[1..];
      CanonicalDigitsRoundTrip(m);
      LeadingDigitNonZero(m);
      assert s == "-" + m;
    }
  }

  /** Distinct values never print the same text. */
  lemma LongToStringInjective(t: int64, u: int64)
    requires LongToString(t) == LongToString(u)
    ensures t == u
  {
    LongRoundTrip(t);
    LongRoundTrip(u);
  }
}
