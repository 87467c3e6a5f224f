/**
 * Decimal text as the C library writes and reads it: printf's "%d" and
 * "%05d", and the well-formed integer fields that strtol accepts in the
 * capture option string.
 */
module Decimal {

  predicate IsDigit(c: char) {
    '0' <= c <= '9'
  }

  predicate AllDigits(s: string) {
    forall i :: 0 <= i < |s| ==> IsDigit(s[i])
  }

  function DigitValue(c: char): (d: nat)
    requires IsDigit(c)
    ensures d < 10
  {
    c as int - '0' as int
  }

  function DigitChar(d: nat): (c: char)
    requires d < 10
    ensures IsDigit(c) && DigitValue(c) == d
  {
    ('0' as int + d) as char
  }

  /** The digits "%d" prints for a non-negative value: no leading zero except in "0" itself. */
  function NatDigits(n: nat): (s: string)
    ensures |s| >= 1 && AllDigits(s)
    ensures s[0] == '0' <==> n == 0
    decreases n
  {
    if n < 10 then [DigitChar(n)] else NatDigits(n / 10) + [DigitChar(n % 10)]
  }

  /** The value of a string of digits, leading zeros allowed. */
  function DigitsValue(s: string): nat
    requires AllDigits(s)
  {
    if s == [] then 0 else DigitsValue(s[..|s| - 1]) * 10 + DigitValue(s[|s| - 1])
  }

  /** A digit string without superfluous leading zeros. */
  predicate IsCanonicalNat(s: string) {
    |s| >= 1 && AllDigits(s) && (s[0] == '0' ==> |s| == 1)
  }

  /** "%d": the decimal text of an int, with a leading '-' for negative values. */
  function IntToDecimal(n: int): (s: string)
    ensures |s| >= 1
    ensures forall i :: 0 <= i < |s| ==> IsDigit(s[i]) || s[i] == '-'
  {
    if n < 0 then "-" + NatDigits(-n) else NatDigits(n)
  }

  /**
   * A well-formed integer field: an optional '-' followed by canonical digits
   * ("-0" and leading zeros are excluded, so strtol's base detection reads
   * every such field as decimal).
   */
  predicate IsDecimal(s: string) {
    if |s| >= 1 && s[0] == '-' then IsCanonicalNat(s[1..]) && s[1..] != "0"
    else IsCanonicalNat(s)
  }

  /** strtol(s, NULL, 0) on a well-formed field. */
  function ParseDecimal(s: string): int
    requires IsDecimal(s)
  {
    if s[0] == '-' then -(DigitsValue(s[1..]) as int) else DigitsValue(s)
  }

  /** "%d" reads back as the value it prints. */
  lemma {:induction false} NatDigitsValue(n: nat)
    ensures DigitsValue(NatDigits(n)) == n
    decreases n
  {
    if n >= 10 {
      var s := NatDigits(n);
      assert s[..|s| - 1] == NatDigits(n / 10);
      NatDigitsValue(n / 10);
    }
  }

  lemma DigitCharOfValue(c: char)
    requires IsDigit(c)
    ensures DigitChar(DigitValue(c)) == c
  {
  }

  /** A digit string that does not start with '0' has a positive value. */
  lemma {:induction false} LeadingNonZeroPositive(s: string)
    requires AllDigits(s) && |s| >= 1 && s[0] != '0'
    ensures DigitsValue(s) >= 1
    decreases |s|
  {
    if |s| > 1 {
      LeadingNonZeroPositive(s[..|s| - 1]);
    }
  }

  /** Canonical digit strings are exactly what "%d" prints for their value. */
  lemma {:induction false} CanonicalDigits(s: string)
    requires IsCanonicalNat(s)
    ensures NatDigits(DigitsValue(s)) == s
    decreases |s|
  {
    var last := s[|s| - 1];
    DigitCharOfValue(last);
    if |s| > 1 {
      var init := s[..|s| - 1];
      LeadingNonZeroPositive(init);
      CanonicalDigits(init);
      assert s == init + [last];
    }
  }

  /** Every value prints as a well-formed field that strtol reads back as that value. */
  lemma DecimalRoundTrip(n: int)
    ensures IsDecimal(IntToDecimal(n)) && ParseDecimal(IntToDecimal(n)) == n
  {
    var s := IntToDecimal(n);
    if n < 0 {
      assert s[1..] == NatDigits(-n);
      NatDigitsValue(-n);
    } else {
      NatDigitsValue(n);
    }
  }

  /** Every well-formed field is exactly the "%d" text of the value strtol reads from it. */
  lemma ParseDecimalRoundTrip(s: string)
    requires IsDecimal(s)
    ensures IntToDecimal(ParseDecimal(s)) == s
  {
    if s[0] == '-' {
      CanonicalDigits(s[1..]);
      LeadingNonZeroPositive(s[1..]);
      assert s == "-" + s[1..];
    } else {
      CanonicalDigits(s);
    }
  }

  function Zeros(k: nat): (z: string)
    ensures |z| == k && AllDigits(z)
    ensures forall i :: 0 <= i < k ==> z[i] == '0'
  {
    seq(k, _ => '0')
  }

  /** "%0<width>d" for a non-negative value: its digits, zero-padded on the left to at least width characters. */
  function ZeroPadded(n: nat, width: nat): string {
    var digits := NatDigits(n);
    (if |digits| < width then Zeros(width - |digits|) else []) + digits
  }

  lemma {:induction false} ZerosValue(k: nat)
    ensures DigitsValue(Zeros(k)) == 0
  {
    if k > 0 {
      assert Zeros(k)[..k - 1] == Zeros(k - 1);
      ZerosValue(k - 1);
    }
  }

  /** Leading zeros do not change the value of a digit string. */
  lemma {:induction false} LeadingZerosValue(k: nat, s: string)
    requires AllDigits(s)
    ensures AllDigits(Zeros(k) + s) && DigitsValue(Zeros(k) + s) == DigitsValue(s)
    decreases |s|
  {
    var t := Zeros(k) + s;
    if s == [] {
      assert t == Zeros(k);
      ZerosValue(k);
    } else {
      assert t[..|t| - 1] == Zeros(k) + s[..|s| - 1];
      LeadingZerosValue(k, s[..|s| - 1]);
    }
  }

  /** The padded text is all digits, exactly max(width, digit count) long, and reads back as n. */
  lemma ZeroPaddedShape(n: nat, width: nat)
    ensures AllDigits(ZeroPadded(n, width))
    ensures |ZeroPadded(n, width)| == if |NatDigits(n)| < width then width else |NatDigits(n)|
    ensures DigitsValue(ZeroPadded(n, width)) == n
  {
    var digits := NatDigits(n);
    NatDigitsValue(n);
    if |digits| < width {
      LeadingZerosValue(width - |digits|, digits);
    } else {
      assert ZeroPadded(n, width) == digits;
    }
  }

  /** Distinct values are padded to distinct texts. */
  lemma ZeroPaddedInjective(a: nat, b: nat, width: nat)
    requires ZeroPadded(a, width) == ZeroPadded(b, width)
    ensures a == b
  {
    ZeroPaddedShape(a, width);
    ZeroPaddedShape(b, width);
  }

  function Pow10(d: nat): (p: nat)
    ensures p >= 1
  {
    if d == 0 then 1 else 10 * Pow10(d - 1)
  }

  /** A value below 10^d has at most d digits. */
  lemma {:induction false} DigitCountBound(n: nat, d: nat)
    requires 1 <= d && n < Pow10(d)
    ensures |NatDigits(n)| <= d
    decreases d
  {
    if n >= 10 {
      assert d > 1;
      DigitCountBound(n / 10, d - 1);
    }
  }

  /** A larger value never prints with fewer digits. */
  lemma {:induction false} DigitCountMonotone(a: nat, b: nat)
    requires a <= b
    ensures |NatDigits(a)| <= |NatDigits(b)|
    decreases b
  {
    if a >= 10 {
      DigitCountMonotone(a / 10, b / 10);
    }
  }
}
