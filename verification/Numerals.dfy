/**
  The numeral texts the protocol exchanges: `BigInt.toString`, canonical decimals, `padStart`
  and fixed-width lower-case hexadecimal.
 */
module Numerals {

  function DigitChar(d: nat): (c: char)
    requires d < 10
  {
    '0' + d as char
  }

  predicate IsDigit(c: char) { '0' <= c <= '9' }

  function DigitValue(c: char): nat
    requires IsDigit(c)
  {
    (c - '0') as nat
  }

  function Pow(b: nat, e: nat): nat {
    if e == 0 then 1 else b * Pow(b, e - 1)
  }

  /** `BigInt.prototype.toString` of a non-negative value. */
  function Decimal(n: nat): (s: string)
  {
    if n < 10 then [DigitChar(n)] else Decimal(n / 10) + [DigitChar(n % 10)]
  }

  /** `toString` of any integer: a negative one carries a minus sign. */
  function IntDecimal(n: int): string {
    if n < 0 then "-" + Decimal(-n) else Decimal(n)
  }

  /** `padStart(2, "0")` */
  function Pad2(s: string): string {
    if |s| == 0 then "00" else if |s| == 1 then "0" + s else s
  }

  predicate AllDigits(s: string) { forall i :: 0 <= i < |s| ==> IsDigit(s[i]) }

  /** The pattern ^(0|[1-9]\d*)$ of connector-protocol.ts */
  predicate CanonicalDecimal(s: string) {
    && |s| > 0
    && AllDigits(s)
    && (|s| > 1 ==> s[0] != '0')
  }

  /** `BigInt` of a text of decimal digits. */
  function ParseDecimal(s: string): nat
    requires AllDigits(s)
  {
    if s == [] then 0 else 10 * ParseDecimal(s[..|s| - 1]) + DigitValue(s[|s| - 1])
  }

  lemma {:induction false} DecimalParses(n: nat)
    ensures CanonicalDecimal(Decimal(n)) && (n > 0 ==> Decimal(n)[0] != '0')
    ensures ParseDecimal(Decimal(n)) == n
  {
    if n >= 10 {
      DecimalParses(n / 10);
      var s := Decimal(n);
      assert s[..|s| - 1] == Decimal(n / 10);
    } else {
      assert Decimal(n)[..0] == [];
    }
  }

  lemma {:induction false} LeadingDigit(s: string)
    requires AllDigits(s) && |s| > 0 && s[0] != '0'
    ensures ParseDecimal(s) > 0
  {
    if |s| > 1 { LeadingDigit(s[..|s| - 1]); }
  }

  /** A canonical text is the only one of its value. */
  lemma {:induction false} CanonicalPrints(s: string)
    requires CanonicalDecimal(s)
    ensures Decimal(ParseDecimal(s)) == s
  {
    var n := |s| - 1;
    if n == 0 {
      assert ParseDecimal(s[..0]) == 0;
    } else {
      CanonicalPrints(s[..n]);
      LeadingDigit(s[..n]);
      assert ParseDecimal(s) / 10 == ParseDecimal(s[..n]) && ParseDecimal(s) % 10 == DigitValue(s[n]);
    }
  }

  /** A value below 10^k is exactly one that prints in at most k digits. */
  lemma {:induction false} DecimalLength(n: nat, k: nat)
    requires k > 0
    ensures |Decimal(n)| <= k <==> n < Pow(10, k)
  {
    if k == 1 {
      assert Pow(10, 1) == 10 * Pow(10, 0);
      if n >= 10 { assert |Decimal(n / 10)| >= 1; }
    } else if n >= 10 {
      DecimalLength(n / 10, k - 1);
      assert Pow(10, k) == 10 * Pow(10, k - 1);
    } else {
      PowPositive(10, k - 1);
      assert Pow(10, k) == 10 * Pow(10, k - 1);
    }
  }

  lemma PowPositive(b: nat, e: nat)
    requires b > 0
    ensures Pow(b, e) > 0
  {
  }

  predicate IsLowerHex(c: char) { IsDigit(c) || 'a' <= c <= 'f' }

  function HexDigitValue(c: char): (v: nat)
    requires IsLowerHex(c)
    ensures v < 16
  {
    if IsDigit(c) then DigitValue(c) else 10 + (c - 'a') as nat
  }

  predicate AllLowerHex(s: string) { forall i :: 0 <= i < |s| ==> IsLowerHex(s[i]) }

  /** `BigInt("0x" + s)` */
  function HexValue(s: string): nat
    requires AllLowerHex(s)
  {
    if s == [] then 0 else 16 * HexValue(s[..|s| - 1]) + HexDigitValue(s[|s| - 1])
  }

  /** At a fixed width the value determines every character. */
  lemma {:induction false} HexValueInjective(s: string, t: string)
    requires AllLowerHex(s) && AllLowerHex(t) && |s| == |t|
    requires HexValue(s) == HexValue(t)
    ensures s == t
  {
    if s != [] {
      var n := |s| - 1;
      HexStep(HexValue(s[..n]), HexDigitValue(s[n]), HexValue(t[..n]), HexDigitValue(t[n]));
      HexValueInjective(s[..n], t[..n]);
      HexDigitInjective(s[n], t[n]);
      assert s == s[..n] + [s[n]] && t == t[..n] + [t[n]];
    }
  }

  lemma HexStep(a: nat, d: nat, b: nat, e: nat)
    requires d < 16 && e < 16 && 16 * a + d == 16 * b + e
    ensures a == b && d == e
  {
  }

  lemma HexDigitInjective(c: char, d: char)
    requires IsLowerHex(c) && IsLowerHex(d) && HexDigitValue(c) == HexDigitValue(d)
    ensures c == d
  {
  }

  /** Bytes as one number, most significant first. */
  function Packed(bytes: seq<nat>): nat {
    if bytes == [] then 0 else 256 * Packed(bytes[..|bytes| - 1]) + bytes[|bytes| - 1]
  }

  /** The part before the first colon determines what a joined text splits into. */
  lemma {:induction false} FirstPart(a: string, rest: string, b: string, other: string)
    requires ':' !in a && ':' !in b && a + ":" + rest == b + ":" + other
    ensures a == b && rest == other
  {
    var s, t := a + ":" + rest, b + ":" + other;
    if a == "" || b == "" {
      assert s[0] == t[0];
      assert s[1..] == t[1..];
    } else {
      assert s[0] == a[0] && t[0] == b[0];
      assert s[1..] == a[1..] + ":" + rest && t[1..] == b[1..] + ":" + other;
      FirstPart(a[1..], rest, b[1..], other);
    }
  }
}
