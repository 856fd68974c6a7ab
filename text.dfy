/**
 * Decimal text of integers: Swift's `String(n)` and the `padTimeUnit`
 * helper the `*String` accessors use, with a parser as their partner so that
 * the rendering can be shown to lose nothing.
 */
module Text {

  predicate IsDigit(c: char) {
    '0' <= c <= '9'
  }

  predicate AllDigits(s: string) {
    forall i :: 0 <= i < |s| ==> IsDigit(s[i])
  }

  /** Text an integer parser accepts: digits, optionally after one minus sign. */
  predicate IsIntText(s: string) {
    AllDigits(s) || (|s| >= 1 && s[0] == '-' && AllDigits(s[1..]))
  }

  function DigitChar(d: nat): (c: char)
    requires d < 10
    ensures IsDigit(c)
  {
    (d + '0' as int) as char
  }

  function DigitValue(c: char): (d: nat)
    requires IsDigit(c)
    ensures d < 10
  {
    c as int - '0' as int
  }

  /** `String(n)` for a non-negative `Int`: its decimal digits, most significant first. */
  function NatToString(n: nat): (s: string)
    ensures AllDigits(s)
    ensures (|s| == 1) == (n < 10)
    ensures 10 <= n < 100 ==> |s| == 2
    ensures n >= 100 ==> |s| >= 3
    ensures n > 0 ==> s[0] != '0'
    decreases n
  {
    if n < 10 then [DigitChar(n)] else NatToString(n / 10) + [DigitChar(n % 10)]
  }

  /** `String(n)` for any `Int`: a minus sign before the digits of a negative value. */
  function IntToString(n: int): (s: string)
    ensures IsIntText(s)
    ensures n >= 0 <==> AllDigits(s)
    ensures n == 0 ==> s == "0"
    ensures n > 0 ==> |s| >= 1 && s[0] != '0'
    ensures n < 0 ==> |s| >= 2 && s[1] != '0'
  {
    if n < 0 then "-" + NatToString(-n) else NatToString(n)
  }

  /**
   * `padTimeUnit(n)`, documented as a "padded, 2-digit String": a single digit
   * gets a leading zero; every other value is its plain decimal text, so that
   * a value of 100 or more is never truncated.
   */
  function PadTimeUnit(n: int): (s: string)
    ensures IsIntText(s)
    ensures 0 <= n < 100 ==> |s| == 2
    ensures n >= 0 ==> AllDigits(s) && |s| >= 2
    ensures n >= 100 ==> |s| >= 3
    ensures 0 <= n < 10 ==> s[0] == '0'
    ensures n >= 10 ==> s[0] != '0'
  {
    if 0 <= n < 10 then "0" + NatToString(n) else IntToString(n)
  }

  /** The value of a digit string, leading zeros allowed. */
  function ParseNat(s: string): nat
    requires AllDigits(s)
    decreases |s|
  {
    if s == [] then 0 else ParseNat(s[..|s| - 1]) * 10 + DigitValue(s[|s| - 1])
  }

  /** The value of an integer text: the inverse of IntToString and of PadTimeUnit. */
  function ParseInt(s: string): (v: int)
    requires IsIntText(s)
  {
    if |s| >= 1 && s[0] == '-' then 0 - ParseNat(s[1..]) else ParseNat(s)
  }

  lemma {:induction false} ParseNatToString(n: nat)
    ensures ParseNat(NatToString(n)) == n
    decreases n
  {
    if n >= 10 {
      var s := NatToString(n / 10);
      var c := DigitChar(n % 10);
      assert NatToString(n) == s + [c];
      assert (s + [c])[..|s|] == s;
      ParseNatToString(n / 10);
    }
  }

  /** Decimal text round-trips through the parser. */
  lemma IntToStringRoundTrip(n: int)
    ensures ParseInt(IntToString(n)) == n
  {
    if n < 0 {
      var s := NatToString(-n);
      assert ("-" + s)[1..] == s;
      ParseNatToString(-n);
    } else {
      ParseNatToString(n);
    }
  }

  /** Padding round-trips through the parser: the padded text still denotes the same value. */
  lemma PadTimeUnitRoundTrip(n: int)
    ensures ParseInt(PadTimeUnit(n)) == n
  {
    if 0 <= n < 10 {
      var s := "0" + NatToString(n);
      assert s[..1] == "0";
      assert ParseNat(s[..1]) == 0;
    } else {
      IntToStringRoundTrip(n);
    }
  }

  /** Two different values never share a padded rendering. */
  lemma PadTimeUnitInjective(a: int, b: int)
    ensures PadTimeUnit(a) == PadTimeUnit(b) ==> a == b
  {
    PadTimeUnitRoundTrip(a);
    PadTimeUnitRoundTrip(b);
  }
}
