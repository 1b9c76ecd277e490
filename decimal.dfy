/**
 * Decimal rendering of integers, as a template literal `${n}` renders an
 * integral number, together with a parser. The parser inverts the
 * rendering, so the rendering loses no information.
 */
module Decimal {

  predicate IsDigit(c: char) {
    '0' <= c <= '9'
  }

  function DigitChar(d: nat): (c: char)
    requires d < 10
    ensures IsDigit(c) && c as int - '0' as int == d
  {
    ('0' as int + d) as char
  }

  /** Digits of `n`, most significant first, without leading zeros. */
  function NatToString(n: nat): (s: string)
    ensures CanonicalDigits(s)
    ensures s[0] == '0' ==> n == 0
    decreases n
  {
    if n < 10 then [DigitChar(n)] else NatToString(n / 10) + [DigitChar(n % 10)]
  }

  /** `-` followed by the digits for a negative number, the digits otherwise. */
  function IntToString(n: int): (s: string)
    ensures |s| > 0
    ensures s[0] == '-' <==> n < 0
    ensures n < 0 ==> |s| >= 2 && s[1] != '0'
    ensures n < 0 ==> CanonicalDigits(s[1..]) && s[1..] != "0"
    ensures n >= 0 ==> CanonicalDigits(s)
  {
    if n < 0 then "-" + NatToString(-n) else NatToString(n)
  }

  /**
   * A non-empty string of digits with no leading zero; "0" itself is the
   * only one that starts with `0`.
   */
  predicate CanonicalDigits(s: string) {
    && |s| > 0
    && (forall i :: 0 <= i < |s| ==> IsDigit(s[i]))
    && (s[0] == '0' ==> |s| == 1)
  }

  /** Reads a string of digits back as a number. */
  function ParseNat(s: string): int {
    if s == [] then 0 else 10 * ParseNat(s[..|s| - 1]) + (s[|s| - 1] as int - '0' as int)
  }

  /** Reads an optional leading `-` and a string of digits. */
  function ParseInt(s: string): int {
    if |s| > 0 && s[0] == '-' then -ParseNat(s[1..]) else ParseNat(s)
  }

  lemma {:induction false} ParseNatToString(n: nat)
    ensures ParseNat(NatToString(n)) == n
    decreases n
  {
    var s := NatToString(n);
    if n >= 10 {
      ParseNatToString(n / 10);
      assert s[..|s| - 1] == NatToString(n / 10);
    }
  }

  /** Rendering followed by parsing gives back the number. */
  lemma ParseIntToString(n: int)
    ensures ParseInt(IntToString(n)) == n
  {
    if n < 0 {
      ParseNatToString(-n);
      assert IntToString(n)[1..] == NatToString(-n);
    } else {
      ParseNatToString(n);
    }
  }

  /** Different numbers render differently. */
  lemma IntToStringInjective(m: int, n: int)
    requires IntToString(m) == IntToString(n)
    ensures m == n
  {
    ParseIntToString(m);
    ParseIntToString(n);
  }

  /** A string of digits without a leading zero is positive. */
  lemma {:induction false} ParseNatPositive(s: string)
    requires CanonicalDigits(s) && s[0] != '0'
    ensures ParseNat(s) > 0
    decreases |s|
  {
    if |s| > 1 {
      var front := s[..|s| - 1];
      assert front[0] == s[0];
      ParseNatPositive(front);
    }
  }

  /**
   * Every canonical digit string is the rendering of the number it reads
   * as: the rendering is the one text without leading zeros for the number.
   */
  lemma {:induction false} NatToStringOfParse(s: string)
    requires CanonicalDigits(s)
    ensures ParseNat(s) >= 0 && NatToString(ParseNat(s)) == s
    decreases |s|
  {
    var d := s[|s| - 1] as int - '0' as int;
    if |s| == 1 {
      assert ParseNat(s[..0]) == 0;
      assert NatToString(d) == [DigitChar(d)];
    } else {
      var front := s[..|s| - 1];
      assert front[0] == s[0];
      NatToStringOfParse(front);
      ParseNatPositive(front);
      var p := ParseNat(front);
      var n := 10 * p + d;
      assert n / 10 == p && n % 10 == d;
      assert NatToString(n) == NatToString(p) + [DigitChar(d)];
      assert s == front + [s[|s| - 1]];
    }
  }
}
