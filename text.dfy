/**
  The string operations the scanner relies on from the Kotlin standard
  library: prefix test, replacing every "/" by ".", and rendering an Int
  as decimal text (with a parser that inverts it, so that rendering is
  known to be injective).
*/
module Text {

  /** Kotlin's String.startsWith(prefix). */
  predicate StartsWith(s: string, prefix: string)
    ensures StartsWith(s, prefix) <==>
      |prefix| <= |s| && forall i :: 0 <= i < |prefix| ==> s[i] == prefix[i]
  {
    |prefix| <= |s| && s[..|prefix|] == prefix
  }

  /** The character s.replace("/", ".") puts at a position holding c. */
  function Dotted(c: char): char
  {
    if c == '/' then '.' else c
  }

  /** Kotlin's s.replace("/", "."): every slash becomes a dot, nothing else moves. */
  function ReplaceSlashes(s: string): (r: string)
    ensures |r| == |s|
    ensures forall i :: 0 <= i < |s| ==> r[i] == Dotted(s[i])
  {
    if s == [] then [] else [Dotted(s[0])] + ReplaceSlashes(s[1..])
  }

  /** A name without slashes passes through the replacement unchanged. */
  lemma ReplaceSlashesKeepsSlashFree(s: string)
    requires '/' !in s
    ensures ReplaceSlashes(s) == s
  {
    var r := ReplaceSlashes(s);
    forall i | 0 <= i < |s| ensures r[i] == s[i] {
      assert s[i] != '/';
    }
  }

  /** No slash survives the replacement, so replacing twice is replacing once. */
  lemma ReplaceSlashesLeavesNoSlash(s: string)
    ensures '/' !in ReplaceSlashes(s)
    ensures ReplaceSlashes(ReplaceSlashes(s)) == ReplaceSlashes(s)
  {
    var r := ReplaceSlashes(s);
    forall i | 0 <= i < |r| ensures r[i] != '/' {
      assert r[i] == Dotted(s[i]);
    }
    ReplaceSlashesKeepsSlashFree(r);
  }

  predicate IsDigit(c: char)
  {
    '0' <= c <= '9'
  }

  function DigitChar(d: nat): (c: char)
    requires d < 10
    ensures IsDigit(c)
  {
    ('0' as int + d) as char
  }

  function DigitValue(c: char): nat
    requires IsDigit(c)
  {
    c as int - '0' as int
  }

  /** The decimal digits of n, most significant first, without leading zeros. */
  function NatToDecimal(n: nat): (r: string)
    ensures |r| >= 1
    ensures forall i :: 0 <= i < |r| ==> IsDigit(r[i])
    ensures r[0] == '0' ==> n == 0
  {
    if n < 10 then [DigitChar(n)] else NatToDecimal(n / 10) + [DigitChar(n % 10)]
  }

  /** Kotlin's Int.toString(): a minus sign before the digits of a negative number. */
  function IntToDecimal(n: int): (r: string)
    ensures |r| >= 1
    ensures r[0] == '-' <==> n < 0
    ensures r[0] == '-' || IsDigit(r[0])
    ensures AllDigits(r[1..])
    ensures r[0] == '0' ==> r == "0"
    ensures n < 0 ==> |r| >= 2 && r[1] != '0'
  {
    if n < 0 then "-" + NatToDecimal(-n) else NatToDecimal(n)
  }

  predicate AllDigits(s: string)
  {
    forall i :: 0 <= i < |s| ==> IsDigit(s[i])
  }

  /** The value of a string of decimal digits. */
  function DecimalValue(s: string): nat
    requires AllDigits(s)
  {
    if s == [] then 0 else DecimalValue(s[..|s| - 1]) * 10 + DigitValue(s[|s| - 1])
  }

  /** Reads back what IntToDecimal writes. */
  function ParseInt(s: string): int
    requires |s| >= 1 && AllDigits(s[1..])
    requires s[0] == '-' || IsDigit(s[0])
  {
    if s[0] == '-' then -(DecimalValue(s[1..]) as int) else DecimalValue(s)
  }

  lemma {:induction false} NatToDecimalRoundTrip(n: nat)
    ensures DecimalValue(NatToDecimal(n)) == n
  {
    var s := NatToDecimal(n);
    if n < 10 {
      assert s[..|s| - 1] == [];
    } else {
      var p := NatToDecimal(n / 10);
      assert s == p + [DigitChar(n % 10)];
      assert s[..|s| - 1] == p;
      NatToDecimalRoundTrip(n / 10);
    }
  }

  /** Decimal rendering loses nothing: parsing it gives the number back. */
  lemma IntToDecimalRoundTrip(n: int)
    ensures var s := IntToDecimal(n); |s| >= 1 && AllDigits(s[1..]) && ParseInt(s) == n
  {
    var s := IntToDecimal(n);
    if n < 0 {
      assert s[1..] == NatToDecimal(-n);
      NatToDecimalRoundTrip(-n);
    } else {
      NatToDecimalRoundTrip(n);
    }
  }

  /** Two numbers render to the same text only when they are equal. */
  lemma IntToDecimalInjective(a: int, b: int)
    requires IntToDecimal(a) == IntToDecimal(b)
    ensures a == b
  {
    IntToDecimalRoundTrip(a);
    IntToDecimalRoundTrip(b);
  }
}
