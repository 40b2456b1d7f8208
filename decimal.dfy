/** Decimal text of integers, as PHP string interpolation ("{$n}") and JavaScript
    template literals (`${n}`) produce it for integer values, and its parsing back. */
module Decimal {

  predicate IsDigit(c: char) {
    '0' <= c <= '9'
  }

  predicate AllDigits(s: string) {
    forall i :: 0 <= i < |s| ==> IsDigit(s[i])
  }

  function DigitChar(d: nat): (c: char)
    requires d < 10
    ensures IsDigit(c) && (c as int) - ('0' as int) == d
  {
    (('0' as int) + d) as char
  }

  function DigitValue(c: char): (d: nat)
    requires IsDigit(c)
    ensures d < 10 && DigitChar(d) == c
  {
    (c as int) - ('0' as int)
  }

  /** Shortest decimal representation of `n`: no leading zeros, at least one digit. */
  function NatToString(n: nat): (s: string)
    ensures |s| >= 1 && AllDigits(s)
    ensures (|s| == 1) == (n < 10)
    ensures s[0] == '0' ==> n == 0
  {
    if n < 10 then [DigitChar(n)] else NatToString(n / 10) + [DigitChar(n % 10)]
  }

  /** Decimal text of an integer, with a leading '-' for negative values. */
  function IntToString(i: int): (s: string)
    ensures |s| >= 1
    ensures i >= 0 ==> s == NatToString(i)
    ensures i < 0 ==> s == "-" + NatToString(-i)
  {
    if i < 0 then "-" + NatToString(-i) else NatToString(i)
  }

  /** The value a digit string denotes (most significant digit first). */
  function ParseDigits(s: string): nat
    requires AllDigits(s)
  {
    if s == [] then 0 else ParseDigits(s[..|s| - 1]) * 10 + DigitValue(s[|s| - 1])
  }

  /** Parsing the decimal text of `n` gives back `n`. */
  lemma {:induction false} ParseNatToString(n: nat)
    ensures ParseDigits(NatToString(n)) == n
  {
    var s := NatToString(n);
    if n >= 10 {
      assert s[..|s| - 1] == NatToString(n / 10);
      ParseNatToString(n / 10);
    }
  }

  /** The text of a negative number: a minus sign, then the digits of its magnitude,
      which parse back to it. */
  lemma SignedText(n: nat, s: string)
    requires s == "-" + NatToString(n)
    ensures |s| > 1 && s[0] == '-' && AllDigits(s[1..]) && IsDigit(s[|s| - 1])
    ensures ParseDigits(s[1..]) == n
  {
    var digits := NatToString(n);
    assert s[1..] == digits;
    assert s[|s| - 1] == digits[|digits| - 1];
    ParseNatToString(n);
  }

  /** Distinct numbers have distinct decimal texts. */
  lemma NatToStringInjective(m: nat, n: nat)
    requires NatToString(m) == NatToString(n)
    ensures m == n
  {
    ParseNatToString(m);
    ParseNatToString(n);
  }

  /** In x + [sep] + y with no `sep` in x, the first `sep` is at position |x|. */
  lemma FirstSeparator(x: string, y: string, sep: char)
    requires sep !in x
    ensures (x + [sep] + y)[|x|] == sep
    ensures forall k :: 0 <= k < |x| ==> (x + [sep] + y)[k] != sep
  {
    forall k | 0 <= k < |x| ensures (x + [sep] + y)[k] != sep {
      assert (x + [sep] + y)[k] == x[k];
    }
  }

  /** Two "x-y" texts whose left parts contain no separator split at the same place. */
  lemma SplitAtSeparator(x: string, y: string, x': string, y': string, sep: char)
    requires sep !in x && sep !in x'
    requires x + [sep] + y == x' + [sep] + y'
    ensures x == x' && y == y'
  {
    var t := x + [sep] + y;
    FirstSeparator(x, y, sep);
    FirstSeparator(x', y', sep);
    assert |x| == |x'|;
    assert x == t[..|x|] == x';
    assert y == t[|x| + 1..] == y';
  }
}
