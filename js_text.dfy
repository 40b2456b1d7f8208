/** The JavaScript string primitives the client code relies on: the whitespace set of
    `String.prototype.trim` and of the regular-expression class `\s`, `trim`, and
    `Number(string)` for decimal integer text. */
module JsText {
  import Decimal

  /** WhiteSpace and LineTerminator of ECMAScript: tab, vertical tab, form feed, space,
      no-break space, byte order mark, the other space separators, and the line
      terminators LF, CR, LS and PS. */
  predicate IsJsSpace(c: char) {
    || c == '\t' || c == '\U{B}' || c == '\U{C}' || c == ' ' || c == '\U{A0}' || c == '\U{FEFF}'
    || c == '\U{1680}' || ('\U{2000}' <= c <= '\U{200A}') || c == '\U{202F}' || c == '\U{205F}' || c == '\U{3000}'
    || c == '\n' || c == '\r' || c == '\U{2028}' || c == '\U{2029}'
  }

  /** `trimStart`: the suffix left after the leading whitespace. */
  function TrimStart(s: string): (r: string)
    ensures |r| <= |s| && r == s[|s| - |r|..]
    ensures forall k {:trigger IsJsSpace(s[k])} :: 0 <= k < |s| - |r| ==> IsJsSpace(s[k])
    ensures r != [] ==> !IsJsSpace(r[0])
  {
    if s != [] && IsJsSpace(s[0]) then TrimStart(s[1..]) else s
  }

  /** `trimEnd`: the prefix left before the trailing whitespace. */
  function TrimEnd(s: string): (r: string)
    ensures |r| <= |s| && r == s[..|r|]
    ensures forall k {:trigger IsJsSpace(s[k])} :: |r| <= k < |s| ==> IsJsSpace(s[k])
    ensures r != [] ==> !IsJsSpace(r[|r| - 1])
  {
    if s != [] && IsJsSpace(s[|s| - 1]) then TrimEnd(s[..|s| - 1]) else s
  }

  /** `trim`: whitespace removed from both ends. The result is a slice `s[a..b]` of the
      input with only whitespace outside it, and it neither starts nor ends with
      whitespace. */
  function Trim(s: string): (r: string)
    ensures exists a, b ::
              && 0 <= a <= b <= |s| && r == s[a..b]
              && (forall k {:trigger IsJsSpace(s[k])} :: 0 <= k < a ==> IsJsSpace(s[k]))
              && (forall k {:trigger IsJsSpace(s[k])} :: b <= k < |s| ==> IsJsSpace(s[k]))
    ensures r != [] ==> !IsJsSpace(r[0]) && !IsJsSpace(r[|r| - 1])
    ensures |r| <= |s|
  {
    var t := TrimStart(s);
    var r := TrimEnd(t);
    TrimSlice(s, t, r);
    r
  }

  /** A prefix `r` of a suffix `t` of `s`, with only whitespace cut from either end, is a
      slice of `s` with only whitespace outside it. */
  lemma TrimSlice(s: string, t: string, r: string)
    requires |t| <= |s| && t == s[|s| - |t|..]
    requires forall k {:trigger IsJsSpace(s[k])} :: 0 <= k < |s| - |t| ==> IsJsSpace(s[k])
    requires |r| <= |t| && r == t[..|r|]
    requires forall k {:trigger IsJsSpace(t[k])} :: |r| <= k < |t| ==> IsJsSpace(t[k])
    ensures exists a, b ::
              && 0 <= a <= b <= |s| && r == s[a..b]
              && (forall k {:trigger IsJsSpace(s[k])} :: 0 <= k < a ==> IsJsSpace(s[k]))
              && (forall k {:trigger IsJsSpace(s[k])} :: b <= k < |s| ==> IsJsSpace(s[k]))
  {
    var a := |s| - |t|;
    var b := a + |r|;
    assert r == s[a..b];
    forall k | b <= k < |s|
      ensures IsJsSpace(s[k])
    {
      assert s[k] == t[k - a];
    }
  }

  /** Text that neither starts nor ends with whitespace is its own trim. */
  lemma TrimUnpadded(s: string)
    requires s != [] ==> !IsJsSpace(s[0]) && !IsJsSpace(s[|s| - 1])
    ensures Trim(s) == s
  {
  }

  /** Trimming twice is trimming once. */
  lemma TrimIdempotent(s: string)
    ensures Trim(Trim(s)) == Trim(s)
  {
    TrimUnpadded(Trim(s));
  }

  /** A JavaScript number, as far as the model computes it: an integer, or some other
      value (NaN, a fraction, an exponent or hexadecimal form, an infinity). */
  datatype JsNumber = Finite(value: int) | OtherNumber

  /** `Number(s)` for decimal integer text: surrounding whitespace is ignored, blank
      text is 0, and an optional sign may precede the digits. */
  function ToNumber(s: string): (n: JsNumber)
    ensures Trim(s) == [] ==> n == Finite(0)
    ensures Decimal.AllDigits(Trim(s)) && Trim(s) != [] ==> n == Finite(Decimal.ParseDigits(Trim(s)))
  {
    var t := Trim(s);
    if t == [] then Finite(0)
    else if Decimal.AllDigits(t) then Finite(Decimal.ParseDigits(t))
    else if |t| > 1 && t[0] == '-' && Decimal.AllDigits(t[1..]) then Finite(0 - Decimal.ParseDigits(t[1..]) as int)
    else if |t| > 1 && t[0] == '+' && Decimal.AllDigits(t[1..]) then Finite(Decimal.ParseDigits(t[1..]))
    else OtherNumber
  }

  /** `Number` reads back every integer that PHP prints. */
  lemma ToNumberOfIntToString(i: int)
    ensures ToNumber(Decimal.IntToString(i)) == Finite(i)
  {
    if i >= 0 {
      ToNumberOfNatText(i);
    } else {
      ToNumberOfNegativeText(i);
    }
  }

  lemma ToNumberOfNatText(n: nat)
    ensures ToNumber(Decimal.NatToString(n)) == Finite(n)
  {
    var s := Decimal.NatToString(n);
    TrimUnpadded(s);
    Decimal.ParseNatToString(n);
  }

  lemma ToNumberOfNegativeText(i: int)
    requires i < 0
    ensures ToNumber(Decimal.IntToString(i)) == Finite(i)
  {
    var s := Decimal.IntToString(i);
    Decimal.SignedText(-i, s);
    ToNumberOfMinusDigits(s);
  }

  /** A minus sign followed by digits is read as the negated digits. */
  lemma ToNumberOfMinusDigits(t: string)
    requires |t| > 1 && t[0] == '-' && Decimal.AllDigits(t[1..]) && Decimal.IsDigit(t[|t| - 1])
    ensures ToNumber(t) == Finite(0 - Decimal.ParseDigits(t[1..]) as int)
  {
    TrimUnpadded(t);
    assert !Decimal.AllDigits(t) by {
      assert !Decimal.IsDigit(t[0]);
    }
  }
}
