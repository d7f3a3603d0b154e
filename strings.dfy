/**
  The string operations the application relies on: decimal rendering of a
  non-negative integer (JavaScript's `n.toString()` and `"" + n`),
  `lastIndexOf` for one character, and `trim`.
 */
module Strings {

  predicate IsDigit(c: char)
  {
    '0' <= c <= '9'
  }

  predicate AllDigits(s: string)
  {
    forall i :: 0 <= i < |s| ==> IsDigit(s[i])
  }

  function DigitChar(d: nat): (c: char)
    requires d < 10
    ensures IsDigit(c)
  {
    (('0' as int) + d) as char
  }

  function DigitValue(c: char): (d: nat)
    requires IsDigit(c)
    ensures d < 10 && DigitChar(d) == c
  {
    (c as int) - ('0' as int)
  }

  /** The number a string of decimal digits denotes. */
  function DigitsValue(s: string): nat
    requires AllDigits(s)
    decreases |s|
  {
    if s == [] then 0 else DigitsValue(s[..|s| - 1]) * 10 + DigitValue(s[|s| - 1])
  }

  /** Decimal rendering of a non-negative integer: no sign, no leading zero. */
  function NatToString(n: nat): (r: string)
    ensures |r| >= 1 && AllDigits(r)
    ensures r[0] == '0' ==> n == 0
    decreases n
  {
    if n < 10 then [DigitChar(n)] else NatToString(n / 10) + [DigitChar(n % 10)]
  }

  /** Reading the rendering back gives the number: `NatToString` is injective. */
  lemma {:induction false} NatToStringRoundTrip(n: nat)
    ensures DigitsValue(NatToString(n)) == n
    decreases n
  {
    var r := NatToString(n);
    if n < 10 {
      assert r[..|r| - 1] == [];
    } else {
      NatToStringRoundTrip(n / 10);
      assert r[..|r| - 1] == NatToString(n / 10);
    }
  }

  lemma NatToStringInjective(m: nat, n: nat)
    requires NatToString(m) == NatToString(n)
    ensures m == n
  {
    NatToStringRoundTrip(m);
    NatToStringRoundTrip(n);
  }

  /** `s.lastIndexOf(c)`: the index of the last occurrence of `c`, or -1. */
  function LastIndexOf(s: string, c: char): (r: int)
    ensures -1 <= r < |s|
    ensures r == -1 <==> c !in s
    ensures 0 <= r ==> s[r] == c && c !in s[r + 1..]
    decreases |s|
  {
    if s == [] then -1
    else if s[|s| - 1] == c then |s| - 1
    else
      assert s == s[..|s| - 1] + [s[|s| - 1]];
      LastIndexOf(s[..|s| - 1], c)
  }

  /**
    The characters `String.prototype.trim` removes: the WhiteSpace and
    LineTerminator code points of section 12.2 and 12.3 of ECMA-262 (tab,
    vertical tab, form feed, space, no-break space, the byte order mark, the
    other space separators of Unicode, line feed, carriage return, and the
    line and paragraph separators).
   */
  predicate IsWhitespace(c: char)
  {
    if c <= ' ' then c == ' ' || ('\t' <= c <= '\r') else '\U{00A0}' <= c && IsWideWhitespace(c)
  }

  /** The white space beyond ASCII: no-break space, the Unicode space separators, line and paragraph separators, byte order mark. */
  predicate IsWideWhitespace(c: char)
  {
    || c == '\U{00A0}' || c == '\U{1680}' || ('\U{2000}' <= c <= '\U{200A}') || c == '\U{2028}' || c == '\U{2029}'
    || c == '\U{202F}' || c == '\U{205F}' || c == '\U{3000}' || c == '\U{FEFF}'
  }

  function TrimStart(s: string): (r: string)
    ensures |r| <= |s| && r == s[|s| - |r|..]
    ensures r == [] || !IsWhitespace(r[0])
    ensures forall i :: 0 <= i < |s| - |r| ==> IsWhitespace(s[i])
    decreases |s|
  {
    if s != [] && IsWhitespace(s[0]) then TrimStart(s[1..]) else s
  }

  function TrimEnd(s: string): (r: string)
    ensures |r| <= |s| && r == s[..|r|]
    ensures r == [] || !IsWhitespace(r[|r| - 1])
    ensures forall i :: |r| <= i < |s| ==> IsWhitespace(s[i])
    decreases |s|
  {
    if s != [] && IsWhitespace(s[|s| - 1]) then TrimEnd(s[..|s| - 1]) else s
  }

  /** `s.trim()`: the longest middle part of `s` without white space at either end. */
  function Trim(s: string): (r: string)
    ensures r == [] || (!IsWhitespace(r[0]) && !IsWhitespace(r[|r| - 1]))
    ensures |r| <= |s|
    ensures (forall i :: 0 <= i < |s| ==> IsWhitespace(s[i])) ==> r == []
    ensures s != [] && !IsWhitespace(s[0]) && !IsWhitespace(s[|s| - 1]) ==> r == s
    ensures (exists a, b :: 0 <= a <= b <= |s| && r == s[a..b] &&
               (forall i :: 0 <= i < a ==> IsWhitespace(s[i])) && (forall i :: b <= i < |s| ==> IsWhitespace(s[i])))
  {
    var t := TrimStart(s);
    var r := TrimEnd(t);
    TrimmedIsInfix(s, t, r);
    r
  }

  /** Cutting white space off the front and then off the back leaves a middle part of `s`. */
  lemma TrimmedIsInfix(s: string, t: string, r: string)
    requires |t| <= |s| && t == s[|s| - |t|..]
    requires |r| <= |t| && r == t[..|r|]
    requires forall i :: 0 <= i < |s| - |t| ==> IsWhitespace(s[i])
    requires forall i :: |r| <= i < |t| ==> IsWhitespace(t[i])
    ensures (exists a, b :: 0 <= a <= b <= |s| && r == s[a..b] &&
               (forall i :: 0 <= i < a ==> IsWhitespace(s[i])) && (forall i :: b <= i < |s| ==> IsWhitespace(s[i])))
  {
    var a, b := |s| - |t|, |s| - |t| + |r|;
    assert r == s[a..b];
    forall i | b <= i < |s|
      ensures IsWhitespace(s[i])
    {
      assert s[i] == t[i - a];
    }
  }

  /** A trailing blank, as `getTimePlayed` leaves after "h " or "m ", is dropped by `trim`. */
  lemma TrimDropsTrailingBlank(s: string)
    requires s != [] && !IsWhitespace(s[0]) && !IsWhitespace(s[|s| - 1])
    ensures Trim(s + " ") == s
  {
    var t := s + " ";
    assert TrimStart(t) == t;
    assert TrimEnd(t) == TrimEnd(s);
  }
}
