/**
 * The few JavaScript string operations the front end relies on:
 * `String.prototype.trim`, `startsWith`, `padStart`, and `toString` of an
 * integer-valued number, with the reading-back functions that state what
 * they produce.
 */
module Strings {

  import opened Base

  /** The characters `trim` removes: ECMAScript WhiteSpace and LineTerminator. */
  predicate IsJsWhitespace(c: char)
  {
    c == '\t' || c == '\n' || c == '\U{000B}' || c == '\U{000C}' || c == '\r' || c == ' '
    || c == '\U{00A0}' || c == '\U{1680}' || ('\U{2000}' <= c <= '\U{200A}')
    || c == '\U{2028}' || c == '\U{2029}' || c == '\U{202F}' || c == '\U{205F}'
    || c == '\U{3000}' || c == '\U{FEFF}'
  }

  /** A string made of whitespace only (the empty string included). */
  predicate IsBlank(s: string)
  {
    forall i :: 0 <= i < |s| ==> IsJsWhitespace(s[i])
  }

  /** Drops leading whitespace. */
  function TrimStart(s: string): (r: string)
    ensures |r| <= |s| && r == s[|s| - |r|..]
    ensures forall i :: 0 <= i < |s| - |r| ==> IsJsWhitespace(s[i])
    ensures r != [] ==> !IsJsWhitespace(r[0])
  {
    if s != [] && IsJsWhitespace(s[0]) then TrimStart(s[1..]) else s
  }

  /** Drops trailing whitespace. */
  function TrimEnd(s: string): (r: string)
    ensures |r| <= |s| && r == s[..|r|]
    ensures forall i :: |r| <= i < |s| ==> IsJsWhitespace(s[i])
    ensures r != [] ==> !IsJsWhitespace(r[|r| - 1])
  {
    if s != [] && IsJsWhitespace(s[|s| - 1]) then TrimEnd(s[..|s| - 1]) else s
  }

  /**
   * `s.trim()`: drops whitespace at both ends (TrimStart and TrimEnd state
   * what each pass removes). The result is empty exactly when `s` is blank.
   */
  function Trim(s: string): (r: string)
    ensures |r| <= |s|
    ensures r == "" <==> IsBlank(s)
  {
    var t := TrimStart(s);
    var r := TrimEnd(t);
    TrimEmptyIffBlank(s, t, r);
    r
  }

  /** The two trimming passes leave nothing exactly when the input is all whitespace. */
  lemma TrimEmptyIffBlank(s: string, t: string, r: string)
    requires t == TrimStart(s) && r == TrimEnd(t)
    ensures r == "" <==> IsBlank(s)
  {
    if r == "" {
      // Everything TrimEnd removed is whitespace, and TrimStart leaves no leading whitespace.
      assert t == [];
    }
  }

  /** `s.startsWith(p)`. */
  predicate StartsWith(s: string, p: string)
  {
    |p| <= |s| && s[..|p|] == p
  }

  /** Appending keeps a prefix. */
  lemma PrefixKept(p: string, rest: string)
    ensures StartsWith(p + rest, p)
  {
    assert (p + rest)[..|p|] == p;
  }

  /** A prefix of a prefix is a prefix. */
  lemma StartsWithTransitive(s: string, p: string, q: string)
    requires StartsWith(s, p) && StartsWith(p, q)
    ensures StartsWith(s, q)
  {
    assert s[..|q|] == s[..|p|][..|q|];
  }

  /** `s.endsWith(p)`. */
  predicate EndsWith(s: string, p: string)
  {
    |p| <= |s| && s[|s| - |p|..] == p
  }

  predicate IsDigit(c: char)
  {
    '0' <= c <= '9'
  }

  predicate IsDigits(s: string)
  {
    forall i :: 0 <= i < |s| ==> IsDigit(s[i])
  }

  function DigitChar(d: nat): (c: char)
    requires d < 10
    ensures IsDigit(c)
  {
    ('0' as int + d) as char
  }

  function DigitValue(c: char): (d: nat)
    requires IsDigit(c)
    ensures d < 10 && DigitChar(d) == c
  {
    c as int - '0' as int
  }

  /** The decimal digits of `n`, most significant first, without leading zeros: `n.toString()`. */
  function DecimalString(n: nat): (r: string)
    ensures |r| >= 1 && IsDigits(r)
    decreases n
  {
    if n < 10 then [DigitChar(n)] else DecimalString(n / 10) + [DigitChar(n % 10)]
  }

  /** The value of a string of decimal digits; leading zeros are allowed. */
  function ParseDecimal(s: string): nat
    requires IsDigits(s)
  {
    if s == [] then 0 else ParseDecimal(s[..|s| - 1]) * 10 + DigitValue(s[|s| - 1])
  }

  lemma {:induction false} ParseDecimalString(n: nat)
    ensures ParseDecimal(DecimalString(n)) == n
    decreases n
  {
    if n >= 10 {
      var r := DecimalString(n);
      assert r[..|r| - 1] == DecimalString(n / 10);
      ParseDecimalString(n / 10);
    }
  }

  /** The number of digits of `n`: one below 10, two below 100, three or more from 100 on. */
  lemma {:induction false} DecimalStringLength(n: nat)
    ensures n < 10 ==> |DecimalString(n)| == 1
    ensures 10 <= n < 100 ==> |DecimalString(n)| == 2
    ensures n >= 100 ==> |DecimalString(n)| >= 3
    decreases n
  {
    if n >= 10 {
      DecimalStringLength(n / 10);
    }
  }

  /** `count` copies of `c`. */
  function Repeat(c: char, count: nat): (r: string)
    ensures |r| == count && forall i :: 0 <= i < count ==> r[i] == c
  {
    seq(count, _ => c)
  }

  /** `s.padStart(width, c)`: left-pads to `width`, never truncates. */
  function PadStart(s: string, width: nat, c: char): (r: string)
    ensures |s| >= width ==> r == s
    ensures |s| < width ==> |r| == width
    ensures EndsWith(r, s) && forall i :: 0 <= i < |r| - |s| ==> r[i] == c
  {
    if |s| >= width then s else Repeat(c, width - |s|) + s
  }

  /** Leading zeros do not change the value of a digit string. */
  lemma {:induction false} ParseDecimalLeadingZeros(z: string, s: string)
    requires IsDigits(s) && forall i :: 0 <= i < |z| ==> z[i] == '0'
    ensures IsDigits(z + s) && ParseDecimal(z + s) == ParseDecimal(s)
    decreases |s|
  {
    if s == [] {
      assert z + s == z;
      ZerosParseToZero(z);
    } else {
      assert (z + s)[..|z + s| - 1] == z + s[..|s| - 1];
      ParseDecimalLeadingZeros(z, s[..|s| - 1]);
    }
  }

  lemma {:induction false} ZerosParseToZero(z: string)
    requires forall i :: 0 <= i < |z| ==> z[i] == '0'
    ensures IsDigits(z) && ParseDecimal(z) == 0
    decreases |z|
  {
    if z != [] {
      ZerosParseToZero(z[..|z| - 1]);
    }
  }

  /**
   * `i.toString()` for an integer-valued number of magnitude below 10^21:
   * a minus sign exactly for a negative number, then the decimal digits of
   * its magnitude, which read back as that magnitude.
   */
  function NumberToString(i: int): (r: string)
    ensures |r| >= 1
    ensures r[0] == '-' <==> i < 0
    ensures var digits := if i < 0 then r[1..] else r;
      digits != [] && IsDigits(digits) && ParseDecimal(digits) == if i < 0 then -i else i
  {
    if i < 0 then
      ParseDecimalString(-i);
      assert ("-" + DecimalString(-i))[1..] == DecimalString(-i);
      "-" + DecimalString(-i)
    else
      ParseDecimalString(i);
      DecimalString(i)
  }
}
