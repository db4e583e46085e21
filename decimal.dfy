/**
 * Decimal text for location ids: how an integer id becomes the text of an
 * option's value (`pair[0].toString()`), and how `parseInt` turns that text
 * back into a number when the update button is pressed.
 */
module Decimal {
  import opened Wrappers

  /** A character '0' to '9'. */
  predicate IsDecimalDigit(c: char) {
    '0' <= c <= '9'
  }

  /** The character of a decimal digit. */
  function DigitChar(d: nat): (c: char)
    requires d < 10
    ensures IsDecimalDigit(c)
    ensures DigitValue(c) == d
  {
    (d + '0' as int) as char
  }

  /**
   * The value of a character read as a digit in any radix up to 36:
   * '0'-'9' are 0-9, 'a'-'z' and 'A'-'Z' are 10-35; any other character gets
   * 36, which no radix admits.
   */
  function DigitValue(c: char): (v: nat)
    ensures v <= 36
    ensures v < 10 <==> IsDecimalDigit(c)
  {
    if '0' <= c <= '9' then c as int - '0' as int
    else if 'a' <= c <= 'z' then c as int - 'a' as int + 10
    else if 'A' <= c <= 'Z' then c as int - 'A' as int + 10
    else 36
  }

  predicate IsRadixDigit(c: char, radix: nat) {
    DigitValue(c) < radix
  }

  /**
   * Decimal rendering of a natural number, as `Number.prototype.toString`
   * writes it: most significant digit first, no leading zeros, "0" for zero.
   */
  function NatToDecimal(n: nat): (s: string)
    ensures |s| >= 1
    ensures forall i :: 0 <= i < |s| ==> IsDecimalDigit(s[i])
    ensures s[0] == '0' ==> n == 0 && s == "0"
    decreases n
  {
    if n < 10 then [DigitChar(n)] else NatToDecimal(n / 10) + [DigitChar(n % 10)]
  }

  /** Decimal rendering of an integer: a '-' before the digits of its magnitude when negative. */
  function IntToDecimal(n: int): (s: string)
    ensures |s| >= 1
    ensures s[0] == '-' <==> n < 0
    ensures forall i :: (if n < 0 then 1 else 0) <= i < |s| ==> IsDecimalDigit(s[i])
    ensures var k := if n < 0 then 1 else 0; |s| > k && (s[k] == '0' ==> s == "0")
  {
    if n < 0 then "-" + NatToDecimal(-n) else NatToDecimal(n)
  }

  /**
   * The characters ECMAScript's `parseInt` skips before the number:
   * StrWhiteSpaceChar, that is the white space characters (tab, vertical
   * tab, form feed, the byte-order mark and the space separators) and the
   * line terminators.
   */
  predicate IsStrWhiteSpace(c: char) {
    || c == '\t' || c == '\n' || c == '\U{000B}' || c == '\U{000C}' || c == '\r'
    || c == ' ' || c == '\U{00A0}' || c == '\U{1680}'
    || ('\U{2000}' <= c <= '\U{200A}')
    || c == '\U{2028}' || c == '\U{2029}' || c == '\U{202F}' || c == '\U{205F}'
    || c == '\U{3000}' || c == '\U{FEFF}'
  }

  /** The string with its leading white space removed. */
  function TrimStart(s: string): (t: string)
    ensures |t| <= |s| && t == s[|s| - |t|..]
    ensures t == [] || !IsStrWhiteSpace(t[0])
    ensures forall i :: 0 <= i < |s| - |t| ==> IsStrWhiteSpace(s[i])
  {
    if s != [] && IsStrWhiteSpace(s[0]) then TrimStart(s[1..]) else s
  }

  /** The longest prefix of `s` made of digits of the given radix. */
  function DigitRun(s: string, radix: nat): (z: string)
    ensures |z| <= |s| && z == s[..|z|]
    ensures forall i :: 0 <= i < |z| ==> IsRadixDigit(z[i], radix)
    ensures |z| < |s| ==> !IsRadixDigit(s[|z|], radix)
  {
    if s == [] || !IsRadixDigit(s[0], radix) then [] else [s[0]] + DigitRun(s[1..], radix)
  }

  /** The number a string of digits denotes in the given radix, most significant digit first. */
  function ValueIn(z: string, radix: nat): nat {
    if z == [] then 0 else ValueIn(z[..|z| - 1], radix) * radix + DigitValue(z[|z| - 1])
  }

  /** A "0x" or "0X" prefix, which makes `parseInt` read hexadecimal. */
  predicate HasHexPrefix(u: string) {
    |u| >= 2 && u[0] == '0' && (u[1] == 'x' || u[1] == 'X')
  }

  /**
   * The number `parseInt` reads after the sign: hexadecimal after a "0x" or
   * "0X" prefix, decimal otherwise, from the longest run of digits that
   * follows; `None` (NaN) exactly when no digit follows.
   */
  function ParseMagnitude(u: string): (m: Option<nat>)
    ensures var start := if HasHexPrefix(u) then 2 else 0;
            var radix := if HasHexPrefix(u) then 16 else 10;
            && (m.None? <==> |u| == start || !IsRadixDigit(u[start], radix))
            && (m.Some? ==> m.value == ValueIn(DigitRun(u[start..], radix), radix))
  {
    var hex := HasHexPrefix(u);
    var radix := if hex then 16 else 10;
    var digits := DigitRun(if hex then u[2..] else u, radix);
    if digits == [] then None else Some(ValueIn(digits, radix))
  }

  /**
   * ECMAScript's `parseInt(s)` with no radix argument: skip leading white
   * space, take one optional sign, then read the magnitude; `None` is NaN.
   * The result is NaN exactly when no digits follow; a '-' negates the
   * magnitude and a '+' or no sign keeps it. A negative zero is zero here.
   */
  function ParseInt(s: string): (r: Option<int>)
    ensures var t := TrimStart(s);
            var signed := t != [] && (t[0] == '-' || t[0] == '+');
            var m := ParseMagnitude(if signed then t[1..] else t);
            && (r.None? <==> m.None?)
            && (r.Some? && t[0] == '-' ==> r.value == -(m.value as int))
            && (r.Some? && t[0] != '-' ==> r.value == m.value as int)
  {
    ParseSigned(TrimStart(s))
  }

  /** `parseInt` once the white space is skipped: one optional sign, then the magnitude. */
  function ParseSigned(t: string): Option<int> {
    if t == [] then None
    else
      var negative := t[0] == '-';
      match ParseMagnitude(if negative || t[0] == '+' then t[1..] else t)
      case None => None
      case Some(m) => Some(if negative then 0 - m as int else m)
  }

  /** Removing the leading white space a second time removes nothing. */
  lemma {:induction false} TrimStartIdempotent(s: string)
    ensures TrimStart(TrimStart(s)) == TrimStart(s)
  {
    var t := TrimStart(s);
    assert t == [] || !IsStrWhiteSpace(t[0]);
  }

  /** `parseInt` ignores leading white space: it reads the same number with or without it. */
  lemma ParseIntSkipsWhiteSpace(s: string)
    ensures ParseInt(s) == ParseInt(TrimStart(s))
  {
    TrimStartIdempotent(s);
  }

  /** Reading back the decimal digits of `n` gives `n`. */
  lemma {:induction false} NatToDecimalValue(n: nat)
    ensures ValueIn(NatToDecimal(n), 10) == n
    decreases n
  {
    var s := NatToDecimal(n);
    if n >= 10 {
      NatToDecimalValue(n / 10);
      assert s[..|s| - 1] == NatToDecimal(n / 10);
    }
  }

  /** A string made only of digits is its own longest digit run. */
  lemma {:induction false} DigitRunOfDigits(s: string, radix: nat)
    requires forall i :: 0 <= i < |s| ==> IsRadixDigit(s[i], radix)
    ensures DigitRun(s, radix) == s
  {
    if s != [] {
      DigitRunOfDigits(s[1..], radix);
    }
  }

  /** The digits `NatToDecimal` writes are read back as decimal, never as a hexadecimal prefix. */
  lemma MagnitudeOfDecimal(m: nat)
    ensures ParseMagnitude(NatToDecimal(m)) == Some(m)
  {
    var d := NatToDecimal(m);
    assert !HasHexPrefix(d);
    forall i | 0 <= i < |d| ensures IsRadixDigit(d[i], 10) {
      assert IsDecimalDigit(d[i]);
    }
    DigitRunOfDigits(d, 10);
    NatToDecimalValue(m);
  }

  /** `parseInt` skips nothing in front of a decimal rendering. */
  lemma NoLeadingWhiteSpace(n: int)
    ensures TrimStart(IntToDecimal(n)) == IntToDecimal(n)
  {
    var s := IntToDecimal(n);
    assert s[0] == '-' || IsDecimalDigit(s[0]);
    assert !IsStrWhiteSpace(s[0]);
  }

  /**
   * The id round trip of the option values: `parseInt` of the decimal
   * rendering of any integer gives that integer back.
   */
  lemma ParseIntRoundTrip(n: int)
    ensures ParseInt(IntToDecimal(n)) == Some(n)
  {
    var s := IntToDecimal(n);
    NoLeadingWhiteSpace(n);
    if n < 0 {
      MagnitudeOfDecimal(-n);
      assert s[1..] == NatToDecimal(-n);
    } else {
      MagnitudeOfDecimal(n);
      assert IsDecimalDigit(s[0]);
    }
  }
}
