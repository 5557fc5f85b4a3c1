/** Decimal rendering of numbers, as JavaScript's template literals do it,
    and JavaScript's `parseInt` with no radix argument. */
module Strings {
  import opened Common

  /** The character for a decimal digit. */
  function DigitChar(d: nat): (c: char)
    requires d < 10
  {
    ('0' as int + d) as char
  }

  /** The decimal rendering of a natural number, with no leading zero. */
  function NatToString(n: nat): (s: string)
    ensures |s| > 0
    decreases n
  {
    (if n < 10 then [] else NatToString(n / 10)) + [DigitChar(n % 10)]
  }

  /** The white space that `parseInt` skips before the number: the
      `WhiteSpace` and `LineTerminator` characters of section 12.2 and 12.3
      of ECMA-262. */
  predicate IsStrWhiteSpace(c: char) {
    c == '\t' || c == '\n' || c == '\U{B}' || c == '\U{C}' || c == '\r' || c == ' '
    || c == '\U{A0}' || c == '\U{1680}' || ('\U{2000}' <= c <= '\U{200A}')
    || c == '\U{2028}' || c == '\U{2029}' || c == '\U{202F}' || c == '\U{205F}'
    || c == '\U{3000}' || c == '\U{FEFF}'
  }

  /** The value of a digit character in radix 16 or below. */
  function DigitValue(c: char): Option<nat> {
    if '0' <= c <= '9' then Some(c as int - '0' as int)
    else if 'a' <= c <= 'f' then Some(c as int - 'a' as int + 10)
    else if 'A' <= c <= 'F' then Some(c as int - 'A' as int + 10)
    else None
  }

  predicate IsDigitIn(c: char, radix: nat) {
    DigitValue(c).Some? && DigitValue(c).value < radix
  }

  /** `s` with its leading white space removed. */
  function TrimStart(s: string): (r: string)
    ensures r == [] || !IsStrWhiteSpace(r[0])
    ensures |r| <= |s| && r == s[|s| - |r|..]
  {
    if |s| > 0 && IsStrWhiteSpace(s[0]) then TrimStart(s[1..]) else s
  }

  /** The longest prefix of `s` made of digits of the given radix. */
  function DigitPrefix(s: string, radix: nat): (z: string)
    ensures |z| <= |s| && z == s[..|z|]
    ensures forall i :: 0 <= i < |z| ==> IsDigitIn(z[i], radix)
    ensures |z| < |s| ==> !IsDigitIn(s[|z|], radix)
  {
    if |s| > 0 && IsDigitIn(s[0], radix) then [s[0]] + DigitPrefix(s[1..], radix) else []
  }

  /** The number that a string of digits denotes in the given radix. */
  function DigitsValue(z: string, radix: nat): nat {
    if z == [] then 0
    else DigitsValue(z[..|z| - 1], radix) * radix + DigitValue(z[|z| - 1]).GetOr(0)
  }

  /** `parseInt(s)` of ECMA-262 section 19.2.5 with the radix left out:
      skip leading white space, read an optional sign, switch to radix 16
      after a `0x` or `0X` prefix, then read the longest run of digits.
      `None` stands for `NaN`, the result when there is no digit at all. */
  function ParseInt(s: string): Option<int> {
    ParseSigned(TrimStart(s))
  }

  /** The optional sign, then the magnitude. */
  function ParseSigned(t: string): Option<int> {
    if |t| > 0 && t[0] == '-' then
      match ParseMagnitude(t[1..])
      case None => None
      case Some(m) => Some(0 - m)
    else if |t| > 0 && t[0] == '+' then ParseMagnitude(t[1..])
    else ParseMagnitude(t)
  }

  /** The radix prefix, then the digits. */
  function ParseMagnitude(u: string): Option<nat> {
    if |u| >= 2 && u[0] == '0' && (u[1] == 'x' || u[1] == 'X') then ParseDigits(u[2..], 16)
    else ParseDigits(u, 10)
  }

  /** The value of the longest run of digits at the start of `v`. */
  function ParseDigits(v: string, radix: nat): Option<nat> {
    var z := DigitPrefix(v, radix);
    if z == [] then None else Some(DigitsValue(z, radix))
  }

  // ---------------------------------------------------------------------
  // Properties

  /** The rendering of a number consists of decimal digits only. */
  lemma {:induction false} NatToStringDigits(n: nat)
    ensures forall i :: 0 <= i < |NatToString(n)| ==> IsDigitIn(NatToString(n)[i], 10)
    ensures NatToString(n)[0] == '0' ==> n == 0
    decreases n
  {
    if n >= 10 {
      NatToStringDigits(n / 10);
    }
  }

  /** Reading back a rendering gives the number: `DigitsValue` inverts
      `NatToString`. */
  lemma {:induction false} DigitsValueOfNatToString(n: nat)
    ensures NatToStringDigitsOk(n) && DigitsValue(NatToString(n), 10) == n
    decreases n
  {
    NatToStringDigits(n);
    var s := NatToString(n);
    var prefix := if n < 10 then [] else NatToString(n / 10);
    assert s == prefix + [DigitChar(n % 10)];
    assert s[..|s| - 1] == prefix;
    if n >= 10 {
      DigitsValueOfNatToString(n / 10);
    }
  }

  ghost predicate NatToStringDigitsOk(n: nat) {
    forall i :: 0 <= i < |NatToString(n)| ==> IsDigitIn(NatToString(n)[i], 10)
  }

  /** The digit prefix of a run of digits followed by a non-digit is the run. */
  lemma {:induction false} DigitPrefixOfDigits(z: string, rest: string, radix: nat)
    requires forall i :: 0 <= i < |z| ==> IsDigitIn(z[i], radix)
    requires rest == [] || !IsDigitIn(rest[0], radix)
    ensures DigitPrefix(z + rest, radix) == z
  {
    if z != [] {
      assert (z + rest)[0] == z[0];
      assert (z + rest)[1..] == z[1..] + rest;
      DigitPrefixOfDigits(z[1..], rest, radix);
    } else {
      assert z + rest == rest;
    }
  }

  /** `parseInt` reads back the decimal rendering of a number, and stops at
      the first character that is not a digit, so that `"12abc"` gives 12.
      After a lone `0`, an `x` or `X` would start a hexadecimal number
      instead, so the lemma excludes it. */
  lemma ParseIntOfRendering(n: nat, rest: string)
    requires rest == [] || !IsDigitIn(rest[0], 10)
    requires n == 0 && |rest| > 0 ==> rest[0] != 'x' && rest[0] != 'X'
    ensures ParseInt(NatToString(n) + rest) == Some(n)
  {
    MagnitudeOfRendering(n, rest);
    ParseIntOfDigitStart(NatToString(n) + rest);
  }

  /** A string that starts with a digit has neither white space nor a sign
      to skip. */
  lemma ParseIntOfDigitStart(s: string)
    requires |s| > 0 && IsDigitIn(s[0], 10)
    ensures ParseInt(s) == ParseMagnitude(s)
  {
    assert !IsStrWhiteSpace(s[0]);
    assert TrimStart(s) == s;
  }

  /** The magnitude part of the lemma above. */
  lemma MagnitudeOfRendering(n: nat, rest: string)
    requires rest == [] || !IsDigitIn(rest[0], 10)
    requires n == 0 && |rest| > 0 ==> rest[0] != 'x' && rest[0] != 'X'
    ensures var s := NatToString(n) + rest;
      IsDigitIn(s[0], 10) && ParseMagnitude(s) == Some(n)
  {
    var z := NatToString(n);
    NatToStringDigits(n);
    DigitsValueOfNatToString(n);
    if n == 0 {
      assert z == ['0'];
    }
    MagnitudeOfDigits(z, rest);
  }

  /** A decimal number without a leading `0x` is read as decimal digits up
      to the first non-digit. */
  lemma MagnitudeOfDigits(z: string, rest: string)
    requires |z| > 0 && forall i :: 0 <= i < |z| ==> IsDigitIn(z[i], 10)
    requires rest == [] || !IsDigitIn(rest[0], 10)
    requires z[0] == '0' ==> |z| == 1 && (|rest| > 0 ==> rest[0] != 'x' && rest[0] != 'X')
    ensures var s := z + rest;
      IsDigitIn(s[0], 10) && ParseMagnitude(s) == Some(DigitsValue(z, 10))
  {
    var s := z + rest;
    assert s[0] == z[0];
    assert |s| >= 2 && s[0] == '0' ==> s[1] == rest[0];
    assert ParseMagnitude(s) == ParseDigits(s, 10);
    DigitPrefixOfDigits(z, rest, 10);
  }

  /** A leading minus sign negates the number read. */
  lemma ParseIntOfNegativeRendering(n: nat)
    ensures ParseInt("-" + NatToString(n)) == Some(0 - n)
  {
    var z := NatToString(n);
    MagnitudeOfRendering(n, []);
    assert z + [] == z;
    ParseIntOfMinus(z, n);
  }

  /** A leading minus sign, with nothing before it, negates the magnitude. */
  lemma ParseIntOfMinus(u: string, m: nat)
    requires ParseMagnitude(u) == Some(m)
    ensures ParseInt("-" + u) == Some(0 - m)
  {
    var s := "-" + u;
    assert s[0] == '-';
    assert TrimStart(s) == s;
    assert s[1..] == u;
  }

  /** Leading white space does not change what `parseInt` reads. */
  lemma ParseIntSkipsWhiteSpace(c: char, s: string)
    requires IsStrWhiteSpace(c)
    ensures ParseInt([c] + s) == ParseInt(s)
  {
    assert ([c] + s)[1..] == s;
  }

  /** A `0x` or `0X` prefix switches to hexadecimal: the hexadecimal
      digits that follow are read up to the first character that is not
      one, and a prefix with no digit after it is `NaN`. */
  lemma ParseIntOfHex(x: char, z: string, rest: string)
    requires x == 'x' || x == 'X'
    requires forall i :: 0 <= i < |z| ==> IsDigitIn(z[i], 16)
    requires rest == [] || !IsDigitIn(rest[0], 16)
    ensures ParseInt(['0', x] + z + rest) == if z == [] then None else Some(DigitsValue(z, 16))
  {
    assert ['0', x] + z + rest == ['0', x] + (z + rest);
    ParseIntOfHexPrefix(x, z + rest);
    DigitPrefixOfDigits(z, rest, 16);
  }

  /** After `0x`, `parseInt` reads hexadecimal digits. */
  lemma ParseIntOfHexPrefix(x: char, v: string)
    requires x == 'x' || x == 'X'
    ensures ParseInt(['0', x] + v) == ParseDigits(v, 16)
  {
    var s := ['0', x] + v;
    assert s[0] == '0' && s[1] == x && s[2..] == v;
    assert TrimStart(s) == s;
  }

  /** A string whose first character is neither white space, a sign nor a
      decimal digit is `NaN`, as `"abc"` and `"undefined"` are. */
  lemma ParseIntOfNonNumber(s: string)
    requires |s| > 0 && !IsStrWhiteSpace(s[0]) && s[0] != '-' && s[0] != '+'
    requires !IsDigitIn(s[0], 10)
    ensures ParseInt(s) == None
  {
    assert TrimStart(s) == s;
    assert ParseMagnitude(s) == ParseDigits(s, 10);
  }
}
