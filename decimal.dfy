/**
 * The session deadline is stored as text: written with
 * `(Date.now() + SESSION_TIMEOUT).toString()` and read back with
 * `parseInt(expiry)`. This module gives both conversions for integer values,
 * following Number::toString and the global parseInt function of the
 * ECMAScript Language Specification (section 19.2.5, radix argument absent).
 */
module Decimal {
  import opened Wrappers

  /** WhiteSpace and LineTerminator code points, which parseInt skips at the start. */
  predicate IsWhiteSpace(c: char) {
    c == '\t' || c == '\U{000B}' || c == '\U{000C}' || c == ' ' || c == '\U{00A0}' || c == '\U{FEFF}'
    || c == '\n' || c == '\r' || c == '\U{2028}' || c == '\U{2029}'
    || c == '\U{1680}' || ('\U{2000}' <= c <= '\U{200A}') || c == '\U{202F}' || c == '\U{205F}' || c == '\U{3000}'
  }

  /** The index of the first character at or after `i` that is not white space. */
  function SpaceEnd(s: string, i: nat): (j: nat)
    requires i <= |s|
    ensures i <= j <= |s|
    ensures forall k :: i <= k < j ==> IsWhiteSpace(s[k])
    ensures j == |s| || !IsWhiteSpace(s[j])
    decreases |s| - i
  {
    if i < |s| && IsWhiteSpace(s[i]) then SpaceEnd(s, i + 1) else i
  }

  /** The string with its leading white space removed (TrimString with `start`). */
  function TrimStart(s: string): (r: string)
    ensures |r| <= |s| && r == s[|s| - |r|..]
    ensures r == [] || !IsWhiteSpace(r[0])
    ensures forall i :: 0 <= i < |s| - |r| ==> IsWhiteSpace(s[i])
  {
    s[SpaceEnd(s, 0)..]
  }

  /** The value of `c` as a digit in base `radix` (10 or 16), if it is one. */
  function Digit(c: char, radix: nat): (r: Option<nat>)
    ensures r.Some? ==> r.value < radix
  {
    var v :=
      if '0' <= c <= '9' then c as int - '0' as int
      else if 'a' <= c <= 'z' then c as int - 'a' as int + 10
      else if 'A' <= c <= 'Z' then c as int - 'A' as int + 10
      else 36;
    if v < radix then Some(v) else None
  }

  predicate AllDigits(s: string, radix: nat) {
    forall i :: 0 <= i < |s| ==> Digit(s[i], radix).Some?
  }

  /** The index of the first character at or after `i` that is not a base-`radix` digit. */
  function DigitEnd(s: string, i: nat, radix: nat): (j: nat)
    requires i <= |s|
    ensures i <= j <= |s|
    ensures forall k :: i <= k < j ==> Digit(s[k], radix).Some?
    ensures j == |s| || Digit(s[j], radix).None?
    decreases |s| - i
  {
    if i < |s| && Digit(s[i], radix).Some? then DigitEnd(s, i + 1, radix) else i
  }

  /** The longest prefix of `s` made of base-`radix` digits. */
  function DigitPrefix(s: string, radix: nat): (r: string)
    ensures r <= s && AllDigits(r, radix)
    ensures |r| < |s| ==> Digit(s[|r|], radix).None?
  {
    s[..DigitEnd(s, 0, radix)]
  }

  /** The number that the digits `z` denote in base `radix`. */
  function ValueOf(z: string, radix: nat): nat
    requires AllDigits(z, radix)
  {
    if z == [] then 0 else ValueOf(z[..|z| - 1], radix) * radix + Digit(z[|z| - 1], radix).value
  }

  /**
   * `parseInt(s)`: skip leading white space, take an optional sign, switch to
   * base 16 after a `0x` or `0X` prefix, and read the longest run of digits;
   * no digit at all is NaN (`None`). Whatever follows the digits is ignored.
   */
  function ParseInt(s: string): Option<int> {
    ParseSigned(TrimStart(s))
  }

  /** parseInt after the white space: an optional sign, then the magnitude. */
  function ParseSigned(t: string): Option<int> {
    var u := if t != [] && (t[0] == '-' || t[0] == '+') then t[1..] else t;
    match ParseMagnitude(u)
    case None => None
    case Some(m) =>
      var value: int := if t != [] && t[0] == '-' then -(m as int) else m;
      Some(value)
  }

  /** parseInt after the sign: the `0x` prefix, then the longest run of digits. */
  function ParseMagnitude(u: string): Option<nat> {
    var hex := |u| >= 2 && u[0] == '0' && (u[1] == 'x' || u[1] == 'X');
    var radix := if hex then 16 else 10;
    var z := DigitPrefix(if hex then u[2..] else u, radix);
    if z == [] then None else Some(ValueOf(z, radix))
  }

  function DigitChar(d: nat): (c: char)
    requires d < 10
    ensures Digit(c, 10) == Some(d)
  {
    ('0' as int + d) as char
  }

  /** Decimal digits of `n`, most significant first, without leading zeros. */
  function ShowNat(n: nat): (s: string)
    ensures s != [] && AllDigits(s, 10)
    ensures |s| > 1 ==> s[0] != '0'
    ensures s[0] == '0' ==> n == 0
  {
    if n < 10 then [DigitChar(n)] else ShowNat(n / 10) + [DigitChar(n % 10)]
  }

  /** `n.toString()` for an integer value `n`. */
  function Show(n: int): (s: string)
    ensures s != [] && (s[0] == '-' <==> n < 0)
    ensures AllDigits(if n < 0 then s[1..] else s, 10)
  {
    if n < 0 then "-" + ShowNat(-n) else ShowNat(n)
  }

  lemma {:induction false} ShowNatValue(n: nat)
    ensures ValueOf(ShowNat(n), 10) == n
  {
    if n >= 10 {
      var s := ShowNat(n);
      assert s[..|s| - 1] == ShowNat(n / 10);
      ShowNatValue(n / 10);
    }
  }

  /**
   * Text without a single decimal digit parses to NaN: a deadline entry
   * like that compares false with every time, so it never expires.
   */
  lemma ParseIntNoDigits(s: string)
    requires forall i :: 0 <= i < |s| ==> Digit(s[i], 10).None?
    ensures ParseInt(s) == None
  {
  }

  /**
   * parseInt stops at the first character that is not a digit: text written
   * by toString followed by anything that does not extend the number still
   * parses to that number.
   */
  lemma ParseIgnoresTrailing(n: int, rest: string)
    requires rest == [] || Digit(rest[0], 10).None?
    requires n == 0 && rest != [] ==> rest[0] != 'x' && rest[0] != 'X'
    ensures ParseInt(Show(n) + rest) == Some(n)
  {
    if n < 0 {
      ParseNegativeTrailing(n, rest);
    } else {
      ParseNonNegativeTrailing(n, rest);
    }
  }

  /** ParseIgnoresTrailing for a negative number, written with a minus sign. */
  lemma ParseNegativeTrailing(n: int, rest: string)
    requires n < 0
    requires rest == [] || Digit(rest[0], 10).None?
    ensures ParseInt(Show(n) + rest) == Some(n)
  {
    var digits := ShowNat(-n);
    ShowNatValue(-n);
    MagnitudeOfDecimal(digits, rest);
    ParseMinus(digits + rest, -n);
    SignSplit(digits, rest);
  }

  /**
   * Appending to signed text appends to its digits. Stated on its own so that it
   * is proved without the digit facts that ParseNegativeTrailing has in scope.
   */
  lemma SignSplit(digits: string, rest: string)
    ensures "-" + digits + rest == "-" + (digits + rest)
  {
  }

  /** ParseIgnoresTrailing for a number written without a sign. */
  lemma ParseNonNegativeTrailing(n: nat, rest: string)
    requires rest == [] || Digit(rest[0], 10).None?
    requires n == 0 && rest != [] ==> rest[0] != 'x' && rest[0] != 'X'
    ensures ParseInt(Show(n) + rest) == Some(n)
  {
    var digits := ShowNat(n);
    ShowNatValue(n);
    MagnitudeOfDecimal(digits, rest);
    var t := Show(n) + rest;
    assert t == digits + rest && t[0] == digits[0];
    DigitNotSign(digits[0]);
    ParseUnsigned(t, n);
  }

  /** Text that starts with neither white space nor a sign parses to its magnitude. */
  lemma ParseUnsigned(t: string, k: nat)
    requires t != [] && !IsWhiteSpace(t[0]) && t[0] != '-' && t[0] != '+'
    requires ParseMagnitude(t) == Some(k)
    ensures ParseInt(t) == Some(k)
  {
    assert SpaceEnd(t, 0) == 0;
    assert TrimStart(t) == t;
  }

  /** A minus sign in front of a magnitude negates it. */
  lemma ParseMinus(u: string, k: nat)
    requires ParseMagnitude(u) == Some(k)
    ensures ParseInt("-" + u) == Some(-(k as int))
  {
    var t := "-" + u;
    assert t[0] == '-' && t[1..] == u;
    assert SpaceEnd(t, 0) == 0;
    assert TrimStart(t) == t;
  }

  /** The magnitude of decimal digits followed by a non-digit tail is their value. */
  lemma MagnitudeOfDecimal(digits: string, rest: string)
    requires digits != [] && AllDigits(digits, 10)
    requires rest == [] || Digit(rest[0], 10).None?
    requires digits[0] == '0' ==> |digits| == 1 && (rest == [] || (rest[0] != 'x' && rest[0] != 'X'))
    ensures ParseMagnitude(digits + rest) == Some(ValueOf(digits, 10))
  {
    var u := digits + rest;
    assert u[0] == digits[0];
    assert !(|u| >= 2 && u[0] == '0' && (u[1] == 'x' || u[1] == 'X')) by {
      if u[0] == '0' && |u| >= 2 {
        assert u[1] == rest[0];
      }
    }
    DigitPrefixStops(digits, rest);
  }

  /** A decimal digit is neither white space nor a sign (proved apart from any text). */
  lemma DigitNotSign(c: char)
    requires Digit(c, 10).Some?
    ensures !IsWhiteSpace(c) && c != '-' && c != '+'
  {
  }

  /** The digit run of `digits + rest` ends where `rest` starts with a non-digit. */
  lemma DigitPrefixStops(digits: string, rest: string)
    requires AllDigits(digits, 10)
    requires rest == [] || Digit(rest[0], 10).None?
    ensures DigitPrefix(digits + rest, 10) == digits
  {
    var u := digits + rest;
    var z := DigitPrefix(u, 10);
    assert forall i :: 0 <= i < |digits| ==> u[i] == digits[i];
    assert |u| > |digits| ==> u[|digits|] == rest[0];
    assert |z| == |digits|;
  }

  /** parseInt reads back exactly the integer that toString wrote. */
  lemma ParseShow(n: int)
    ensures ParseInt(Show(n)) == Some(n)
  {
    ParseIgnoresTrailing(n, []);
    assert Show(n) + [] == Show(n);
  }
}
