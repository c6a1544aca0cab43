/**
 * Decimal text of integers, as JavaScript's `Number.prototype.toString` writes
 * it and as `parseInt(text, 10)` reads it.
 */
module Decimal {

  /** The class `\d` of a JavaScript regular expression without the `u` flag. */
  predicate IsDigit(c: char) {
    '0' <= c <= '9'
  }

  /** The whole string matches `/^\d*$/`; the empty string does too. */
  predicate IsDigits(s: string) {
    forall i :: 0 <= i < |s| ==> IsDigit(s[i])
  }

  function DigitValue(c: char): (d: nat)
    requires IsDigit(c)
    ensures d < 10
  {
    c as int - '0' as int
  }

  function DigitChar(d: nat): (c: char)
    requires d < 10
    ensures IsDigit(c) && DigitValue(c) == d
  {
    (d + '0' as int) as char
  }

  /** The number a digit string denotes in base 10 (the empty string denotes 0). */
  function DigitsValue(s: string): nat
    requires IsDigits(s)
  {
    if s == [] then 0 else DigitsValue(s[..|s| - 1]) * 10 + DigitValue(s[|s| - 1])
  }

  /** `(n).toString()` for a natural number: non-empty, all digits, no leading zero. */
  function NatToString(n: nat): (s: string)
    ensures s != [] && IsDigits(s)
    ensures n > 0 ==> s[0] != '0'
  {
    if n < 10 then [DigitChar(n)] else NatToString(n / 10) + [DigitChar(n % 10)]
  }

  /** `(n).toString()` for an integer: a minus sign before the magnitude when negative. */
  function IntToString(n: int): (s: string)
    ensures s != []
    ensures IsDigits(s) <==> n >= 0
    ensures n < 0 ==> s[0] == '-'
  {
    if n < 0 then
      var s := "-" + NatToString(-n);
      assert !IsDigit(s[0]);
      s
    else
      NatToString(n)
  }

  /** Reading back the text `NatToString` writes gives the number again. */
  lemma {:induction false} DigitsValueOfNatToString(n: nat)
    ensures DigitsValue(NatToString(n)) == n
  {
    if n >= 10 {
      DigitsValueOfNatToString(n / 10);
      var s := NatToString(n);
      assert s[..|s| - 1] == NatToString(n / 10);
    }
  }

  /** What `parseInt` returns: an integer, or NaN when no digit follows the optional sign. */
  datatype Parsed = Int(value: int) | NaN

  /**
   * The characters `parseInt` skips before the number: the white space and
   * line terminators of ECMAScript (StrWhiteSpaceChar), by code point.
   */
  predicate IsWhitespace(c: char) {
    var u := c as int;
    u == 0x09 || u == 0x0A || u == 0x0B || u == 0x0C || u == 0x0D || u == 0x20
    || u == 0xA0 || u == 0x1680 || (0x2000 <= u <= 0x200A) || u == 0x2028
    || u == 0x2029 || u == 0x202F || u == 0x205F || u == 0x3000 || u == 0xFEFF
  }

  /** The string without its leading white space. */
  function SkipWhitespace(s: string): (r: string)
    ensures |r| <= |s| && r == s[|s| - |r|..]
    ensures r == [] || !IsWhitespace(r[0])
  {
    if s != [] && IsWhitespace(s[0]) then SkipWhitespace(s[1..]) else s
  }

  /** The length of the longest prefix of `s` made of digits. */
  function DigitRun(s: string): (n: nat)
    ensures n <= |s| && IsDigits(s[..n])
    ensures n < |s| ==> !IsDigit(s[n])
  {
    if s != [] && IsDigit(s[0]) then
      var k := DigitRun(s[1..]);
      assert s[..k + 1] == [s[0]] + s[1..][..k];
      k + 1
    else
      0
  }

  /**
   * `parseInt(s, 10)`: skip leading white space, take an optional `+` or `-`,
   * then the longest run of digits; everything after that run is ignored, and
   * an empty run gives NaN.
   */
  function ParseInt(s: string): Parsed {
    var t := SkipWhitespace(s);
    var negative := t != [] && t[0] == '-';
    var unsigned := if t != [] && (t[0] == '-' || t[0] == '+') then t[1..] else t;
    var n := DigitRun(unsigned);
    var magnitude: int := DigitsValue(unsigned[..n]);
    if n == 0 then NaN
    else if negative then Int(-magnitude)
    else Int(magnitude)
  }

  /** A run of digits followed by anything that does not start with a digit
      parses as the run's value: "12abc" gives 12. */
  lemma {:induction false} ParseIntDigitPrefix(digits: string, rest: string)
    requires digits != [] && IsDigits(digits)
    requires rest == [] || !IsDigit(rest[0])
    ensures ParseInt(digits + rest) == Int(DigitsValue(digits))
  {
    var s := digits + rest;
    NoWhitespaceToSkip(s);
    DigitRunOfPrefix(digits, rest);
    assert s[..|digits|] == digits;
  }

  lemma NoWhitespaceToSkip(s: string)
    requires s != [] && IsDigit(s[0])
    ensures SkipWhitespace(s) == s
  {
  }

  lemma {:induction false} DigitRunOfPrefix(digits: string, rest: string)
    requires IsDigits(digits)
    requires rest == [] || !IsDigit(rest[0])
    ensures DigitRun(digits + rest) == |digits|
  {
    if digits != [] {
      assert (digits + rest)[1..] == digits[1..] + rest;
      DigitRunOfPrefix(digits[1..], rest);
    }
  }

  /** `parseInt` reads a non-empty digit string as its decimal value. */
  lemma {:induction false} ParseIntDigits(digits: string)
    requires digits != [] && IsDigits(digits)
    ensures ParseInt(digits) == Int(DigitsValue(digits))
  {
    ParseIntDigitPrefix(digits, []);
    assert digits + [] == digits;
  }

  /** `parseInt("")` is NaN, and so is any text without a digit after the sign. */
  lemma ParseIntEmpty()
    ensures ParseInt("") == NaN
    ensures ParseInt(" ") == NaN
    ensures ParseInt("-") == NaN
  {
    assert SkipWhitespace(" ") == [];
  }

  /** Reading back the text `IntToString` writes gives the integer again. */
  lemma {:induction false} ParseIntOfIntToString(n: int)
    ensures ParseInt(IntToString(n)) == Int(n)
  {
    if n < 0 {
      var m := NatToString(-n);
      var s := "-" + m;
      assert s[0] == '-' && !IsWhitespace(s[0]);
      assert SkipWhitespace(s) == s;
      assert s[1..] == m;
      DigitRunOfPrefix(m, []);
      assert m + [] == m;
      assert m[..|m|] == m;
      DigitsValueOfNatToString(-n);
    } else {
      ParseIntDigits(NatToString(n));
      DigitsValueOfNatToString(n);
    }
  }
}
