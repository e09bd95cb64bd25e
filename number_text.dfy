/** The two conversions between numbers and text that the rack code relies
    on: `parseInt(text)` with no radix (ECMAScript section 19.2.5), which reads
    the rack-size input and the catalog's size strings, and `Number#toString`
    on an integer, which writes the size input, the image labels and the
    generated ids. `NaN` is `None`. */
module NumberText {
  import opened Wrappers

  /** StrWhiteSpaceChar of ECMAScript: WhiteSpace (TAB, VT, FF, ZWNBSP and the
      Unicode Zs space separators) and LineTerminator (LF, CR, LS, PS). */
  predicate IsWhiteSpace(c: char) {
    c == '\t' || c == '\n' || c == '\U{000B}' || c == '\U{000C}' || c == '\r' ||
    c == ' ' || c == '\U{00A0}' || c == '\U{1680}' ||
    ('\U{2000}' <= c <= '\U{200A}') ||
    c == '\U{2028}' || c == '\U{2029}' || c == '\U{202F}' || c == '\U{205F}' ||
    c == '\U{3000}' || c == '\U{FEFF}'
  }

  /** The string with its leading white space removed. */
  function TrimStart(s: string): (r: string)
    ensures |r| <= |s| && r == s[|s| - |r|..]
    ensures r == [] || !IsWhiteSpace(r[0])
  {
    if s != [] && IsWhiteSpace(s[0]) then TrimStart(s[1..]) else s
  }

  predicate IsDecimalDigit(c: char) {
    '0' <= c <= '9'
  }

  /** A digit of radix 10 or radix 16 (either case), the only two radixes
      `parseInt` picks when it is given none. */
  predicate IsRadixDigit(c: char, radix: int) {
    IsDecimalDigit(c) || (radix == 16 && ('a' <= c <= 'f' || 'A' <= c <= 'F'))
  }

  function DigitValue(c: char): (d: nat)
    ensures IsDecimalDigit(c) ==> d < 10
    ensures IsRadixDigit(c, 16) ==> d < 16
  {
    if IsDecimalDigit(c) then (c as int) - ('0' as int)
    else if 'a' <= c <= 'f' then (c as int) - ('a' as int) + 10
    else if 'A' <= c <= 'F' then (c as int) - ('A' as int) + 10
    else 0
  }

  /** The length of the longest prefix of `s` made of radix digits. */
  function DigitPrefixLength(s: string, radix: int): (k: nat)
    ensures k <= |s|
    ensures forall i :: 0 <= i < k ==> IsRadixDigit(s[i], radix)
    ensures k == |s| || !IsRadixDigit(s[k], radix)
  {
    if s == [] || !IsRadixDigit(s[0], radix) then 0
    else 1 + DigitPrefixLength(s[1..], radix)
  }

  /** The number a string of digits denotes in the given radix. */
  function DigitsValue(digits: string, radix: nat): nat {
    if digits == [] then 0
    else DigitsValue(digits[..|digits| - 1], radix) * radix + DigitValue(digits[|digits| - 1])
  }

  /** The unsigned part of `parseInt`: radix 16 after a `0x` or `0X` prefix,
      radix 10 otherwise, then the longest run of digits; no digit gives `NaN`. */
  function ParseMagnitude(u: string): Option<nat> {
    var hex := |u| >= 2 && u[0] == '0' && (u[1] == 'x' || u[1] == 'X');
    var radix := if hex then 16 else 10;
    var w := if hex then u[2..] else u;
    var k := DigitPrefixLength(w, radix);
    if k == 0 then None else Some(DigitsValue(w[..k], radix))
  }

  /** `parseInt(s)`: skip leading white space, read an optional sign, then
      the magnitude. */
  function ParseInt(s: string): Option<int> {
    var t := TrimStart(s);
    if t != [] && t[0] == '-' then
      match ParseMagnitude(t[1..])
      case None => None
      case Some(m) => Some(-(m as int))
    else if t != [] && t[0] == '+' then ParseMagnitude(t[1..])
    else ParseMagnitude(t)
  }

  function DigitChar(d: nat): (c: char)
    requires d < 10
    ensures IsDecimalDigit(c) && DigitValue(c) == d
  {
    (d + '0' as int) as char
  }

  /** Decimal digits of a natural number, without leading zeros. */
  function NatToString(n: nat): (s: string)
    ensures s != []
    ensures forall i :: 0 <= i < |s| ==> IsDecimalDigit(s[i])
  {
    if n < 10 then [DigitChar(n)] else NatToString(n / 10) + [DigitChar(n % 10)]
  }

  /** `String(n)` for an integer `n`. */
  function IntToString(n: int): (s: string)
    ensures s != [] && (s[0] == '-' || IsDecimalDigit(s[0]))
  {
    if n < 0 then "-" + NatToString(-n) else NatToString(n)
  }

  /** What may follow a number's text without changing what `parseInt` reads:
      nothing, or a character that is neither a digit nor the `x` of a hex prefix. */
  predicate EndsNumber(rest: string) {
    rest == [] || (!IsDecimalDigit(rest[0]) && rest[0] != 'x' && rest[0] != 'X')
  }

  lemma {:induction false} DigitsValueOfNatToString(n: nat)
    ensures DigitsValue(NatToString(n), 10) == n
  {
    var s := NatToString(n);
    if n >= 10 {
      DigitsValueOfNatToString(n / 10);
      assert s[..|s| - 1] == NatToString(n / 10);
    }
  }

  lemma {:induction false} DigitPrefixOfDigits(d: string, rest: string)
    requires forall i :: 0 <= i < |d| ==> IsDecimalDigit(d[i])
    requires EndsNumber(rest)
    ensures DigitPrefixLength(d + rest, 10) == |d|
  {
    if d != [] {
      assert (d + rest)[1..] == d[1..] + rest;
      DigitPrefixOfDigits(d[1..], rest);
    }
  }

  lemma MagnitudeOfDigits(d: string, rest: string)
    requires d != [] && forall i :: 0 <= i < |d| ==> IsDecimalDigit(d[i])
    requires EndsNumber(rest)
    ensures ParseMagnitude(d + rest) == Some(DigitsValue(d, 10))
  {
    var u := d + rest;
    assert !(|u| >= 2 && u[0] == '0' && (u[1] == 'x' || u[1] == 'X')) by {
      if |d| >= 2 { assert u[1] == d[1]; } else if |u| >= 2 { assert u[1] == rest[0]; }
    }
    DigitPrefixOfDigits(d, rest);
    assert u[..|d|] == d;
  }

  /** Text that starts with a digit is read without sign and without skipping. */
  lemma ParseIntOfUnsigned(t: string)
    requires t != [] && IsDecimalDigit(t[0])
    ensures ParseInt(t) == ParseMagnitude(t)
  {
    assert !IsWhiteSpace(t[0]);
  }

  /** Text that starts with `-` then a magnitude is read as that magnitude negated. */
  lemma ParseIntOfNegative(t: string, m: nat)
    requires t != [] && t[0] == '-' && ParseMagnitude(t[1..]) == Some(m)
    ensures ParseInt(t) == Some(-(m as int))
  {
    assert !IsWhiteSpace(t[0]);
    assert TrimStart(t) == t;
  }

  /** The text of a natural number reads back as that number. */
  lemma ParseIntOfNatText(m: nat, rest: string)
    requires EndsNumber(rest)
    ensures ParseInt(NatToString(m) + rest) == Some(m)
  {
    var d := NatToString(m);
    MagnitudeOfDigits(d, rest);
    DigitsValueOfNatToString(m);
    ParseIntOfUnsigned(d + rest);
  }

  /** A minus sign before the text of a natural number negates it. */
  lemma ParseIntOfNegatedText(m: nat, rest: string)
    requires EndsNumber(rest)
    ensures ParseInt("-" + NatToString(m) + rest) == Some(-(m as int))
  {
    var d := NatToString(m);
    var s := "-" + d + rest;
    assert s[1..] == d + rest;
    MagnitudeOfDigits(d, rest);
    DigitsValueOfNatToString(m);
    ParseIntOfNegative(s, m);
  }

  /** `parseInt` reads back the integer `String(n)` wrote, and stops at
      whatever text follows it. */
  lemma ParseIntOfIntToString(n: int, rest: string)
    requires EndsNumber(rest)
    ensures ParseInt(IntToString(n) + rest) == Some(n)
  {
    if n < 0 {
      ParseIntOfNegatedText(-n, rest);
    } else {
      ParseIntOfNatText(n, rest);
    }
  }

  lemma ParseIntOfIntToStringAlone(n: int)
    ensures ParseInt(IntToString(n)) == Some(n)
  {
    ParseIntOfIntToString(n, []);
    assert IntToString(n) + [] == IntToString(n);
  }

  /** Distinct integers have distinct texts. */
  lemma IntToStringInjective(i: int, j: int)
    requires IntToString(i) == IntToString(j)
    ensures i == j
  {
    ParseIntOfIntToStringAlone(i);
    ParseIntOfIntToStringAlone(j);
  }
}
