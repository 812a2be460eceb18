/**
  The ECMAScript global function `parseInt(string)` called with no radix, as
  the quantity handler uses it: skip leading white space, read an optional
  sign, switch to base 16 after a `0x`/`0X` prefix (base 10 otherwise), and
  read the longest run of digits of that base. No digit at all is NaN,
  modelled here as `None`.
 */
module JsParseInt {

  datatype Option<+T> = None | Some(value: T)

  /** StrWhiteSpaceChar: the WhiteSpace code points (TAB, VT, FF, ZWNBSP and
      every space separator) and the LineTerminator code points. */
  predicate IsStrWhiteSpace(c: char) {
    || c == '\t' || c == '\U{000B}' || c == '\U{000C}' || c == '\U{FEFF}'
    || c == ' ' || c == '\U{00A0}' || c == '\U{1680}'
    || ('\U{2000}' <= c && c <= '\U{200A}')
    || c == '\U{202F}' || c == '\U{205F}' || c == '\U{3000}'
    || c == '\n' || c == '\r' || c == '\U{2028}' || c == '\U{2029}'
  }

  /** The value of `c` as a digit of any base up to 36 (`0`-`9`, then `a`-`z`
      in either case); 36 for a character that is a digit of no base. */
  function DigitValue(c: char): (d: nat)
    ensures d <= 36
    ensures d < 10 <==> '0' <= c <= '9'
  {
    if '0' <= c <= '9' then c as int - '0' as int
    else if 'a' <= c <= 'z' then c as int - 'a' as int + 10
    else if 'A' <= c <= 'Z' then c as int - 'A' as int + 10
    else 36
  }

  predicate IsDigit(c: char, radix: nat) {
    DigitValue(c) < radix
  }

  /** `s` without its leading white space. */
  function TrimStart(s: string): (t: string)
    ensures |t| <= |s| && t == s[|s| - |t|..]
    ensures forall k :: 0 <= k < |s| - |t| ==> IsStrWhiteSpace(s[k])
    ensures |t| == 0 || !IsStrWhiteSpace(t[0])
  {
    if |s| > 0 && IsStrWhiteSpace(s[0]) then TrimStart(s[1..]) else s
  }

  /** The longest prefix of `s` made of digits of base `radix`. */
  function LeadingDigits(s: string, radix: nat): (z: string)
    ensures z <= s
    ensures forall k :: 0 <= k < |z| ==> IsDigit(z[k], radix)
    ensures |z| == |s| || !IsDigit(s[|z|], radix)
  {
    if |s| == 0 || !IsDigit(s[0], radix) then [] else [s[0]] + LeadingDigits(s[1..], radix)
  }

  /** The number a digit string denotes in base `radix`, most significant digit first. */
  function DigitsValue(z: string, radix: nat): nat {
    if |z| == 0 then 0 else DigitsValue(z[..|z| - 1], radix) * radix + DigitValue(z[|z| - 1])
  }

  predicate HasHexPrefix(u: string) {
    |u| >= 2 && u[0] == '0' && (u[1] == 'x' || u[1] == 'X')
  }

  /** `parseInt(s)`: `None` stands for NaN. */
  function ParseIntPrefix(s: string): Option<int> {
    ParseSigned(TrimStart(s))
  }

  /** The part of `parseInt` after the white space: an optional sign, then the magnitude. */
  function ParseSigned(t: string): Option<int> {
    if |t| > 0 && t[0] == '-' then
      match ParseMagnitude(t[1..])
      case None => None
      case Some(m) => Some(-m)
    else if |t| > 0 && t[0] == '+' then ParseMagnitude(t[1..])
    else ParseMagnitude(t)
  }

  /** An optional `0x`/`0X` prefix selecting base 16, then a run of digits. */
  function ParseMagnitude(u: string): Option<int> {
    if HasHexPrefix(u) then DigitRun(u[2..], 16) else DigitRun(u, 10)
  }

  /** The value of the leading run of base-`radix` digits; `None` when there is none. */
  function DigitRun(w: string, radix: nat): Option<int> {
    var z := LeadingDigits(w, radix);
    if |z| == 0 then None else Some(DigitsValue(z, radix))
  }

  // ---------------------------------------------------------------------------
  // The partner of the parser: the canonical decimal spelling of a number.

  function DigitChar(d: nat): (c: char)
    requires d < 10
    ensures DigitValue(c) == d
  {
    ('0' as int + d) as char
  }

  /** The canonical decimal numeral of `n`, with no leading zero. */
  function Decimal(n: nat): (s: string)
    ensures |s| >= 1
    ensures forall k :: 0 <= k < |s| ==> IsDigit(s[k], 10)
    ensures s[0] == '0' ==> n == 0
  {
    if n < 10 then [DigitChar(n)] else Decimal(n / 10) + [DigitChar(n % 10)]
  }

  lemma {:induction false} DecimalValue(n: nat)
    ensures DigitsValue(Decimal(n), 10) == n
  {
    var s := Decimal(n);
    if n < 10 {
      assert s[..|s| - 1] == [];
    } else {
      assert s[..|s| - 1] == Decimal(n / 10);
      DecimalValue(n / 10);
    }
  }

  /** A run of digits followed by a non-digit (or nothing) is read up to that non-digit. */
  lemma {:induction false} LeadingDigitsStop(z: string, rest: string, radix: nat)
    requires forall k :: 0 <= k < |z| ==> IsDigit(z[k], radix)
    requires |rest| == 0 || !IsDigit(rest[0], radix)
    ensures LeadingDigits(z + rest, radix) == z
  {
    if |z| > 0 {
      assert (z + rest)[1..] == z[1..] + rest;
      LeadingDigitsStop(z[1..], rest, radix);
    } else {
      assert z + rest == rest;
    }
  }

  /** A string that does not start with white space is parsed as it stands. */
  lemma NoLeadingSpace(s: string)
    requires |s| > 0 && !IsStrWhiteSpace(s[0])
    ensures ParseIntPrefix(s) == ParseSigned(s)
  {
  }

  /** A numeral followed by a non-digit has the numeral's value as its magnitude. */
  lemma MagnitudeOfDecimal(n: nat, rest: string)
    requires |rest| == 0 || !IsDigit(rest[0], 10)
    requires n == 0 ==> |rest| == 0 || (rest[0] != 'x' && rest[0] != 'X')
    ensures ParseMagnitude(Decimal(n) + rest) == Some(n)
  {
    var d := Decimal(n);
    var s := d + rest;
    assert !HasHexPrefix(s) by {
      if |d| == 1 && |rest| > 0 {
        assert s[1] == rest[0];
      }
    }
    LeadingDigitsStop(d, rest, 10);
    DecimalValue(n);
  }

  /** Decimal round trip: `parseInt` reads back the numeral of every natural
      number, and ignores whatever non-digit text follows it (except the `x`
      that would turn a lone `0` into a hexadecimal prefix). */
  lemma ParseDecimal(n: nat, rest: string)
    requires |rest| == 0 || !IsDigit(rest[0], 10)
    requires n == 0 ==> |rest| == 0 || (rest[0] != 'x' && rest[0] != 'X')
    ensures ParseIntPrefix(Decimal(n) + rest) == Some(n)
  {
    var s := Decimal(n) + rest;
    assert s[0] == Decimal(n)[0];
    NoLeadingSpace(s);
    MagnitudeOfDecimal(n, rest);
  }

  /** A minus sign before a numeral negates it. */
  lemma ParseNegativeDecimal(n: nat)
    ensures ParseIntPrefix("-" + Decimal(n)) == Some(-(n as int))
  {
    var d := Decimal(n);
    MagnitudeOfDecimal(n, []);
    assert d + [] == d;
    MinusSign(d, n);
  }

  /** A leading minus sign negates the magnitude that follows it. */
  lemma MinusSign(u: string, m: int)
    requires ParseMagnitude(u) == Some(m)
    ensures ParseIntPrefix(['-'] + u) == Some(-m)
  {
    var s := ['-'] + u;
    assert s[0] == '-' && s[1..] == u;
    NoLeadingSpace(s);
  }

  /** A leading plus sign leaves the magnitude that follows it unchanged. */
  lemma PlusSign(u: string, m: int)
    requires ParseMagnitude(u) == Some(m)
    ensures ParseIntPrefix(['+'] + u) == Some(m)
  {
    var s := ['+'] + u;
    assert s[0] == '+' && s[1..] == u;
    NoLeadingSpace(s);
  }

  /** Base 16 after a `0x`/`0X` prefix, in either letter case. */
  lemma HexExamples()
    ensures ParseIntPrefix("0x1A") == Some(26)
    ensures ParseIntPrefix("0X1a") == Some(26)
  {
    HexExample("0x1A", 'x', 'A');
    HexExample("0X1a", 'X', 'a');
  }

  /** The four characters `0`, `x` or `X`, `1`, `A` or `a` spell 26 in base 16. */
  lemma HexExample(s: string, x: char, a: char)
    requires x == 'x' || x == 'X'
    requires a == 'A' || a == 'a'
    requires s == ['0', x, '1', a]
    ensures ParseIntPrefix(s) == Some(26)
  {
    HexTwoDigits(x, '1', a);
  }

  /** A hex prefix followed by no hex digit is NaN. */
  lemma HexPrefixAlone(x: char, rest: string)
    requires x == 'x' || x == 'X'
    requires |rest| == 0 || !IsDigit(rest[0], 16)
    ensures ParseIntPrefix(['0', x] + rest) == None
  {
    var s := ['0', x] + rest;
    assert s[2..] == rest;
    HexRun(s, rest);
  }

  /** A hex prefix then two hex digits. */
  lemma HexTwoDigits(x: char, a: char, b: char)
    requires x == 'x' || x == 'X'
    requires IsDigit(a, 16) && IsDigit(b, 16)
    ensures ParseIntPrefix(['0', x, a, b]) == Some(DigitValue(a) * 16 + DigitValue(b))
  {
    var s := ['0', x, a, b];
    assert s[2..] == [a, b];
    HexRun(s, [a, b]);
    TwoHexDigitRun(a, b);
  }

  lemma TwoHexDigitRun(a: char, b: char)
    requires IsDigit(a, 16) && IsDigit(b, 16)
    ensures DigitRun([a, b], 16) == Some(DigitValue(a) * 16 + DigitValue(b))
  {
    var w := [a, b];
    LeadingDigitsStop(w, [], 16);
    assert w + [] == w;
    assert w[..1] == [a] && [a][..0] == [];
    assert DigitsValue([a], 16) == DigitValue(a);
  }

  /** Text that starts with a hex prefix is parsed as the base-16 run after it. */
  lemma HexRun(s: string, w: string)
    requires HasHexPrefix(s) && s[2..] == w
    ensures ParseIntPrefix(s) == DigitRun(w, 16)
  {
    NoLeadingSpace(s);
  }

  /** Leading white space never changes the result. */
  lemma ParseSkipsWhiteSpace(c: char, s: string)
    requires IsStrWhiteSpace(c)
    ensures ParseIntPrefix([c] + s) == ParseIntPrefix(s)
  {
    assert ([c] + s)[1..] == s;
    assert TrimStart([c] + s) == TrimStart(s);
  }

  /** Text with no decimal digit anywhere is NaN (the hexadecimal prefix
      itself starts with the digit `0`). */
  lemma NoDigitsIsNaN(s: string)
    requires forall k :: 0 <= k < |s| ==> !('0' <= s[k] <= '9')
    ensures ParseIntPrefix(s) == None
  {
    var t := TrimStart(s);
    assert forall k :: 0 <= k < |t| ==> t[k] == s[|s| - |t| + k];
    SignedWithoutDigits(t);
  }

  lemma SignedWithoutDigits(t: string)
    requires forall k :: 0 <= k < |t| ==> !('0' <= t[k] <= '9')
    ensures ParseSigned(t) == None
  {
    if |t| > 0 && (t[0] == '-' || t[0] == '+') {
      MagnitudeWithoutDigits(t[1..]);
    } else {
      MagnitudeWithoutDigits(t);
    }
  }

  lemma MagnitudeWithoutDigits(u: string)
    requires forall k :: 0 <= k < |u| ==> !('0' <= u[k] <= '9')
    ensures ParseMagnitude(u) == None
  {
    if |u| > 0 {
      assert !IsDigit(u[0], 10);
    }
  }
}
