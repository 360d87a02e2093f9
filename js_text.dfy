/** The few JavaScript string and number built-ins that the forms rely on:
    `parseInt(s, 10)`, `Number.prototype.toString` on integers,
    `padStart(2, '0')`, `String.prototype.trim` and the UTF-16 `length`.
    A JavaScript `NaN` result is `None`. */
module JsText {

  datatype Option<+T> = None | Some(value: T)

  /** ECMAScript WhiteSpace and LineTerminator code points: the characters
      that `trim` removes and that `parseInt` skips before the number. */
  predicate IsJsWhitespace(c: char) {
    var u := c as int;
    u == 0x09 || u == 0x0A || u == 0x0B || u == 0x0C || u == 0x0D ||
    u == 0x20 || u == 0xA0 || u == 0x1680 || (0x2000 <= u <= 0x200A) ||
    u == 0x2028 || u == 0x2029 || u == 0x202F || u == 0x205F ||
    u == 0x3000 || u == 0xFEFF
  }

  /** Drops leading whitespace. */
  function TrimStart(s: string): string {
    if |s| > 0 && IsJsWhitespace(s[0]) then TrimStart(s[1..]) else s
  }

  /** What `TrimStart` removes is whitespace, and what it keeps is a suffix
      that does not start with whitespace. */
  lemma {:induction false} TrimStartSpec(s: string)
    ensures var r := TrimStart(s);
      |r| <= |s| && r == s[|s| - |r|..] &&
      (forall i :: 0 <= i < |s| - |r| ==> IsJsWhitespace(s[i])) &&
      (r == [] || !IsJsWhitespace(r[0]))
  {
    if |s| > 0 && IsJsWhitespace(s[0]) {
      TrimStartSpec(s[1..]);
    }
  }

  /** Drops trailing whitespace. */
  function TrimEnd(s: string): string {
    if |s| > 0 && IsJsWhitespace(s[|s| - 1]) then TrimEnd(s[..|s| - 1]) else s
  }

  /** What `TrimEnd` removes is whitespace, and what it keeps is a prefix
      that does not end with whitespace. */
  lemma {:induction false} TrimEndSpec(s: string)
    ensures var r := TrimEnd(s);
      |r| <= |s| && r == s[..|r|] &&
      (forall i :: |r| <= i < |s| ==> IsJsWhitespace(s[i])) &&
      (r == [] || !IsJsWhitespace(r[|r| - 1]))
  {
    if |s| > 0 && IsJsWhitespace(s[|s| - 1]) {
      TrimEndSpec(s[..|s| - 1]);
      assert s[..|s| - 1][..|TrimEnd(s)|] == s[..|TrimEnd(s)|];
    }
  }

  /** `s.trim()`: whitespace cut from both ends. */
  function Trim(s: string): string {
    TrimEnd(TrimStart(s))
  }

  /** `Trim(s)` is the slice `s[a..b]` where everything before `a` and from
      `b` on is whitespace, and the slice neither starts nor ends with
      whitespace; it is empty exactly when `s` is all whitespace. */
  lemma TrimSpec(s: string)
    ensures var r := Trim(s);
      var a := |s| - |TrimStart(s)|;
      0 <= a && a + |r| <= |s| && r == s[a..a + |r|] &&
      (forall i :: 0 <= i < a ==> IsJsWhitespace(s[i])) &&
      (forall i :: a + |r| <= i < |s| ==> IsJsWhitespace(s[i])) &&
      (r == [] || (!IsJsWhitespace(r[0]) && !IsJsWhitespace(r[|r| - 1])))
  {
    var t := TrimStart(s);
    TrimStartSpec(s);
    var r := TrimEnd(t);
    TrimEndSpec(t);
    var a := |s| - |t|;
    assert r == t[..|r|];
    assert t == s[a..];
    assert r == s[a..a + |r|];
    forall i | a + |r| <= i < |s| ensures IsJsWhitespace(s[i]) {
      assert s[i] == t[i - a];
    }
  }

  /** JavaScript's `length`: the number of UTF-16 code units, two for a
      code point outside the Basic Multilingual Plane. */
  function Utf16Length(s: string): (n: nat)
    ensures |s| <= n <= 2 * |s|
  {
    if s == [] then 0
    else Utf16Length(s[..|s| - 1]) + (if s[|s| - 1] as int > 0xFFFF then 2 else 1)
  }

  predicate IsDigit(c: char) {
    '0' <= c <= '9'
  }

  predicate AllDigits(s: string) {
    forall i :: 0 <= i < |s| ==> IsDigit(s[i])
  }

  function DigitChar(d: nat): (c: char)
    requires d < 10
    ensures IsDigit(c) && c as int - '0' as int == d
  {
    (('0' as int) + d) as char
  }

  /** The decimal value of a digit string, read left to right. */
  function DigitsValue(ds: string): nat
    requires AllDigits(ds)
  {
    if ds == [] then 0
    else DigitsValue(ds[..|ds| - 1]) * 10 + (ds[|ds| - 1] as int - '0' as int)
  }

  /** The longest prefix of `s` made of decimal digits. */
  function DigitsPrefix(s: string): (r: string)
    ensures |r| <= |s| && r == s[..|r|] && AllDigits(r)
    ensures |r| < |s| ==> !IsDigit(s[|r|])
  {
    if |s| > 0 && IsDigit(s[0]) then [s[0]] + DigitsPrefix(s[1..]) else []
  }

  /** Canonical decimal digits of a natural number: no leading zero. */
  function NatToDigits(n: nat): (r: string)
    ensures r != [] && AllDigits(r) && DigitsValue(r) == n
    ensures r[0] == '0' ==> n == 0
    ensures (n < 10) == (|r| == 1)
  {
    if n < 10 then [DigitChar(n)]
    else
      var r := NatToDigits(n / 10) + [DigitChar(n % 10)];
      assert r[..|r| - 1] == NatToDigits(n / 10);
      r
  }

  /** `n.toString()` for an integral number. */
  function NumberToString(n: int): string {
    if n < 0 then "-" + NatToDigits(-n) else NatToDigits(n)
  }

  /** `s.padStart(2, '0')`: zeros in front up to two characters. */
  function PadStart2(s: string): (r: string)
    ensures |r| == if |s| >= 2 then |s| else 2
    ensures r[|r| - |s|..] == s
    ensures forall i :: 0 <= i < |r| - |s| ==> r[i] == '0'
  {
    if |s| >= 2 then s else if |s| == 1 then ['0'] + s else ['0', '0']
  }

  /** `parseInt(s, 10)`: skip leading whitespace, take one optional sign,
      then the longest run of decimal digits; no digit at all is `NaN`. */
  function ParseInt(s: string): (r: Option<int>)
    ensures s == [] ==> r == None
  {
    ParseSigned(TrimStart(s))
  }

  /** The part of `parseInt` after the whitespace: an optional sign. */
  function ParseSigned(t: string): Option<int> {
    if |t| > 0 && t[0] == '-' then Negate(ParseDigits(t[1..]))
    else if |t| > 0 && t[0] == '+' then ParseDigits(t[1..])
    else ParseDigits(t)
  }

  function Negate(x: Option<int>): Option<int> {
    if x.Some? then Some(-x.value) else None
  }

  /** The digit run that `parseInt` reads; none at all is `NaN`. */
  function ParseDigits(b: string): (r: Option<int>)
    ensures r.Some? ==> r.value >= 0
  {
    var ds := DigitsPrefix(b);
    if ds == [] then None else Some(DigitsValue(ds))
  }

  /** A non-empty digit string parses to its value. */
  lemma ParseAllDigits(s: string)
    requires s != [] && AllDigits(s)
    ensures ParseInt(s) == Some(DigitsValue(s))
  {
    assert TrimStart(s) == s by { assert IsDigit(s[0]); }
    assert s[0] != '-' && s[0] != '+';
    DigitsPrefixOfDigits(s);
  }

  /** A string of digits is its own digit prefix. */
  lemma {:induction false} DigitsPrefixOfDigits(s: string)
    requires AllDigits(s)
    ensures DigitsPrefix(s) == s
  {
    if s != [] {
      DigitsPrefixOfDigits(s[1..]);
    }
  }

  /** A leading zero does not change the value of a digit string. */
  lemma {:induction false} LeadingZero(ds: string)
    requires AllDigits(ds)
    ensures AllDigits(['0'] + ds) && DigitsValue(['0'] + ds) == DigitsValue(ds)
  {
    if ds != [] {
      var z := ['0'] + ds;
      assert z[..|z| - 1] == ['0'] + ds[..|ds| - 1];
      LeadingZero(ds[..|ds| - 1]);
    }
  }

  /** A minus sign negates what the digit run gives. */
  lemma ParseSignedMinus(b: string)
    ensures ParseSigned("-" + b) == Negate(ParseDigits(b))
  {
    assert ("-" + b)[1..] == b;
  }

  /** Text that starts with something other than whitespace is kept whole. */
  lemma TrimStartKeeps(s: string)
    requires s != [] && !IsJsWhitespace(s[0])
    ensures TrimStart(s) == s
  {
  }

  /** A digit string is read as its value. */
  lemma ParseDigitsOfDigits(ds: string)
    requires ds != [] && AllDigits(ds)
    ensures ParseDigits(ds) == Some(DigitsValue(ds))
  {
    DigitsPrefixOfDigits(ds);
  }

  /** `parseInt` of a minus sign followed by digits is the negated value. */
  lemma ParseNegativeDigits(ds: string)
    requires ds != [] && AllDigits(ds)
    ensures ParseInt("-" + ds) == Some(-(DigitsValue(ds) as int))
  {
    TrimStartKeeps("-" + ds);
    ParseSignedMinus(ds);
    ParseDigitsOfDigits(ds);
  }

  /** `parseInt` reads back what `toString` writes. */
  lemma ParseNumberString(n: int)
    ensures ParseInt(NumberToString(n)) == Some(n)
  {
    if n < 0 {
      ParseNegativeDigits(NatToDigits(-n));
    } else {
      ParseAllDigits(NatToDigits(n));
    }
  }

  /** ... and likewise after zero-padding to two characters. */
  lemma ParsePaddedNumberString(n: int)
    ensures ParseInt(PadStart2(NumberToString(n))) == Some(n)
  {
    if 0 <= n < 10 {
      var ds := NatToDigits(n);
      assert PadStart2(NumberToString(n)) == ['0'] + ds;
      LeadingZero(ds);
    } else {
      if n < 0 {
        assert |NumberToString(n)| >= 2;
      } else {
        assert |NatToDigits(n)| >= 2;
      }
      ParseNumberString(n);
    }
  }

  /** For a number below 100 the padded rendering is exactly two digits. */
  lemma PaddedTwoDigits(n: nat)
    requires n < 100
    ensures PadStart2(NumberToString(n)) == [DigitChar(n / 10), DigitChar(n % 10)]
  {
    if n >= 10 {
      assert NatToDigits(n / 10) == [DigitChar(n / 10)];
      assert NumberToString(n) == [DigitChar(n / 10), DigitChar(n % 10)];
    } else {
      assert NumberToString(n) == [DigitChar(n)];
      assert n / 10 == 0 && DigitChar(0) == '0';
    }
  }

  // ----- `parseInt` without a radix -----

  predicate IsHexDigit(c: char) {
    IsDigit(c) || 'a' <= c <= 'f' || 'A' <= c <= 'F'
  }

  predicate AllHexDigits(s: string) {
    forall i :: 0 <= i < |s| ==> IsHexDigit(s[i])
  }

  function HexDigitValue(c: char): (v: nat)
    requires IsHexDigit(c)
    ensures v < 16
  {
    if IsDigit(c) then c as int - '0' as int
    else if 'a' <= c <= 'f' then c as int - 'a' as int + 10
    else c as int - 'A' as int + 10
  }

  /** The base-16 value of a hex digit string, read left to right. */
  function HexValue(ds: string): nat
    requires AllHexDigits(ds)
  {
    if ds == [] then 0
    else HexValue(ds[..|ds| - 1]) * 16 + HexDigitValue(ds[|ds| - 1])
  }

  /** The longest prefix of `s` made of hex digits. */
  function HexDigitsPrefix(s: string): (r: string)
    ensures |r| <= |s| && r == s[..|r|] && AllHexDigits(r)
    ensures |r| < |s| ==> !IsHexDigit(s[|r|])
  {
    if |s| > 0 && IsHexDigit(s[0]) then [s[0]] + HexDigitsPrefix(s[1..]) else []
  }

  /** The hex digit run that `parseInt` reads after "0x"; none is `NaN`. */
  function ParseHexDigits(b: string): (r: Option<int>)
    ensures r.Some? ==> r.value >= 0
  {
    var ds := HexDigitsPrefix(b);
    if ds == [] then None else Some(HexValue(ds))
  }

  /** What follows the leading whitespace and the one optional sign. */
  function UnsignedPart(s: string): string {
    var t := TrimStart(s);
    if |t| > 0 && (t[0] == '-' || t[0] == '+') then t[1..] else t
  }

  /** "0x" or "0X": the prefix that makes `parseInt` without a radix read
      base 16. */
  predicate HasHexPrefix(b: string) {
    |b| >= 2 && b[0] == '0' && (b[1] == 'x' || b[1] == 'X')
  }

  /** `parseInt(s)` with no radix (ECMAScript section 19.2.5, radix 0): the
      whitespace and the sign as for `parseInt(s, 10)`, then base 16 after
      a "0x" or "0X" prefix, which is dropped, and base 10 otherwise. */
  function ParseIntNoRadix(s: string): (r: Option<int>)
    ensures s == [] ==> r == None
  {
    var t := TrimStart(s);
    var b := UnsignedPart(s);
    var v := if HasHexPrefix(b) then ParseHexDigits(b[2..]) else ParseDigits(b);
    if |t| > 0 && t[0] == '-' then Negate(v) else v
  }

  /** Without the hex prefix the two calls read the same number. */
  lemma NoRadixIsDecimalWithoutHexPrefix(s: string)
    requires !HasHexPrefix(UnsignedPart(s))
    ensures ParseIntNoRadix(s) == ParseInt(s)
  {
  }

  /** With it they part: "0x" alone is 0 in base 10 but `NaN` without a
      radix; "0x1F" is 0 against 31; and the prefix may follow a sign (or
      leading whitespace), "-0x1F" being 0 against -31. */
  lemma HexPrefixReadings()
    ensures ParseInt("0x") == Some(0) && ParseIntNoRadix("0x") == None
    ensures ParseInt("0x1F") == Some(0) && ParseIntNoRadix("0x1F") == Some(31)
    ensures ParseInt("-0x1F") == Some(0) && ParseIntNoRadix("-0x1F") == Some(-31)
  {
    HexZeroX();
    HexOneF();
    HexSignedOneF();
  }

  /** "0xFFFFFFFFFF" is 0 in base 10 and 2^40 - 1 without a radix. */
  lemma HexTenFs()
    ensures ParseInt("0xFFFFFFFFFF") == Some(0)
    ensures ParseIntNoRadix("0xFFFFFFFFFF") == Some(0xFF_FFFF_FFFF)
  {
    assert "0xFFFFFFFFFF" == "0x" + FText(10);
    HexPrefixed(FText(10));
    HexDigitsPrefixOfHex(FText(10));
    HexValueOfFs(10);
    assert Pow16(10) == 0x100_0000_0000;
  }

  /** After a bare "0x" the decimal parse stops at the "x" and reads 0,
      while the radix-less parse reads the hex digits that follow. */
  lemma HexPrefixed(rest: string)
    ensures ParseInt("0x" + rest) == Some(0)
    ensures ParseIntNoRadix("0x" + rest) == ParseHexDigits(rest)
  {
    var s := "0x" + rest;
    TrimStartKeeps(s);
    assert s[1..][0] == 'x';
    assert DigitsPrefix(s) == "0";
    assert DigitsValue("0") == 0 by { assert "0"[..0] == []; }
    assert ParseSigned(s) == ParseDigits(s);
    assert UnsignedPart(s) == s;
    assert s[2..] == rest;
  }

  ghost function Pow16(n: nat): nat {
    if n == 0 then 1 else 16 * Pow16(n - 1)
  }

  /** `n` letters F. */
  ghost function FText(n: nat): (r: string)
    ensures |r| == n && AllHexDigits(r)
  {
    if n == 0 then [] else FText(n - 1) + ['F']
  }

  /** `n` letters F are the hex number 16^n - 1. */
  lemma {:induction false} HexValueOfFs(n: nat)
    ensures HexValue(FText(n)) + 1 == Pow16(n)
  {
    if n > 0 {
      assert FText(n)[..n - 1] == FText(n - 1);
      HexValueOfFs(n - 1);
    }
  }

  /** A string of hex digits is its own hex digit prefix. */
  lemma {:induction false} HexDigitsPrefixOfHex(s: string)
    requires AllHexDigits(s)
    ensures HexDigitsPrefix(s) == s
  {
    if s != [] {
      HexDigitsPrefixOfHex(s[1..]);
    }
  }

  lemma HexZeroX()
    ensures ParseInt("0x") == Some(0) && ParseIntNoRadix("0x") == None
  {
    assert "0x" == "0x" + [];
    HexPrefixed([]);
  }

  lemma HexOneF()
    ensures ParseInt("0x1F") == Some(0) && ParseIntNoRadix("0x1F") == Some(31)
  {
    assert "0x1F" == "0x" + "1F";
    HexPrefixed("1F");
    HexDigitsPrefixOfHex("1F");
    assert HexValue("1F") == 31 by { assert "1F"[..1] == "1"; }
  }

  lemma HexSignedOneF()
    ensures ParseInt("-0x1F") == Some(0) && ParseIntNoRadix("-0x1F") == Some(-31)
  {
    HexOneF();
    MinusNegates("0x1F");
  }

  /** A minus sign in front of an unsigned text without leading whitespace
      negates what either call reads. */
  lemma MinusNegates(t: string)
    requires t != [] && !IsJsWhitespace(t[0]) && t[0] != '-' && t[0] != '+'
    ensures ParseInt("-" + t) == Negate(ParseInt(t))
    ensures ParseIntNoRadix("-" + t) == Negate(ParseIntNoRadix(t))
  {
    TrimStartKeeps(t);
    TrimStartKeeps("-" + t);
    ParseSignedMinus(t);
    assert UnsignedPart("-" + t) == t by { assert ("-" + t)[1..] == t; }
  }

  /** Parsing two digits gives their value. */
  lemma ParseTwoDigits(n: nat)
    requires n < 100
    ensures ParseInt([DigitChar(n / 10), DigitChar(n % 10)]) == Some(n)
  {
    PaddedTwoDigits(n);
    ParsePaddedNumberString(n);
  }

  /** Any two-character text that spells `n` in two digits parses to `n`. */
  lemma ParseText(n: nat, s: string)
    requires n < 100 && s == [DigitChar(n / 10), DigitChar(n % 10)]
    ensures ParseInt(s) == Some(n)
  {
    ParseTwoDigits(n);
  }
}
