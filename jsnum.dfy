/**
  The JavaScript number conversions the forms use, on exact numbers:
  `parseInt(s)` (no radix), `parseFloat(s)`, `String(n)`, `padStart`,
  the falsy fallback `x || y` on numbers, and `Math.round(x * 100) / 100`.
  `NaN` is represented by `None`.
*/
module JsNum {
  import opened Basics
  import opened Text

  /** The value of a hexadecimal digit character (which covers the decimal ones). */
  function HexValue(c: char): Option<nat>
  {
    if '0' <= c <= '9' then Some(c as int - '0' as int)
    else if 'a' <= c <= 'f' then Some(c as int - 'a' as int + 10)
    else if 'A' <= c <= 'F' then Some(c as int - 'A' as int + 10)
    else None
  }

  predicate IsDigit(c: char, radix: nat)
  {
    HexValue(c).Some? && HexValue(c).value < radix
  }

  predicate AllDigits(s: string, radix: nat)
  {
    forall i :: 0 <= i < |s| ==> IsDigit(s[i], radix)
  }

  /** The longest prefix of `s` made of digits of `radix`. */
  function LeadingDigits(s: string, radix: nat): (r: string)
    ensures StartsWith(s, r) && AllDigits(r, radix)
    ensures |r| < |s| ==> !IsDigit(s[|r|], radix)
  {
    if s == [] || !IsDigit(s[0], radix) then [] else [s[0]] + LeadingDigits(s[1..], radix)
  }

  /** The number a string of digits denotes in `radix`, most significant digit first. */
  function DigitsValue(s: string, radix: nat): nat
    requires AllDigits(s, radix)
  {
    if s == [] then 0
    else DigitsValue(s[..|s| - 1], radix) * radix + HexValue(s[|s| - 1]).value
  }

  /** The text after an optional leading '-' or '+', and whether it was '-'. */
  function SplitSign(t: string): (bool, string)
  {
    if t != [] && (t[0] == '-' || t[0] == '+') then (t[0] == '-', t[1..]) else (false, t)
  }

  /**
    `parseInt(s)` without a radix: leading white space is skipped, then an
    optional sign, then "0x"/"0X" selects radix 16; the longest run of digits
    that follows is the value, and no digit at all is `NaN`.
  */
  function ParseInt(s: string): Option<int>
  {
    var (neg, u) := SplitSign(TrimStart(s));
    match ParseUnsigned(u)
    case None => None
    case Some(v) => Some(if neg then -(v as int) else v as int)
  }

  /** The unsigned part of `parseInt`: "0x"/"0X" selects radix 16, then the longest run of digits. */
  function ParseUnsigned(u: string): Option<nat>
  {
    var hex := |u| >= 2 && u[0] == '0' && (u[1] == 'x' || u[1] == 'X');
    var radix := if hex then 16 else 10;
    var ds := LeadingDigits(if hex then u[2..] else u, radix);
    if ds == [] then None else Some(DigitsValue(ds, radix))
  }

  lemma {:induction false} ParseUnsignedOfDigits(d: string)
    requires d != [] && AllDigits(d, 10)
    ensures ParseUnsigned(d) == Some(DigitsValue(d, 10))
  {
    assert !(|d| >= 2 && d[1] == 'x') && !(|d| >= 2 && d[1] == 'X') by {
      if |d| >= 2 { assert IsDigit(d[1], 10); }
    }
    LeadingDigitsOfDigits(d, 10);
  }

  /** `!isNaN(parseInt(s))` */
  predicate ParsesAsInt(s: string)
  {
    ParseInt(s).Some?
  }

  function DigitChar(d: nat): char
    requires d < 10
  {
    ('0' as int + d) as char
  }

  /** `String(n)` for a natural number: its decimal digits, no leading zero. */
  function DecimalString(n: nat): (r: string)
    ensures r != [] && AllDigits(r, 10)
    ensures |r| > 1 ==> r[0] != '0'
    ensures DigitsValue(r, 10) == n
  {
    if n < 10 then [DigitChar(n)]
    else
      var r := DecimalString(n / 10) + [DigitChar(n % 10)];
      assert r[..|r| - 1] == DecimalString(n / 10);
      r
  }

  /** `String(n)` / `n.toString()` for an integer. */
  function IntToString(n: int): string
  {
    if n < 0 then "-" + DecimalString(-n) else DecimalString(n)
  }

  lemma {:induction false} LeadingDigitsOfDigits(s: string, radix: nat)
    requires AllDigits(s, radix)
    ensures LeadingDigits(s, radix) == s
  {
    if s != [] {
      LeadingDigitsOfDigits(s[1..], radix);
    }
  }

  lemma {:induction false} DigitsValueLeadingZeros(z: string, s: string)
    requires forall i :: 0 <= i < |z| ==> z[i] == '0'
    requires AllDigits(s, 10)
    ensures AllDigits(z + s, 10) && DigitsValue(z + s, 10) == DigitsValue(s, 10)
    decreases |s|
  {
    assert AllDigits(z + s, 10) by {
      forall i | 0 <= i < |z + s| ensures IsDigit((z + s)[i], 10) {
        if i < |z| { assert (z + s)[i] == '0'; } else { assert (z + s)[i] == s[i - |z|]; }
      }
    }
    if s == [] {
      assert z + s == z;
      ZerosValue(z);
    } else {
      assert (z + s)[..|z + s| - 1] == z + s[..|s| - 1];
      DigitsValueLeadingZeros(z, s[..|s| - 1]);
    }
  }

  lemma {:induction false} ZerosValue(z: string)
    requires forall i :: 0 <= i < |z| ==> z[i] == '0'
    ensures AllDigits(z, 10) && DigitsValue(z, 10) == 0
  {
    if z != [] {
      ZerosValue(z[..|z| - 1]);
    }
  }

  lemma DigitIsNotSpace(c: char)
    requires IsDigit(c, 10)
    ensures !IsSpace(c)
  {
    assert '0' <= c <= '9';
  }

  /** `parseInt` of a non-empty run of decimal digits is the number they denote. */
  lemma {:induction false} ParseIntOfDigits(s: string)
    requires s != [] && AllDigits(s, 10)
    ensures ParseInt(s) == Some(DigitsValue(s, 10) as int)
  {
    assert IsDigit(s[0], 10);
    DigitIsNotSpace(s[0]);
    assert TrimStart(s) == s;
    assert s[0] != '-' && s[0] != '+';
    assert SplitSign(s) == (false, s);
    ParseUnsignedOfDigits(s);
  }

  /** `parseInt` reads back any decimal rendering of a natural number, leading zeros included. */
  lemma {:induction false} ParseZeroPaddedDecimal(z: string, n: nat)
    requires forall i :: 0 <= i < |z| ==> z[i] == '0'
    ensures ParseInt(z + DecimalString(n)) == Some(n)
  {
    DigitsValueLeadingZeros(z, DecimalString(n));
    ParseIntOfDigits(z + DecimalString(n));
  }

  /** `parseInt(String(n)) == n` for every integer `n`. */
  lemma {:induction false} ParseIntOfIntToString(n: int)
    ensures ParseInt(IntToString(n)) == Some(n)
  {
    if n >= 0 {
      ParseZeroPaddedDecimal([], n);
      assert [] + DecimalString(n) == DecimalString(n);
    } else {
      var d := DecimalString(-n);
      var s := "-" + d;
      assert s[0] == '-';
      assert TrimStart(s) == s;
      assert s[1..] == d;
      assert SplitSign(s) == (true, d);
      ParseUnsignedOfDigits(d);
    }
  }

  /** Distinct integers render differently, so comparing the renderings compares the numbers. */
  lemma IntToStringInjective(a: int, b: int)
    ensures IntToString(a) == IntToString(b) <==> a == b
  {
    if IntToString(a) == IntToString(b) {
      ParseIntOfIntToString(a);
      ParseIntOfIntToString(b);
    }
  }

  /** `s.padStart(width, c)` */
  function PadStart(s: string, width: nat, c: char): (r: string)
    ensures |r| == if |s| >= width then |s| else width
    ensures r[|r| - |s|..] == s
    ensures forall i :: 0 <= i < |r| - |s| ==> r[i] == c
  {
    if |s| >= width then s else seq(width - |s|, _ => c) + s
  }

  /** The value of the digits after a decimal point: "25" is 0.25. */
  function FractionValue(s: string): real
    requires AllDigits(s, 10)
  {
    if s == [] then 0.0 else (HexValue(s[0]).value as real + FractionValue(s[1..])) / 10.0
  }

  /**
    `parseFloat(s)`: leading white space, an optional sign, then the longest
    prefix of the form digits [ '.' digits ] with at least one digit.
    The exponent and "Infinity" forms are not part of this model.
  */
  function ParseFloat(s: string): Option<real>
  {
    var (neg, u) := SplitSign(TrimStart(s));
    var ip := LeadingDigits(u, 10);
    var rest := u[|ip|..];
    var fp := if rest != [] && rest[0] == '.' then LeadingDigits(rest[1..], 10) else [];
    if ip == [] && fp == [] then None
    else
      var v := DigitsValue(ip, 10) as real + FractionValue(fp);
      Some(if neg then -v else v)
  }

  /** The text the amount and weight inputs accept, `/^-?\d*\.?\d*$/`: an optional '-', digits, an optional '.', digits. */
  predicate IsNumericText(s: string)
  {
    var u := if s != [] && s[0] == '-' then s[1..] else s;
    var rest := u[|LeadingDigits(u, 10)|..];
    var frac := if rest != [] && rest[0] == '.' then rest[1..] else rest;
    AllDigits(frac, 10)
  }

  /** `parseFloat(s) || 0` */
  function ParseFloatOr0(s: string): real
  {
    ParseFloat(s).GetOr(0.0)
  }

  /** `x || y` on numbers: a zero `x` falls back to `y`. */
  function OrElse(x: real, y: real): (r: real)
    ensures x != 0.0 ==> r == x
    ensures x == 0.0 ==> r == y
  {
    if x != 0.0 then x else y
  }

  /** `Math.round(x * 100) / 100`: rounds to whole hundredths, halves upward. */
  function Round2(x: real): real
  {
    ((x * 100.0 + 0.5).Floor as real) / 100.0
  }

  /** The rounded value is within half a hundredth of `x` and is a whole number of hundredths. */
  lemma Round2Bounds(x: real)
    ensures x - 0.005 < Round2(x) <= x + 0.005
    ensures (Round2(x) * 100.0).Floor as real == Round2(x) * 100.0
  {
  }
}
