/** Decimal numerals: rendering integers (`str(n)` in Python,
    `n.toString()` in JavaScript), Python's zero-padded format `{n:04d}`,
    Python's `int(s)` and JavaScript's `parseInt(s)`. */
module Numerals {
  import opened Wrappers
  import opened Text

  predicate IsDigit(c: char) {
    '0' <= c <= '9'
  }

  function DigitValue(c: char): nat
    requires IsDigit(c)
  {
    c as int - '0' as int
  }

  function DigitChar(d: nat): (c: char)
    requires d < 10
    ensures IsDigit(c) && DigitValue(c) == d
  {
    (d + '0' as int) as char
  }

  predicate AllDigits(s: string) {
    forall k :: 0 <= k < |s| ==> IsDigit(s[k])
  }

  /** The value of a string of decimal digits, most significant digit first. */
  function DigitsValue(s: string): nat
    requires AllDigits(s)
    decreases |s|
  {
    if s == [] then 0 else DigitsValue(s[..|s| - 1]) * 10 + DigitValue(s[|s| - 1])
  }

  /** The decimal rendering of `n`, without leading zeros. */
  function NatToDigits(n: nat): (r: string)
    ensures |r| > 0 && AllDigits(r)
    ensures DigitsValue(r) == n
    ensures r[0] == '0' ==> n == 0
  {
    if n < 10 then [DigitChar(n)]
    else
      var r := NatToDigits(n / 10) + [DigitChar(n % 10)];
      assert r[..|r| - 1] == NatToDigits(n / 10);
      r
  }

  /** The decimal rendering of an integer, with a leading minus sign when negative. */
  function IntToString(i: int): string {
    if i < 0 then "-" + NatToDigits(-i) else NatToDigits(i)
  }

  function Pow10(k: nat): (r: nat)
    ensures r >= 1
  {
    if k == 0 then 1 else 10 * Pow10(k - 1)
  }

  /** `n` needs at most `k` digits exactly when it is below 10^k. */
  lemma {:induction false} DigitCount(n: nat, k: nat)
    requires k >= 1
    ensures |NatToDigits(n)| <= k <==> n < Pow10(k)
  {
    if n >= 10 {
      if k == 1 {
        assert |NatToDigits(n)| == |NatToDigits(n / 10)| + 1;
      } else {
        DigitCount(n / 10, k - 1);
        assert |NatToDigits(n)| == |NatToDigits(n / 10)| + 1;
        assert n < Pow10(k) <==> n / 10 < Pow10(k - 1);
      }
    } else {
      assert Pow10(k) >= 10;
    }
  }

  /** A string of `k` digits is worth less than 10^k. */
  lemma {:induction false} DigitsValueBound(s: string)
    requires AllDigits(s)
    ensures DigitsValue(s) < Pow10(|s|)
    decreases |s|
  {
    if s != [] {
      var init := s[..|s| - 1];
      DigitsValueBound(init);
      assert DigitsValue(init) + 1 <= Pow10(|init|);
      assert DigitsValue(init) * 10 + 10 <= Pow10(|init|) * 10;
    }
  }

  lemma ShiftDigit(d: int, p: int, x: int, l: int)
    ensures (d * p + x) * 10 + l == d * (10 * p) + (x * 10 + l)
  {
  }

  /** The leading digit of `s` is worth its value times 10^(|s| - 1). */
  lemma {:induction false} DigitsValueFront(s: string)
    requires AllDigits(s) && s != []
    ensures DigitsValue(s) == DigitValue(s[0]) * Pow10(|s| - 1) + DigitsValue(s[1..])
    decreases |s|
  {
    if |s| == 1 {
      assert s[..0] == [] && s[1..] == [];
    } else {
      var init, tail := s[..|s| - 1], s[1..];
      DigitsValueFront(init);
      assert init[0] == s[0];
      assert init[1..] == tail[..|tail| - 1];
      assert tail[|tail| - 1] == s[|s| - 1];
      var d, p, x, l := DigitValue(s[0]), Pow10(|s| - 2), DigitsValue(init[1..]), DigitValue(s[|s| - 1]);
      assert DigitsValue(init) == d * p + x;
      assert DigitsValue(tail) == x * 10 + l;
      assert DigitsValue(s) == DigitsValue(init) * 10 + l;
      assert Pow10(|s| - 1) == 10 * p;
      ShiftDigit(d, p, x, l);
    }
  }

  /** Left-pads `s` with zeros to `width` characters; a longer `s` is kept whole. */
  function ZeroPad(s: string, width: nat): (r: string)
    ensures |r| == if |s| < width then width else |s|
  {
    if |s| < width then seq(width - |s|, _ => '0') + s else s
  }

  /** Python's `f"{n:04d}"`: at least four characters, zero-filled after the sign. */
  function FormatZeroPad4(n: int): string {
    if n < 0 then "-" + ZeroPad(NatToDigits(-n), 3) else ZeroPad(NatToDigits(n), 4)
  }

  /** Leading zeros do not change the value of a digit string. */
  lemma {:induction false} LeadingZeros(z: nat, s: string)
    requires AllDigits(s)
    ensures AllDigits(seq(z, _ => '0') + s)
    ensures DigitsValue(seq(z, _ => '0') + s) == DigitsValue(s)
    decreases |s|, z
  {
    var t := seq(z, _ => '0') + s;
    assert forall k :: 0 <= k < |t| ==> IsDigit(t[k]) by {
      forall k | 0 <= k < |t| ensures IsDigit(t[k]) {
        if k >= z { assert t[k] == s[k - z]; }
      }
    }
    if s == [] {
      if z > 0 {
        LeadingZeros(z - 1, s);
        assert t[..|t| - 1] == seq(z - 1, _ => '0') + s;
      }
    } else {
      LeadingZeros(z, s[..|s| - 1]);
      assert t[..|t| - 1] == seq(z, _ => '0') + s[..|s| - 1];
    }
  }

  /** `FormatZeroPad4` renders a non-negative number as digits only, of length
      four exactly up to 9999, and the digits still denote the number. */
  lemma FormatZeroPad4Digits(n: nat)
    ensures AllDigits(FormatZeroPad4(n)) && DigitsValue(FormatZeroPad4(n)) == n
    ensures |FormatZeroPad4(n)| >= 4
    ensures |FormatZeroPad4(n)| == 4 <==> n <= 9999
  {
    var d := NatToDigits(n);
    if |d| < 4 {
      LeadingZeros(4 - |d|, d);
    }
    DigitCount(n, 4);
  }

  /** Python's `int(s)` for a string that is an optional sign followed by
      ASCII digits; any other string raises `ValueError`, here `None`. */
  function PyInt(s: string): Option<int> {
    if |s| > 0 && (s[0] == '-' || s[0] == '+') then
      if |s| > 1 && AllDigits(s[1..]) then
        var v: int := if s[0] == '-' then -(DigitsValue(s[1..]) as int) else DigitsValue(s[1..]);
        Some(v)
      else None
    else if |s| > 0 && AllDigits(s) then Some(DigitsValue(s))
    else None
  }

  /** `int()` reads back every number that `FormatZeroPad4` writes, negative ones included. */
  lemma PyIntOfFormat(n: int)
    ensures PyInt(FormatZeroPad4(n)) == Some(n)
  {
    if n < 0 {
      var d := NatToDigits(-n);
      var t := ZeroPad(d, 3);
      if |d| < 3 {
        LeadingZeros(3 - |d|, d);
      }
      assert ("-" + t)[1..] == t;
    } else {
      FormatZeroPad4Digits(n);
    }
  }

  /** The longest prefix of `s` made of decimal digits. */
  function DigitPrefix(s: string): (r: string)
    ensures |r| <= |s| && r == s[..|r|] && AllDigits(r)
    ensures |r| < |s| ==> !IsDigit(s[|r|])
  {
    if s != [] && IsDigit(s[0]) then [s[0]] + DigitPrefix(s[1..]) else []
  }

  predicate IsHexDigit(c: char) {
    IsDigit(c) || 'a' <= c <= 'f' || 'A' <= c <= 'F'
  }

  function HexDigitValue(c: char): nat
    requires IsHexDigit(c)
  {
    if IsDigit(c) then DigitValue(c)
    else if 'a' <= c <= 'f' then c as int - 'a' as int + 10
    else c as int - 'A' as int + 10
  }

  /** The longest prefix of `s` made of hexadecimal digits. */
  function HexPrefix(s: string): (r: string)
    ensures |r| <= |s| && forall k :: 0 <= k < |r| ==> IsHexDigit(r[k])
  {
    if s != [] && IsHexDigit(s[0]) then [s[0]] + HexPrefix(s[1..]) else []
  }

  function HexValue(s: string): nat
    requires forall k :: 0 <= k < |s| ==> IsHexDigit(s[k])
    decreases |s|
  {
    if s == [] then 0 else HexValue(s[..|s| - 1]) * 16 + HexDigitValue(s[|s| - 1])
  }

  /** JavaScript's `parseInt(s)` without a radix, on integers: leading
      whitespace is skipped, an optional sign is read, a `0x`/`0X` prefix
      selects base 16, and the longest run of digits that follows is the
      value; no digit at all gives `NaN`, here `None`. */
  function JsParseInt(s: string): Option<int> {
    var t := TrimStart(s);
    var negative := |t| > 0 && t[0] == '-';
    var u := if |t| > 0 && (t[0] == '-' || t[0] == '+') then t[1..] else t;
    match ParseMagnitude(u)
    case None => None
    case Some(m) => var v: int := if negative then -(m as int) else m; Some(v)
  }

  /** The unsigned part of `parseInt`: a hexadecimal numeral after `0x`/`0X`,
      otherwise the longest run of decimal digits. */
  function ParseMagnitude(u: string): Option<nat> {
    if |u| >= 2 && u[0] == '0' && (u[1] == 'x' || u[1] == 'X') then
      var h := HexPrefix(u[2..]); if h == [] then None else Some(HexValue(h))
    else
      var d := DigitPrefix(u); if d == [] then None else Some(DigitsValue(d))
  }

  /** The JavaScript idiom `parseInt(s) || fallback`: `NaN` and zero are both falsy. */
  function JsParseIntOr(s: string, fallback: int): (r: int)
    ensures JsParseInt(s).None? ==> r == fallback
    ensures JsParseInt(s).Some? && JsParseInt(s).value != 0 ==> r == JsParseInt(s).value
    ensures r == 0 ==> fallback == 0
  {
    match JsParseInt(s)
    case None => fallback
    case Some(v) => if v == 0 then fallback else v
  }

  /** A decimal rendering of `n` followed by a non-digit is read back as `n`. */
  lemma {:induction false} DigitPrefixOfDigits(d: string, rest: string)
    requires AllDigits(d) && (rest == [] || !IsDigit(rest[0]))
    ensures DigitPrefix(d + rest) == d
  {
    if d != [] {
      assert (d + rest)[1..] == d[1..] + rest;
      DigitPrefixOfDigits(d[1..], rest);
    } else {
      assert d + rest == rest;
    }
  }

  /** The unsigned part of `parseInt` reads back a decimal rendering. */
  lemma MagnitudeOfDigits(n: nat)
    ensures ParseMagnitude(NatToDigits(n)) == Some(n)
  {
    var d := NatToDigits(n);
    DigitPrefixOfDigits(d, []);
    assert d + [] == d;
    assert |d| >= 2 ==> d[0] != '0';
  }

  /** `parseInt` reads back the decimal rendering of every integer. */
  lemma JsParseIntOfString(i: int)
    ensures JsParseInt(IntToString(i)) == Some(i)
  {
    var s := IntToString(i);
    var d := NatToDigits(if i < 0 then -i else i);
    MagnitudeOfDigits(if i < 0 then -i else i);
    assert IsDigit(d[0]);
    assert !IsJsSpace(s[0]);
    assert TrimStart(s) == s;
    if i < 0 {
      assert s[1..] == d;
    } else {
      assert s == d;
    }
  }
}
