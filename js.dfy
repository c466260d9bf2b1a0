/** The slice of JavaScript value semantics that the pages depend on:
    numbers that may be NaN, `parseInt` with no radix, `Array.prototype.slice(0, end)`,
    `String.prototype.includes`, lower-casing and the UTF-16 `length` of a string. */
module Js {

  /** `undefined` / `null` versus a present value. */
  datatype Option<+T> = None | Some(value: T)

  /** A JavaScript number as these pages produce it: an integer or NaN. */
  datatype Num = Int(value: int) | NaN

  function Min(a: int, b: int): int { if a <= b then a else b }

  function Max(a: int, b: int): int { if a >= b then a else b }

  /** `a + b` on numbers: NaN absorbs everything. */
  function Add(a: Num, b: Num): (r: Num)
    ensures r.NaN? <==> a.NaN? || b.NaN?
  {
    if a.NaN? || b.NaN? then NaN else Int(a.value + b.value)
  }

  // ---------------------------------------------------------------------------
  // parseInt(s) with no radix argument

  /** The StrWhiteSpaceChar set that `parseInt` skips: WhiteSpace (including every
      Zs code point) and LineTerminator. */
  predicate IsStrWhiteSpace(c: char) {
    || c == '\t' || c == '\n' || c == '\U{B}' || c == '\U{C}' || c == '\r' || c == ' '
    || c == '\U{A0}' || c == '\U{1680}' || ('\U{2000}' <= c <= '\U{200A}')
    || c == '\U{2028}' || c == '\U{2029}' || c == '\U{202F}' || c == '\U{205F}'
    || c == '\U{3000}' || c == '\U{FEFF}'
  }

  function TrimStart(s: string): (r: string)
    ensures |r| <= |s| && r == s[|s| - |r|..]
    ensures forall i | 0 <= i < |s| - |r| :: IsStrWhiteSpace(s[i])
    ensures r == [] || !IsStrWhiteSpace(r[0])
  {
    if |s| > 0 && IsStrWhiteSpace(s[0]) then TrimStart(s[1..]) else s
  }

  predicate IsDecimalDigit(c: char) { '0' <= c <= '9' }

  /** The value of `c` as a digit in `radix` (10 or 16), or -1 when it is not one. */
  function DigitValue(c: char, radix: int): (d: int)
    requires radix == 10 || radix == 16
    ensures -1 <= d < radix
    ensures d >= 0 <==> IsDecimalDigit(c) || (radix == 16 && ('a' <= c <= 'f' || 'A' <= c <= 'F'))
  {
    if IsDecimalDigit(c) then c as int - '0' as int
    else if radix == 16 && 'a' <= c <= 'f' then c as int - 'a' as int + 10
    else if radix == 16 && 'A' <= c <= 'F' then c as int - 'A' as int + 10
    else -1
  }

  /** The longest prefix of `s` made of digits of `radix`. */
  function LeadingDigits(s: string, radix: int): (ds: string)
    requires radix == 10 || radix == 16
    ensures ds <= s
    ensures forall i :: 0 <= i < |ds| ==> DigitValue(ds[i], radix) >= 0
    ensures |ds| < |s| ==> DigitValue(s[|ds|], radix) < 0
  {
    if |s| > 0 && DigitValue(s[0], radix) >= 0 then [s[0]] + LeadingDigits(s[1..], radix) else []
  }

  /** The value of a digit string, most significant digit first. */
  function DigitsValue(ds: string, radix: int): nat
    requires radix == 10 || radix == 16
    requires forall i :: 0 <= i < |ds| ==> DigitValue(ds[i], radix) >= 0
  {
    if ds == [] then 0
    else DigitsValue(ds[..|ds| - 1], radix) * radix + DigitValue(ds[|ds| - 1], radix)
  }

  /** `parseInt(s)`: skip leading white space, take one optional sign, then read the
      digits as `ParseUnsigned` does. */
  function ParseInt(s: string): (r: Num)
    ensures r.Int? && r.value < 0 ==> |TrimStart(s)| > 0 && TrimStart(s)[0] == '-'
    ensures (TrimStart(s) == [] || !(TrimStart(s)[0] in "+-" || IsDecimalDigit(TrimStart(s)[0]))) ==> r.NaN?
  {
    var t := TrimStart(s);
    if |t| > 0 && t[0] == '-' then Negate(ParseUnsigned(t[1..]))
    else if |t| > 0 && t[0] == '+' then ParseUnsigned(t[1..])
    else ParseUnsigned(t)
  }

  /** The digits after the sign: radix 16 after a `0x`/`0X` prefix, otherwise 10; the
      longest run of digits of that radix, and NaN when that run is empty. */
  function ParseUnsigned(u: string): (r: Num)
    ensures r.Int? ==> r.value >= 0
    ensures HexPrefixed(u) ==> (r.NaN? <==> |u| == 2 || DigitValue(u[2], 16) < 0)
    ensures !HexPrefixed(u) ==> (r.NaN? <==> u == [] || !IsDecimalDigit(u[0]))
  {
    var hex := HexPrefixed(u);
    var radix := if hex then 16 else 10;
    var ds := LeadingDigits(if hex then u[2..] else u, radix);
    if ds == [] then NaN else Int(DigitsValue(ds, radix))
  }

  /** `u` starts with `0x` or `0X`. */
  predicate HexPrefixed(u: string) {
    |u| >= 2 && u[0] == '0' && (u[1] == 'x' || u[1] == 'X')
  }

  function Negate(n: Num): (r: Num)
    ensures r.NaN? <==> n.NaN?
    ensures r.Int? ==> r.value == -n.value
  {
    if n.NaN? then NaN else Int(-n.value)
  }

  predicate AllDecimal(ds: string) {
    forall i :: 0 <= i < |ds| ==> IsDecimalDigit(ds[i])
  }

  /** A token that starts with decimal digits (and whose digits are not a `0x` prefix)
      parses to the value of those leading digits. */
  lemma ParseIntOfDecimalPrefix(ds: string, rest: string)
    requires ds != [] && AllDecimal(ds)
    requires rest == [] || (!IsDecimalDigit(rest[0]) && rest[0] != 'x' && rest[0] != 'X')
    ensures ParseInt(ds + rest) == Int(DigitsValue(ds, 10))
  {
    var s := ds + rest;
    assert s[0] == ds[0];
    assert TrimStart(s) == s;
    assert ParseInt(s) == ParseUnsigned(s);
    assert !(|s| >= 2 && s[0] == '0' && (s[1] == 'x' || s[1] == 'X')) by {
      if |s| >= 2 && s[0] == '0' {
        if |ds| >= 2 { assert s[1] == ds[1]; } else { assert s[1] == rest[0]; }
      }
    }
    LeadingDigitsOfPrefix(ds, rest, 10);
  }

  /** After a `0x` or `0X` prefix, a run of hexadecimal digits parses to its value in
      base 16. */
  lemma ParseIntOfHexPrefix(x: char, ds: string, rest: string)
    requires x == 'x' || x == 'X'
    requires ds != [] && forall i | 0 <= i < |ds| :: DigitValue(ds[i], 16) >= 0
    requires rest == [] || DigitValue(rest[0], 16) < 0
    ensures ParseInt(['0', x] + ds + rest) == Int(DigitsValue(ds, 16))
  {
    var s := ['0', x] + (ds + rest);
    assert s == ['0', x] + ds + rest;
    assert s[0] == '0' && s[1] == x && s[2..] == ds + rest;
    assert !IsStrWhiteSpace(s[0]);
    assert TrimStart(s) == s;
    LeadingDigitsOfPrefix(ds, rest, 16);
    assert ParseUnsigned(s) == Int(DigitsValue(ds, 16));
  }

  lemma {:induction false} LeadingDigitsOfPrefix(ds: string, rest: string, radix: int)
    requires radix == 10 || radix == 16
    requires forall i | 0 <= i < |ds| :: DigitValue(ds[i], radix) >= 0
    requires rest == [] || DigitValue(rest[0], radix) < 0
    ensures LeadingDigits(ds + rest, radix) == ds
  {
    if ds == [] {
      assert ds + rest == rest;
    } else {
      assert (ds + rest)[1..] == ds[1..] + rest;
      LeadingDigitsOfPrefix(ds[1..], rest, radix);
    }
  }

  /** Leading white space does not change what `parseInt` reads. */
  lemma {:induction false} ParseIntSkipsWhiteSpace(w: string, s: string)
    requires forall i | 0 <= i < |w| :: IsStrWhiteSpace(w[i])
    ensures ParseInt(w + s) == ParseInt(s)
  {
    TrimStartSkipsWhiteSpace(w, s);
  }

  lemma {:induction false} TrimStartSkipsWhiteSpace(w: string, s: string)
    requires forall i | 0 <= i < |w| :: IsStrWhiteSpace(w[i])
    ensures TrimStart(w + s) == TrimStart(s)
  {
    if w == [] {
      assert w + s == s;
    } else {
      assert (w + s)[0] == w[0] && (w + s)[1..] == w[1..] + s;
      TrimStartSkipsWhiteSpace(w[1..], s);
    }
  }

  /** A token with no digit where parsing starts, such as the empty string, is NaN. */
  lemma ParseIntWithoutDigit(s: string)
    requires s == [] || (!IsStrWhiteSpace(s[0]) && !IsDecimalDigit(s[0]) && s[0] != '-' && s[0] != '+')
    ensures ParseInt(s).NaN?
  {
    assert TrimStart(s) == s;
    assert ParseInt(s) == ParseUnsigned(s);
    assert s != [] ==> DigitValue(s[0], 10) < 0;
    assert LeadingDigits(s, 10) == [];
  }

  // ---------------------------------------------------------------------------
  // Arrays and strings

  /** `s.slice(0, end)`: a NaN end counts as 0, a negative end counts back from the length. */
  function SliceFromStart<T>(s: seq<T>, end: Num): (r: seq<T>)
    ensures r <= s
    ensures end.NaN? ==> r == []
    ensures end.Int? && end.value >= 0 ==> |r| == Min(end.value, |s|)
    ensures end.Int? && end.value < 0 ==> |r| == Max(|s| + end.value, 0)
  {
    var k := if end.NaN? then 0
             else if end.value < 0 then Max(|s| + end.value, 0)
             else Min(end.value, |s|);
    s[..k]
  }

  /** Lower-casing, restricted to ASCII letters. */
  function LowerChar(c: char): (d: char)
    ensures 'A' <= c <= 'Z' ==> d as int == c as int + 32
    ensures !('A' <= c <= 'Z') ==> d == c
  {
    if 'A' <= c <= 'Z' then (c as int + 32) as char else c
  }

  /** `s.toLowerCase()` on ASCII letters. */
  function Lower(s: string): (r: string)
    ensures |r| == |s|
    ensures forall i :: 0 <= i < |s| ==> r[i] == LowerChar(s[i])
  {
    if s == [] then [] else [LowerChar(s[0])] + Lower(s[1..])
  }

  /** `needle` occurs in `hay` starting at offset `i`. */
  predicate OccursAt(hay: string, needle: string, i: int) {
    0 <= i <= |hay| - |needle| && hay[i..i + |needle|] == needle
  }

  /** `hay.includes(needle)`. */
  function Includes(hay: string, needle: string): (b: bool)
    ensures b <==> exists i :: OccursAt(hay, needle, i)
  {
    if needle <= hay then
      assert OccursAt(hay, needle, 0);
      true
    else if hay == [] then false
    else
      var b := Includes(hay[1..], needle);
      if b then
        var i :| OccursAt(hay[1..], needle, i);
        assert OccursAt(hay, needle, i + 1);
        b
      else
        assert forall i :: OccursAt(hay, needle, i) ==> i == 0 || OccursAt(hay[1..], needle, i - 1);
        b
  }

  /** `s.length`: the number of UTF-16 code units, two for a code point above U+FFFF. */
  function Utf16Length(s: string): (n: nat)
    ensures |s| <= n <= 2 * |s|
    ensures (forall i :: 0 <= i < |s| ==> s[i] as int <= 0xFFFF) ==> n == |s|
  {
    if s == [] then 0 else (if s[0] as int > 0xFFFF then 2 else 1) + Utf16Length(s[1..])
  }
}
