/**
 * JavaScript text as the core sees it: strings are sequences of UTF-16 code
 * units (a lone surrogate is a legal string element), plus the character
 * classes, trimming and decimal/hexadecimal conversions the JSON codec, the
 * path helpers and the layer stack share.
 */
module JsText {

  /** One UTF-16 code unit, the element type of a JavaScript string. */
  newtype CodeUnit = u: int | 0 <= u < 0x1_0000

  type JsString = seq<CodeUnit>

  datatype Option<+T> = None | Some(value: T)

  // ASCII code units used by the codec and the path helpers.
  const Tab: CodeUnit := 0x09
  const LineFeed: CodeUnit := 0x0A
  const CarriageReturn: CodeUnit := 0x0D
  const Space: CodeUnit := 0x20
  const DoubleQuote: CodeUnit := 0x22
  const Dollar: CodeUnit := 0x24
  const Plus: CodeUnit := 0x2B
  const Comma: CodeUnit := 0x2C
  const Minus: CodeUnit := 0x2D
  const Dot: CodeUnit := 0x2E
  const Slash: CodeUnit := 0x2F
  const Zero: CodeUnit := 0x30
  const Colon: CodeUnit := 0x3A
  const UpperE: CodeUnit := 0x45
  const LeftBracket: CodeUnit := 0x5B
  const Backslash: CodeUnit := 0x5C
  const RightBracket: CodeUnit := 0x5D
  const Underscore: CodeUnit := 0x5F
  const LowerB: CodeUnit := 0x62
  const LowerE: CodeUnit := 0x65
  const LowerF: CodeUnit := 0x66
  const LowerN: CodeUnit := 0x6E
  const LowerR: CodeUnit := 0x72
  const LowerT: CodeUnit := 0x74
  const LowerU: CodeUnit := 0x75
  const LeftBrace: CodeUnit := 0x7B
  const RightBrace: CodeUnit := 0x7D
  const Backspace: CodeUnit := 0x08
  const FormFeed: CodeUnit := 0x0C

  const TrueText: JsString := [0x74, 0x72, 0x75, 0x65]         // true
  const FalseText: JsString := [0x66, 0x61, 0x6C, 0x73, 0x65]  // false
  const NullText: JsString := [0x6E, 0x75, 0x6C, 0x6C]         // null
  const ZeroText: JsString := [0x30]                           // 0
  const NegZeroText: JsString := [0x2D, 0x30]                  // -0

  /** `s.startsWith(w, i)`. */
  predicate StartsWithAt(s: JsString, w: JsString, i: nat)
  {
    i + |w| <= |s| && s[i..i + |w|] == w
  }

  /** JSON insignificant whitespace (section 2 of RFC 8259): space, LF, CR, tab. */
  predicate IsJsonWs(u: CodeUnit)
  {
    u == Space || u == LineFeed || u == CarriageReturn || u == Tab
  }

  /**
   * The code units matched by the regular-expression class `\s` and removed
   * by `String.prototype.trim` (ECMAScript WhiteSpace and LineTerminator).
   */
  predicate IsJsSpace(u: CodeUnit)
  {
    (0x09 <= u <= 0x0D) || u == 0x20 || u == 0xA0 || u == 0x1680
    || (0x2000 <= u <= 0x200A) || u == 0x2028 || u == 0x2029 || u == 0x202F
    || u == 0x205F || u == 0x3000 || u == 0xFEFF
  }

  predicate AllSpace(t: JsString)
  {
    forall j :: 0 <= j < |t| ==> IsJsSpace(t[j])
  }

  /** A text that holds no line feed: one line of a text split on `"\n"`. */
  predicate NoLineFeed(t: JsString)
  {
    forall j :: 0 <= j < |t| ==> t[j] != LineFeed
  }

  /** Index of the first code unit at or after `i` that is not white space. */
  function SkipSpace(t: JsString, i: nat): (j: nat)
    requires i <= |t|
    ensures i <= j <= |t|
    ensures forall k :: i <= k < j ==> IsJsSpace(t[k])
    ensures j < |t| ==> !IsJsSpace(t[j])
    decreases |t| - i
  {
    if i == |t| || !IsJsSpace(t[i]) then i else SkipSpace(t, i + 1)
  }

  /** Index just past the last code unit before `j` that is not white space, if any after `lo`. */
  function SkipSpaceBack(t: JsString, lo: nat, j: nat): (i: nat)
    requires lo <= j <= |t|
    ensures lo <= i <= j
    ensures forall k :: i <= k < j ==> IsJsSpace(t[k])
    ensures i > lo ==> !IsJsSpace(t[i - 1])
    decreases j
  {
    if j == lo || !IsJsSpace(t[j - 1]) then j else SkipSpaceBack(t, lo, j - 1)
  }

  /**
   * `String.prototype.trim`: the infix of `t` left after removing its leading
   * and trailing white space; it is empty exactly when `t` is all white space,
   * and otherwise neither starts nor ends with white space.
   */
  function Trim(t: JsString): (r: JsString)
    ensures |r| <= |t|
    ensures r == [] <==> AllSpace(t)
    ensures r != [] ==> !IsJsSpace(r[0]) && !IsJsSpace(r[|r| - 1])
    ensures SkipSpace(t, 0) + |r| <= |t| && r == t[SkipSpace(t, 0)..SkipSpace(t, 0) + |r|]
    ensures forall k :: SkipSpace(t, 0) + |r| <= k < |t| ==> IsJsSpace(t[k])
  {
    var a := SkipSpace(t, 0);
    var b := SkipSpaceBack(t, a, |t|);
    var r := t[a..b];
    assert r == t[a..a + |r|];
    assert a < |t| ==> !AllSpace(t) by {
      if a < |t| { assert !IsJsSpace(t[a]); }
    }
    assert a < |t| ==> b > a;
    r
  }

  predicate IsDigit(u: CodeUnit)
  {
    0x30 <= u <= 0x39
  }

  predicate IsNonZeroDigit(u: CodeUnit)
  {
    0x31 <= u <= 0x39
  }

  predicate IsAsciiLetter(u: CodeUnit)
  {
    (0x41 <= u <= 0x5A) || (0x61 <= u <= 0x7A)
  }

  predicate IsHexDigit(u: CodeUnit)
  {
    IsDigit(u) || (0x41 <= u <= 0x46) || (0x61 <= u <= 0x66)
  }

  function DigitValue(u: CodeUnit): (d: nat)
    requires IsDigit(u)
    ensures d < 10
  {
    (u - 0x30) as nat
  }

  function HexDigitValue(u: CodeUnit): (d: nat)
    requires IsHexDigit(u)
    ensures d < 16
  {
    if IsDigit(u) then (u - 0x30) as nat
    else if u <= 0x46 then (u - 0x41 + 10) as nat
    else (u - 0x61 + 10) as nat
  }

  function DigitUnit(d: nat): (u: CodeUnit)
    requires d < 10
    ensures IsDigit(u) && DigitValue(u) == d
  {
    (0x30 + d) as CodeUnit
  }

  /** Lower-case hexadecimal digit, as JSON.stringify writes in `\uXXXX`. */
  function HexUnit(d: nat): (u: CodeUnit)
    requires d < 16
    ensures IsHexDigit(u) && HexDigitValue(u) == d
  {
    if d < 10 then (0x30 + d) as CodeUnit else (0x61 + d - 10) as CodeUnit
  }

  predicate AllDigits(ds: JsString)
  {
    forall j :: 0 <= j < |ds| ==> IsDigit(ds[j])
  }

  /** The value of a run of decimal digits, as `BigInt(raw)` reads it. */
  function DigitsValue(ds: JsString): nat
    requires AllDigits(ds)
  {
    if ds == [] then 0
    else DigitsValue(ds[..|ds| - 1]) * 10 + DigitValue(ds[|ds| - 1])
  }

  /** Decimal rendering of a natural number without leading zeros. */
  function NatText(n: nat): (ds: JsString)
    ensures |ds| >= 1 && AllDigits(ds)
    ensures (|ds| > 1 ==> IsNonZeroDigit(ds[0])) && (n == 0 <==> ds == ZeroText)
  {
    if n < 10 then [DigitUnit(n)]
    else
      var ds := NatText(n / 10) + [DigitUnit(n % 10)];
      assert ds[0] == NatText(n / 10)[0];
      ds
  }

  lemma {:induction false} NatTextValue(n: nat)
    ensures DigitsValue(NatText(n)) == n
  {
    if n >= 10 {
      var ds := NatText(n);
      assert ds[..|ds| - 1] == NatText(n / 10);
      NatTextValue(n / 10);
    }
  }

  /** `String(i)` for an integer-valued number, and `BigInt.prototype.toString`. */
  function IntText(i: int): (t: JsString)
    ensures |t| >= 1
  {
    if i < 0 then [Minus] + NatText(-i) else NatText(i)
  }

  /** Four lower-case hexadecimal digits of a code unit. */
  function Hex4(u: CodeUnit): (h: JsString)
    ensures |h| == 4 && forall j :: 0 <= j < 4 ==> IsHexDigit(h[j])
  {
    var n1 := u as int / 16;
    var n2 := n1 / 16;
    [HexUnit(n2 / 16), HexUnit(n2 % 16), HexUnit(n1 % 16), HexUnit(u as int % 16)]
  }

  /** `Number.parseInt(hex, 16)` of four hexadecimal digits. */
  function Hex4Value(h: JsString): (u: CodeUnit)
    requires |h| == 4 && forall j :: 0 <= j < 4 ==> IsHexDigit(h[j])
  {
    (((HexDigitValue(h[0]) * 16 + HexDigitValue(h[1])) * 16
      + HexDigitValue(h[2])) * 16 + HexDigitValue(h[3])) as CodeUnit
  }

  lemma Hex4RoundTrip(u: CodeUnit)
    ensures Hex4Value(Hex4(u)) == u
  {
    var n := u as int;
    var n1 := n / 16;
    var n2 := n1 / 16;
    assert n == n1 * 16 + n % 16;
    assert n1 == n2 * 16 + n1 % 16;
    assert n2 == (n2 / 16) * 16 + n2 % 16;
    var h := Hex4(u);
    assert HexDigitValue(h[0]) == n2 / 16;
    assert HexDigitValue(h[1]) == n2 % 16;
    assert HexDigitValue(h[2]) == n1 % 16;
    assert HexDigitValue(h[3]) == n % 16;
  }
}
