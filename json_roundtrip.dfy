/**
 * What the serialiser and the parser of chrome-extension/src/lib/json.js
 * promise together: reading back what `stringifyPretty` or `stringifyCompact`
 * wrote gives the value again, up to the normal form `Normalize` (negative
 * zero is written as `0`, a BigInt in the safe range is read back as a
 * Number, `undefined` becomes `null` in an array and at the top and vanishes
 * as a member).
 */
module JsonRoundTrip {
  import opened JsText
  import opened JsonValues
  import opened JsonParser
  import opened JsonPrinter

  // ---------------------------------------------------------------------
  // The normal form
  // ---------------------------------------------------------------------

  /** The value the parser reads back from the text of `v`. */
  function Normalize(v: Json): (w: Json)
    ensures NoUndef(w)
    decreases v, 1
  {
    match v
    case Undef => Null
    case Num(n) => if n.NegZero? then Num(Int(0)) else v
    case BigInt(i) => if Abs(i, MaxSafeInteger) then Num(Int(i)) else v
    case Arr(items) => Arr(NormItems(items, 0))
    case Obj(ms) => Obj(NormMembers(ms, 0))
    case _ => v
  }

  /** The normal forms of `items[k..]`. */
  function NormItems(items: seq<Json>, k: nat): (r: seq<Json>)
    requires k <= |items|
    ensures |r| == |items| - k
    ensures forall j :: 0 <= j < |r| ==> NoUndef(r[j])
    decreases Arr(items), 0, |items| - k
  {
    if k == |items| then [] else [Normalize(items[k])] + NormItems(items, k + 1)
  }

  /** The normal forms of the members of `ms[k..]` that are not `undefined`. */
  function NormMembers(ms: seq<Member>, k: nat): (r: seq<Member>)
    requires k <= |ms|
    ensures |r| <= |ms| - k
    ensures forall j :: 0 <= j < |r| ==> NoUndef(r[j].value)
    decreases Obj(ms), 0, |ms| - k
  {
    if k == |ms| then []
    else if ms[k].value.Undef? then NormMembers(ms, k + 1)
    else [Member(ms[k].key, Normalize(ms[k].value))] + NormMembers(ms, k + 1)
  }

  // ---------------------------------------------------------------------
  // Positions in the text
  // ---------------------------------------------------------------------

  predicate AllWs(s: JsString, a: nat, b: nat)
    requires a <= b <= |s|
  {
    forall x :: a <= x < b ==> IsJsonWs(s[x])
  }

  /** What may follow a value the serialiser wrote: the end, a separator, a closer or a line break. */
  predicate Delimited(s: JsString, j: nat)
  {
    j == |s|
    || (j < |s| && (s[j] == Comma || s[j] == RightBracket || s[j] == RightBrace || s[j] == LineFeed))
  }

  lemma Split(s: JsString, x: JsString, y: JsString, q: nat)
    requires StartsWithAt(s, x + y, q)
    ensures StartsWithAt(s, x, q) && StartsWithAt(s, y, q + |x|)
  {
    var w := x + y;
    assert s[q..q + |x|] == s[q..q + |w|][..|x|];
    assert s[q + |x|..q + |w|] == s[q..q + |w|][|x|..];
  }

  /** `Split` with the position of the second half named by the caller. */
  lemma SplitAt(s: JsString, x: JsString, y: JsString, q: nat, r: nat)
    requires StartsWithAt(s, x + y, q) && r == q + |x|
    ensures StartsWithAt(s, x, q) && StartsWithAt(s, y, r)
  {
    Split(s, x, y, q);
  }

  lemma UnitAt(s: JsString, w: JsString, q: nat, j: nat)
    requires StartsWithAt(s, w, q) && j < |w|
    ensures q + j < |s| && s[q + j] == w[j]
  {
    assert s[q..q + |w|][j] == s[q + j];
  }

  lemma {:induction false} WsEndOver(s: JsString, a: nat, b: nat)
    requires a <= b <= |s| && AllWs(s, a, b)
    requires b == |s| || !IsJsonWs(s[b])
    ensures WsEnd(s, a) == b
    decreases b - a
  {
    if a < b {
      WsEndOver(s, a + 1, b);
    }
  }

  /** Spaces written at `q` are skipped up to the code unit after them. */
  lemma SpacesSkipped(s: JsString, w: JsString, q: nat)
    requires StartsWithAt(s, w, q) && forall j :: 0 <= j < |w| ==> IsJsonWs(w[j])
    requires q + |w| == |s| || !IsJsonWs(s[q + |w|])
    ensures WsEnd(s, q) == q + |w|
  {
    forall x | q <= x < q + |w|
      ensures IsJsonWs(s[x])
    {
      UnitAt(s, w, q, x - q);
    }
    WsEndOver(s, q, q + |w|);
  }

  lemma ValueAtWs(s: JsString, p: nat, q: nat)
    requires p <= |s| && q <= |s| && WsEnd(s, p) == WsEnd(s, q)
    ensures ValueAt(s, p) == ValueAt(s, q)
  {
  }

  lemma MemberAtWs(s: JsString, p: nat, q: nat)
    requires p <= |s| && q <= |s| && WsEnd(s, p) == WsEnd(s, q)
    ensures MemberAt(s, p) == MemberAt(s, q)
  {
  }

  // ---------------------------------------------------------------------
  // Strings
  // ---------------------------------------------------------------------

  /** One escaped code unit reads back as that code unit. */
  lemma EscapeDecodes(t: JsString, j: nat, s: JsString, p: nat)
    requires j < |t| && StartsWithAt(s, EscapeAt(t, j), p)
    ensures p < |s| && s[p] != DoubleQuote
    ensures DecodeAt(s, p) == Some((t[j], |EscapeAt(t, j)|))
  {
    var c := t[j];
    if c == DoubleQuote {
      ShortEscapeDecodes(s, p, c, DoubleQuote);
    } else if c == Backslash {
      ShortEscapeDecodes(s, p, c, Backslash);
    } else if c == Backspace {
      ShortEscapeDecodes(s, p, c, LowerB);
    } else if c == FormFeed {
      ShortEscapeDecodes(s, p, c, LowerF);
    } else if c == LineFeed {
      ShortEscapeDecodes(s, p, c, LowerN);
    } else if c == CarriageReturn {
      ShortEscapeDecodes(s, p, c, LowerR);
    } else if c == Tab {
      ShortEscapeDecodes(s, p, c, LowerT);
    } else if c < 0x20 || LoneSurrogateAt(t, j) {
      UnicodeEscapeDecodes(s, p, c);
    } else {
      UnitAt(s, [c], p, 0);
    }
  }

  /** A two-character escape `\x` reads back as the code unit it stands for. */
  lemma ShortEscapeDecodes(s: JsString, p: nat, c: CodeUnit, letter: CodeUnit)
    requires StartsWithAt(s, [Backslash, letter], p) && SimpleEscape(letter) == Some(c)
    ensures p < |s| && s[p] != DoubleQuote
    ensures DecodeAt(s, p) == Some((c, 2))
  {
    UnitAt(s, [Backslash, letter], p, 0);
    UnitAt(s, [Backslash, letter], p, 1);
  }

  /** A `\uXXXX` escape reads back as the code unit it stands for. */
  lemma UnicodeEscapeDecodes(s: JsString, p: nat, c: CodeUnit)
    requires StartsWithAt(s, UnicodeEscape(c), p)
    ensures p < |s| && s[p] != DoubleQuote
    ensures DecodeAt(s, p) == Some((c, 6))
  {
    var e := UnicodeEscape(c);
    UnitAt(s, e, p, 0);
    UnitAt(s, e, p, 1);
    assert s[p + 2..p + 6] == Hex4(c) by {
      assert s[p..p + 6] == e;
      assert e[2..] == Hex4(c);
    }
    assert Hex4At(s, p + 2) by {
      forall k | p + 2 <= k < p + 6
        ensures IsHexDigit(s[k])
      {
        assert s[k] == s[p + 2..p + 6][k - p - 2];
      }
    }
    Hex4RoundTrip(c);
  }

  /** The text of `t[j..]` starts with the escape of `t[j]`, which reads back as `t[j]`. */
  lemma EscapeFirst(t: JsString, j: nat, s: JsString, p: nat)
    requires j < |t| && StartsWithAt(s, EscapeFrom(t, j) + [DoubleQuote], p)
    ensures p < |s| && s[p] != DoubleQuote
    ensures DecodeAt(s, p) == Some((t[j], |EscapeAt(t, j)|))
    ensures StartsWithAt(s, EscapeFrom(t, j + 1) + [DoubleQuote], p + |EscapeAt(t, j)|)
    ensures |EscapeFrom(t, j)| == |EscapeAt(t, j)| + |EscapeFrom(t, j + 1)|
  {
    var e := EscapeAt(t, j);
    var tail := EscapeFrom(t, j + 1);
    assert EscapeFrom(t, j) + [DoubleQuote] == e + (tail + [DoubleQuote]);
    Split(s, e, tail + [DoubleQuote], p);
    EscapeDecodes(t, j, s, p);
  }

  /** One step of the string loop over a unit that is not the closing quote. */
  lemma StringRestStep(s: JsString, i: nat, out: JsString, c: CodeUnit, w: nat)
    requires i < |s| && s[i] != DoubleQuote && DecodeAt(s, i) == Some((c, w))
    ensures StringRest(s, i, out) == StringRest(s, i + w, out + [c])
  {
  }

  lemma EscapeEnd(t: JsString, s: JsString, p: nat, out: JsString)
    requires StartsWithAt(s, EscapeFrom(t, |t|) + [DoubleQuote], p)
    ensures StringRest(s, p, out) == Done(out + t[|t|..], p + |EscapeFrom(t, |t|)| + 1)
  {
    assert EscapeFrom(t, |t|) + [DoubleQuote] == [DoubleQuote];
    UnitAt(s, [DoubleQuote], p, 0);
    assert out + t[|t|..] == out;
  }

  /** Reading the escape of `t[j]` adds `t[j]` and leaves the rest of the text to read. */
  lemma EscapeNext(t: JsString, j: nat, s: JsString, p: nat, out: JsString)
    requires j < |t| && StartsWithAt(s, EscapeFrom(t, j) + [DoubleQuote], p)
    requires StringRest(s, p + |EscapeAt(t, j)|, out + [t[j]])
      == Done(out + [t[j]] + t[j + 1..], p + |EscapeAt(t, j)| + |EscapeFrom(t, j + 1)| + 1)
    ensures StringRest(s, p, out) == Done(out + t[j..], p + |EscapeFrom(t, j)| + 1)
  {
    EscapeFirst(t, j, s, p);
    StringRestStep(s, p, out, t[j], |EscapeAt(t, j)|);
    assert out + [t[j]] + t[j + 1..] == out + t[j..] by {
      assert t[j..] == [t[j]] + t[j + 1..];
    }
  }

  /** The escaped text of `t[j..]` and the closing quote read back as `t[j..]`. */
  lemma {:induction false} EscapeRoundTrip(t: JsString, j: nat, s: JsString, p: nat, out: JsString)
    requires j <= |t| && StartsWithAt(s, EscapeFrom(t, j) + [DoubleQuote], p)
    ensures StringRest(s, p, out) == Done(out + t[j..], p + |EscapeFrom(t, j)| + 1)
    decreases |t| - j
  {
    hide *;
    if j == |t| {
      EscapeEnd(t, s, p, out);
    } else {
      EscapeFirst(t, j, s, p);
      EscapeRoundTrip(t, j + 1, s, p + |EscapeAt(t, j)|, out + [t[j]]);
      EscapeNext(t, j, s, p, out);
    }
  }

  /** `JSON.stringify` of a string reads back as that string. */
  lemma StringRoundTrip(t: JsString, s: JsString, i: nat)
    requires StartsWithAt(s, Quote(t), i)
    ensures StringAt(s, i) == Done(t, i + |Quote(t)|)
  {
    assert Quote(t) == [DoubleQuote] + (EscapeFrom(t, 0) + [DoubleQuote]);
    Split(s, [DoubleQuote], EscapeFrom(t, 0) + [DoubleQuote], i);
    UnitAt(s, Quote(t), i, 0);
    EscapeRoundTrip(t, 0, s, i + 1, []);
    assert [] + t[0..] == t;
  }

  // ---------------------------------------------------------------------
  // Integers
  // ---------------------------------------------------------------------

  lemma {:induction false} DigitsEndOver(s: JsString, a: nat, b: nat)
    requires a <= b <= |s| && !DigitAt(s, b)
    requires forall x :: a <= x < b ==> IsDigit(s[x])
    ensures DigitsEnd(s, a) == b
    decreases b - a
  {
    if a < b {
      DigitsEndOver(s, a + 1, b);
    }
  }

  /** A run of digits without a leading zero, signed or not, scans as one integer literal. */
  lemma DigitRunScan(s: JsString, i: nat, sign: JsString, ds: JsString)
    requires sign == [] || sign == [Minus]
    requires |ds| >= 1 && AllDigits(ds) && (|ds| > 1 ==> ds[0] != Zero)
    requires StartsWithAt(s, sign + ds, i) && Delimited(s, i + |sign| + |ds|)
    ensures AllDigits(if (sign + ds)[0] == Minus then (sign + ds)[1..] else sign + ds)
    ensures NumberAt(s, i) == Done(NumberValue(sign + ds, true), i + |sign| + |ds|)
  {
    var t := sign + ds;
    var d := i + |sign|;
    var end := d + |ds|;
    assert t[|sign|..] == ds;
    Split(s, sign, ds, i);
    SignAt(s, i, sign, ds);
    IntPartRun(s, d, ds);
    NoFraction(s, end);
    NumberAtInt(s, i, d, end);
    assert s[i..end] == t;
  }

  /** The sign is read exactly when it was written. */
  lemma SignAt(s: JsString, i: nat, sign: JsString, ds: JsString)
    requires sign == [] || sign == [Minus]
    requires |ds| >= 1 && AllDigits(ds)
    requires StartsWithAt(s, sign, i) && StartsWithAt(s, ds, i + |sign|)
    ensures i + |sign| < |s|
    ensures At(s, i, Minus) <==> sign == [Minus]
  {
    UnitAt(s, ds, i + |sign|, 0);
    if sign == [Minus] {
      UnitAt(s, sign, i, 0);
    }
  }

  /** Digits written without a leading zero are the integer part. */
  lemma IntPartRun(s: JsString, d: nat, ds: JsString)
    requires |ds| >= 1 && AllDigits(ds) && (|ds| > 1 ==> ds[0] != Zero)
    requires StartsWithAt(s, ds, d) && !DigitAt(s, d + |ds|)
    ensures IntPartEnd(s, d) == Some(d + |ds|)
  {
    forall x | d <= x < d + |ds|
      ensures IsDigit(s[x])
    {
      UnitAt(s, ds, d, x - d);
    }
    UnitAt(s, ds, d, 0);
    if ds[0] != Zero {
      DigitsEndOver(s, d, d + |ds|);
    }
  }

  /** A number the serialiser wrote is followed by neither a fraction nor an exponent. */
  lemma NoFraction(s: JsString, end: nat)
    requires Delimited(s, end)
    ensures !DigitAt(s, end)
    ensures end <= |s| && FracEnd(s, end) == Some(end) && ExpEnd(s, end) == Some(end)
  {
  }

  /** `parseNumber` of an integer literal: the optional sign, the integer part, nothing after it. */
  lemma NumberAtInt(s: JsString, i: nat, d: nat, end: nat)
    requires d < |s| && (if At(s, i, Minus) then d == i + 1 else d == i)
    requires d <= end <= |s| && IntPartEnd(s, d) == Some(end)
    requires FracEnd(s, end) == Some(end) && ExpEnd(s, end) == Some(end)
    ensures AllDigits(if s[i..end][0] == Minus then s[i..end][1..] else s[i..end])
    ensures NumberAt(s, i) == Done(NumberValue(s[i..end], true), end)
  {
    IntPartDigits(s, d);
    assert s[i..end][if At(s, i, Minus) then 1 else 0..] == s[d..end];
  }

  /** The value of an integer's own decimal text. */
  lemma IntTextValue(x: int)
    ensures var t := IntText(x);
      AllDigits(if t[0] == Minus then t[1..] else t)
      && NumberValue(t, true) == if Abs(x, MaxSafeInteger) then Num(Int(x)) else BigInt(x)
  {
    var n: nat := if x < 0 then -x else x;
    var ds := NatText(n);
    var t := IntText(x);
    NatTextValue(n);
    if x < 0 {
      assert t[1..] == ds;
      assert t != NegZeroText by {
        assert ds != ZeroText;
      }
    } else {
      assert t != NegZeroText by {
        assert IsDigit(t[0]);
      }
    }
  }

  /** An integer's decimal text reads back as a Number in the safe range and as a BigInt beyond it. */
  lemma IntTextRoundTrip(x: int, s: JsString, i: nat)
    requires StartsWithAt(s, IntText(x), i) && Delimited(s, i + |IntText(x)|)
    ensures NumberAt(s, i)
      == Done(if Abs(x, MaxSafeInteger) then Num(Int(x)) else BigInt(x), i + |IntText(x)|)
  {
    var n: nat := if x < 0 then -x else x;
    var sign: JsString := if x < 0 then [Minus] else [];
    assert IntText(x) == sign + NatText(n);
    DigitRunScan(s, i, sign, NatText(n));
    IntTextValue(x);
  }

  // ---------------------------------------------------------------------
  // Layout
  // ---------------------------------------------------------------------

  function Sep(pretty: bool): (sep: JsString)
    ensures |sep| >= 1
  {
    if pretty then PrettySep else CompactSep
  }

  /** What follows an opening bracket before the first part. */
  function Lead(pretty: bool): JsString
  {
    if pretty then [LineFeed] else []
  }

  /** The indentation of a part. */
  function Indent(depth: nat, pretty: bool): JsString
  {
    if pretty then Pad(depth + 1) else []
  }

  /** What separates `:` from a member's value. */
  function Gap(pretty: bool): JsString
  {
    if pretty then [Space] else []
  }

  /** What follows the last part: the closer, on its own line at the parent's indent in the pretty form. */
  function Tail(close: CodeUnit, depth: nat, pretty: bool): JsString
  {
    if pretty then [LineFeed] + Pad(depth) + [close] else [close]
  }

  predicate WsText(w: JsString)
  {
    forall j :: 0 <= j < |w| ==> IsJsonWs(w[j])
  }

  /** A code unit a written value can start with. */
  predicate ValueStart(u: CodeUnit)
  {
    u == LeftBrace || u == LeftBracket || u == DoubleQuote || u == LowerT || u == LowerF
    || u == LowerN || u == Minus || IsDigit(u)
  }

  lemma BracketedShape(open: CodeUnit, parts: seq<JsString>, close: CodeUnit, depth: nat, pretty: bool)
    ensures Bracketed(open, parts, close, depth, pretty)
      == [open] + Lead(pretty) + (Join(parts, Sep(pretty)) + Tail(close, depth, pretty))
  {
  }

  /** After the last part, white space leads to the closer. */
  lemma TailClose(s: JsString, e: nat, close: CodeUnit, depth: nat, pretty: bool)
    requires close == RightBracket || close == RightBrace
    requires StartsWithAt(s, Tail(close, depth, pretty), e)
    ensures Delimited(s, e)
    ensures e + |Tail(close, depth, pretty)| - 1 < |s|
    ensures WsEnd(s, e) == e + |Tail(close, depth, pretty)| - 1
    ensures s[e + |Tail(close, depth, pretty)| - 1] == close
  {
    if pretty {
      PrettyTailClose(s, e, close, depth);
    } else {
      UnitAt(s, [close], e, 0);
      WsEndOver(s, e, e);
    }
  }

  lemma PrettyTailClose(s: JsString, e: nat, close: CodeUnit, depth: nat)
    requires close == RightBracket || close == RightBrace
    requires StartsWithAt(s, [LineFeed] + Pad(depth) + [close], e)
    ensures e < |s| && s[e] == LineFeed
    ensures e + 1 + 2 * depth < |s|
    ensures WsEnd(s, e) == e + 1 + 2 * depth
    ensures s[e + 1 + 2 * depth] == close
  {
    var w := [LineFeed] + Pad(depth);
    Split(s, w, [close], e);
    UnitAt(s, [close], e + |w|, 0);
    UnitAt(s, w, e, 0);
    SpacesSkipped(s, w, e);
  }

  /** A separator: a comma, then (in the pretty form) a line break. */
  lemma SepNext(s: JsString, e: nat, pretty: bool)
    requires StartsWithAt(s, Sep(pretty), e)
    ensures e < |s| && s[e] == Comma && Delimited(s, e) && WsEnd(s, e) == e
    ensures e + |Sep(pretty)| <= |s| && WsEnd(s, e + 1) == WsEnd(s, e + |Sep(pretty)|)
  {
    UnitAt(s, Sep(pretty), e, 0);
    if pretty {
      UnitAt(s, Sep(pretty), e, 1);
    }
  }

  lemma RenderStart(v: Json, depth: nat, inArray: bool, pretty: bool)
    requires NoFloats(v) && (inArray || !v.Undef?)
    ensures |Render(v, depth, inArray, pretty).value| >= 1
    ensures ValueStart(Render(v, depth, inArray, pretty).value[0])
  {
    match v
    case Num(n) =>
      var t := IntText(if n.Int? then n.i else 0);
      assert t[0] == Minus || IsDigit(t[0]);
    case BigInt(i) =>
      var t := IntText(i);
      assert t[0] == Minus || IsDigit(t[0]);
    case _ =>
  }

  // ---------------------------------------------------------------------
  // The part lists read from the front
  // ---------------------------------------------------------------------

  /** The parts of `items[k..]`. */
  function ItemPartsFrom(items: seq<Json>, k: nat, depth: nat, pretty: bool): (parts: seq<JsString>)
    requires k <= |items|
    ensures |parts| == |items| - k
    decreases |items| - k
  {
    if k == |items| then [] else [ItemPart(items[k], depth, pretty)] + ItemPartsFrom(items, k + 1, depth, pretty)
  }

  lemma {:induction false} ItemPartsSplit(items: seq<Json>, k: nat, depth: nat, pretty: bool)
    requires k <= |items|
    ensures ItemParts(items, k, depth, pretty) + ItemPartsFrom(items, k, depth, pretty)
      == ItemParts(items, |items|, depth, pretty)
    decreases |items| - k
  {
    if k < |items| {
      ItemPartsSplit(items, k + 1, depth, pretty);
      assert ItemParts(items, k + 1, depth, pretty)
        == ItemParts(items, k, depth, pretty) + [ItemPart(items[k], depth, pretty)];
    }
  }

  /** The parts of the members of `ms[k..]` that are not skipped. */
  function MemberPartsFrom(ms: seq<Member>, k: nat, depth: nat, pretty: bool): (parts: seq<JsString>)
    requires k <= |ms|
    decreases |ms| - k
  {
    if k == |ms| then []
    else match Render(ms[k].value, depth + 1, false, pretty)
      case None => MemberPartsFrom(ms, k + 1, depth, pretty)
      case Some(text) => [MemberPart(ms[k].key, text, depth, pretty)] + MemberPartsFrom(ms, k + 1, depth, pretty)
  }

  lemma {:induction false} MemberPartsSplit(ms: seq<Member>, k: nat, depth: nat, pretty: bool)
    requires k <= |ms|
    ensures MemberParts(ms, k, depth, pretty) + MemberPartsFrom(ms, k, depth, pretty)
      == MemberParts(ms, |ms|, depth, pretty)
    decreases |ms| - k
  {
    hide *;
    if k == |ms| {
      MemberPartsEnd(ms, depth, pretty);
      assert MemberParts(ms, k, depth, pretty) + [] == MemberParts(ms, k, depth, pretty);
    } else {
      MemberPartsSplit(ms, k + 1, depth, pretty);
      MemberPartsStep(ms, k, depth, pretty);
      var before := MemberParts(ms, k, depth, pretty);
      var one := MemberPartOf(ms[k], depth, pretty);
      var after := MemberPartsFrom(ms, k + 1, depth, pretty);
      assert before + one + after == before + (one + after);
    }
  }

  /** The part `ms[k]` contributes: none when its value renders to nothing. */
  function MemberPartOf(m: Member, depth: nat, pretty: bool): (parts: seq<JsString>)
    ensures |parts| <= 1
  {
    match Render(m.value, depth + 1, false, pretty)
    case None => []
    case Some(text) => [MemberPart(m.key, text, depth, pretty)]
  }

  lemma MemberPartsEnd(ms: seq<Member>, depth: nat, pretty: bool)
    ensures MemberPartsFrom(ms, |ms|, depth, pretty) == []
  {
  }

  lemma MemberPartsStep(ms: seq<Member>, k: nat, depth: nat, pretty: bool)
    requires k < |ms|
    ensures MemberParts(ms, k + 1, depth, pretty) == MemberParts(ms, k, depth, pretty) + MemberPartOf(ms[k], depth, pretty)
    ensures MemberPartsFrom(ms, k, depth, pretty) == MemberPartOf(ms[k], depth, pretty) + MemberPartsFrom(ms, k + 1, depth, pretty)
  {
  }

  /** No part is left exactly when no member is left after normalising. */
  lemma {:induction false} NoPartsNoMembers(ms: seq<Member>, k: nat, depth: nat, pretty: bool)
    requires k <= |ms|
    ensures MemberPartsFrom(ms, k, depth, pretty) == [] <==> NormMembers(ms, k) == []
    decreases |ms| - k
  {
    if k < |ms| {
      NoPartsNoMembers(ms, k + 1, depth, pretty);
    }
  }

  /** Skipping white space twice is skipping it once. */
  lemma WsEndAgain(s: JsString, i: nat)
    requires i <= |s|
    ensures WsEnd(s, WsEnd(s, i)) == WsEnd(s, i)
  {
  }

  /** White space written at `a` is skipped together with whatever white space follows it. */
  lemma {:induction false} WsSkipped(s: JsString, a: nat, w: JsString)
    requires WsText(w) && StartsWithAt(s, w, a)
    ensures WsEnd(s, a) == WsEnd(s, a + |w|)
    decreases |w|
  {
    if w != [] {
      UnitAt(s, w, a, 0);
      assert w == [w[0]] + w[1..];
      Split(s, [w[0]], w[1..], a);
      WsSkipped(s, a + 1, w[1..]);
    }
  }

  /** Indentation in front of a part is skipped up to the part's first code unit. */
  lemma IndentSkipped(s: JsString, q: nat, ind: JsString, body: JsString)
    requires WsText(ind) && |body| >= 1 && !IsJsonWs(body[0])
    requires StartsWithAt(s, ind + body, q)
    ensures q + |ind| < |s| && s[q + |ind|] == body[0]
    ensures WsEnd(s, q) == q + |ind|
  {
    Split(s, ind, body, q);
    UnitAt(s, body, q + |ind|, 0);
    SpacesSkipped(s, ind, q);
  }

  lemma JoinFirst(part: JsString, rest: seq<JsString>, sep: JsString)
    ensures Join([part] + rest, sep) == if rest == [] then part else part + sep + Join(rest, sep)
  {
    assert ([part] + rest)[1..] == rest;
  }

  /** The text of a list whose first part is `ind + text`, with what follows that part named. */
  function ListAfter(rest: seq<JsString>, sep: JsString, tail: JsString): JsString
  {
    if rest == [] then tail else sep + (Join(rest, sep) + tail)
  }

  lemma ListShape(ind: JsString, text: JsString, rest: seq<JsString>, sep: JsString, tail: JsString)
    ensures Join([ind + text] + rest, sep) + tail == ind + (text + ListAfter(rest, sep, tail))
  {
    JoinFirst(ind + text, rest, sep);
  }

  /**
   * A list whose first part is the white space `ind` and then `text`: white
   * space is skipped up to the text, and after the text comes either the
   * tail or a separator and the other parts.
   */
  lemma ListLayout(s: JsString, q: nat, ind: JsString, text: JsString, rest: seq<JsString>, sep: JsString, tail: JsString)
    requires WsText(ind) && |text| >= 1 && !IsJsonWs(text[0])
    requires StartsWithAt(s, Join([ind + text] + rest, sep) + tail, q)
    ensures q + |ind| < |s| && s[q + |ind|] == text[0] && WsEnd(s, q) == q + |ind|
    ensures StartsWithAt(s, text, q + |ind|)
    ensures StartsWithAt(s, ListAfter(rest, sep, tail), q + |ind| + |text|)
    ensures |Join([ind + text] + rest, sep) + tail| == |ind| + |text| + |ListAfter(rest, sep, tail)|
  {
    ListShape(ind, text, rest, sep, tail);
    ListHead(s, q, ind, text, ListAfter(rest, sep, tail));
  }

  lemma ListHead(s: JsString, q: nat, ind: JsString, text: JsString, after: JsString)
    requires WsText(ind) && |text| >= 1 && !IsJsonWs(text[0])
    requires StartsWithAt(s, ind + (text + after), q)
    ensures q + |ind| < |s| && s[q + |ind|] == text[0] && WsEnd(s, q) == q + |ind|
    ensures StartsWithAt(s, text, q + |ind|)
    ensures StartsWithAt(s, after, q + |ind| + |text|)
  {
    SplitAt(s, ind, text + after, q, q + |ind|);
    SplitAt(s, text, after, q + |ind|, q + |ind| + |text|);
    IndentSkipped(s, q, ind, text + after);
  }

  /** After a part that is not the last: a separator, then the other parts. */
  lemma ListNext(s: JsString, e: nat, rest: seq<JsString>, sep: JsString, tail: JsString)
    requires rest != [] && StartsWithAt(s, ListAfter(rest, sep, tail), e)
    ensures StartsWithAt(s, sep, e) && StartsWithAt(s, Join(rest, sep) + tail, e + |sep|)
    ensures |ListAfter(rest, sep, tail)| == |sep| + |Join(rest, sep) + tail|
  {
    SplitAt(s, sep, Join(rest, sep) + tail, e, e + |sep|);
  }

  /** An opening bracket, white space, then the body of the container. */
  lemma BracketLayout(s: JsString, i: nat, open: CodeUnit, lead: JsString, body: JsString)
    requires WsText(lead) && StartsWithAt(s, [open] + lead + body, i)
    ensures i < |s| && s[i] == open && i + 1 + |lead| <= |s|
    ensures StartsWithAt(s, body, i + 1 + |lead|)
    ensures WsEnd(s, WsEnd(s, i + 1)) == WsEnd(s, i + 1 + |lead|)
  {
    BracketOpen(s, i, open, lead, body);
    BracketBody(s, i, open, lead, body);
    BracketLead(s, i, open, lead, body);
  }

  lemma BracketOpen(s: JsString, i: nat, open: CodeUnit, lead: JsString, body: JsString)
    requires StartsWithAt(s, [open] + lead + body, i)
    ensures i < |s| && s[i] == open && i + 1 + |lead| <= |s|
  {
    SplitAt(s, [open] + lead, body, i, i + 1 + |lead|);
    SplitAt(s, [open], lead, i, i + 1);
    UnitAt(s, [open], i, 0);
  }

  lemma BracketBody(s: JsString, i: nat, open: CodeUnit, lead: JsString, body: JsString)
    requires StartsWithAt(s, [open] + lead + body, i)
    ensures StartsWithAt(s, body, i + 1 + |lead|)
  {
    SplitAt(s, [open] + lead, body, i, i + 1 + |lead|);
  }

  lemma BracketLead(s: JsString, i: nat, open: CodeUnit, lead: JsString, body: JsString)
    requires WsText(lead) && StartsWithAt(s, [open] + lead + body, i)
    ensures WsEnd(s, WsEnd(s, i + 1)) == WsEnd(s, i + 1 + |lead|)
  {
    SplitAt(s, [open] + lead, body, i, i + 1 + |lead|);
    SplitAt(s, [open], lead, i, i + 1);
    WsSkipped(s, i + 1, lead);
    WsEndAgain(s, i + 1);
  }

  lemma ItemPartShape(item: Json, depth: nat, pretty: bool)
    ensures Render(item, depth + 1, true, pretty).Some?
    ensures ItemPart(item, depth, pretty) == Indent(depth, pretty) + Render(item, depth + 1, true, pretty).value
  {
  }

  /** A member's text after its indentation: the quoted key, `:`, the gap, the value's text. */
  function MemberBody(key: JsString, text: JsString, pretty: bool): (b: JsString)
    ensures |b| >= 1 && b[0] == DoubleQuote
  {
    Quote(key) + ([Colon] + Gap(pretty) + text)
  }

  lemma MemberPartShape(key: JsString, text: JsString, depth: nat, pretty: bool)
    ensures MemberPart(key, text, depth, pretty) == Indent(depth, pretty) + MemberBody(key, text, pretty)
  {
  }

  /** Where the value of a member whose body is written at `q1` starts. */
  function ValuePos(key: JsString, q1: nat, pretty: bool): nat
  {
    q1 + |Quote(key)| + 1 + |Gap(pretty)|
  }

  /** The key and the colon of a member's body. */
  lemma MemberKeyLayout(key: JsString, text: JsString, pretty: bool, s: JsString, q1: nat)
    requires StartsWithAt(s, MemberBody(key, text, pretty), q1)
    ensures StartsWithAt(s, Quote(key), q1)
    ensures q1 + |Quote(key)| < |s| && s[q1 + |Quote(key)|] == Colon
    ensures WsEnd(s, q1 + |Quote(key)|) == q1 + |Quote(key)|
  {
    MemberSplit(key, text, pretty, s, q1);
    MemberColon(s, q1 + |Quote(key)|, Gap(pretty));
  }

  /** Where the value of a member's body sits, and what follows it. */
  lemma MemberValueLayout(key: JsString, text: JsString, pretty: bool, s: JsString, q1: nat)
    requires StartsWithAt(s, MemberBody(key, text, pretty), q1)
    requires Delimited(s, q1 + |MemberBody(key, text, pretty)|)
    ensures ValuePos(key, q1, pretty) <= |s|
    ensures WsEnd(s, q1 + |Quote(key)| + 1) == WsEnd(s, ValuePos(key, q1, pretty))
    ensures StartsWithAt(s, text, ValuePos(key, q1, pretty))
    ensures Delimited(s, ValuePos(key, q1, pretty) + |text|)
    ensures q1 + |MemberBody(key, text, pretty)| == ValuePos(key, q1, pretty) + |text|
  {
    hide *;
    MemberSplit(key, text, pretty, s, q1);
    MemberColon(s, q1 + |Quote(key)|, Gap(pretty));
    GapWs(pretty);
    WsSkipped(s, q1 + |Quote(key)| + 1, Gap(pretty));
    ValuePosIs(key, q1, pretty);
    WithinText(s, text, ValuePos(key, q1, pretty));
  }

  lemma GapWs(pretty: bool)
    ensures WsText(Gap(pretty))
  {
  }

  lemma ValuePosIs(key: JsString, q1: nat, pretty: bool)
    ensures ValuePos(key, q1, pretty) == q1 + |Quote(key)| + 1 + |Gap(pretty)|
  {
  }

  lemma WithinText(s: JsString, w: JsString, i: nat)
    requires StartsWithAt(s, w, i)
    ensures i + |w| <= |s|
  {
  }

  lemma MemberSplit(key: JsString, text: JsString, pretty: bool, s: JsString, q1: nat)
    requires StartsWithAt(s, MemberBody(key, text, pretty), q1)
    ensures StartsWithAt(s, Quote(key), q1)
    ensures StartsWithAt(s, [Colon] + Gap(pretty), q1 + |Quote(key)|)
    ensures StartsWithAt(s, text, ValuePos(key, q1, pretty))
    ensures q1 + |MemberBody(key, text, pretty)| == ValuePos(key, q1, pretty) + |text|
  {
    var q2 := q1 + |Quote(key)|;
    SplitAt(s, Quote(key), [Colon] + Gap(pretty) + text, q1, q2);
    SplitAt(s, [Colon] + Gap(pretty), text, q2, q2 + 1 + |Gap(pretty)|);
  }

  lemma MemberColon(s: JsString, q2: nat, gap: JsString)
    requires StartsWithAt(s, [Colon] + gap, q2)
    ensures q2 < |s| && s[q2] == Colon && WsEnd(s, q2) == q2
    ensures StartsWithAt(s, gap, q2 + 1)
  {
    SplitAt(s, [Colon], gap, q2, q2 + 1);
    UnitAt(s, [Colon], q2, 0);
    WsEndOver(s, q2, q2);
  }

  /** A member read by the parser: the key written at `q1`, a colon, and a value that reads as `n`. */
  lemma MemberRead(s: JsString, p: nat, q1: nat, key: JsString, q3: nat, n: Json, e: nat)
    requires p <= |s| && WsEnd(s, p) == q1 && StartsWithAt(s, Quote(key), q1)
    requires q1 + |Quote(key)| < |s| && s[q1 + |Quote(key)|] == Colon
    requires WsEnd(s, q1 + |Quote(key)|) == q1 + |Quote(key)|
    requires q3 <= |s| && WsEnd(s, q1 + |Quote(key)| + 1) == WsEnd(s, q3)
    requires ValueAt(s, q3) == Done(n, e)
    ensures MemberAt(s, p) == Done(Member(key, n), e)
  {
    hide *;
    UnitAt(s, Quote(key), q1, 0);
    AtHere(s, q1, DoubleQuote);
    AtHere(s, q1 + |Quote(key)|, Colon);
    StringRoundTrip(key, s, q1);
    ValueAtWs(s, q1 + |Quote(key)| + 1, q3);
    MemberAtStep(s, p, q1, key, q1 + |Quote(key)|, n, e);
  }

  lemma AtHere(s: JsString, i: nat, u: CodeUnit)
    requires i < |s| && s[i] == u
    ensures At(s, i, u)
  {
  }

  // ---------------------------------------------------------------------
  // Reading one value
  // ---------------------------------------------------------------------

  lemma StrValueAt(s: JsString, i: nat, t: JsString)
    requires StartsWithAt(s, Quote(t), i)
    ensures ValueAt(s, i) == Done(Str(t), i + |Quote(t)|)
  {
    UnitAt(s, Quote(t), i, 0);
    WsEndOver(s, i, i);
    StringRoundTrip(t, s, i);
  }

  lemma IntValueAt(s: JsString, i: nat, x: int)
    requires StartsWithAt(s, IntText(x), i) && Delimited(s, i + |IntText(x)|)
    ensures ValueAt(s, i) == Done(if Abs(x, MaxSafeInteger) then Num(Int(x)) else BigInt(x), i + |IntText(x)|)
  {
    var t := IntText(x);
    assert t[0] == Minus || IsDigit(t[0]);
    UnitAt(s, t, i, 0);
    WsEndOver(s, i, i);
    IntTextRoundTrip(x, s, i);
  }

  lemma ArrValueAt(s: JsString, i: nat)
    requires i < |s| && s[i] == LeftBracket
    ensures ValueAt(s, i) == ArrayAt(s, i)
  {
    WsEndOver(s, i, i);
  }

  lemma ObjValueAt(s: JsString, i: nat)
    requires i < |s| && s[i] == LeftBrace
    ensures ValueAt(s, i) == ObjectAt(s, i)
  {
    WsEndOver(s, i, i);
  }

  lemma EmptyArrayAt(s: JsString, i: nat)
    requires StartsWithAt(s, EmptyArrayText, i)
    ensures i < |s| && s[i] == LeftBracket
    ensures ArrayAt(s, i) == Done(Arr([]), i + |EmptyArrayText|)
  {
    UnitAt(s, EmptyArrayText, i, 0);
    UnitAt(s, EmptyArrayText, i, 1);
    WsEndOver(s, i + 1, i + 1);
  }

  lemma EmptyObjectAt(s: JsString, i: nat)
    requires StartsWithAt(s, EmptyObjectText, i)
    ensures i < |s| && s[i] == LeftBrace
    ensures ObjectAt(s, i) == Done(Obj([]), i + |EmptyObjectText|)
  {
    UnitAt(s, EmptyObjectText, i, 0);
    UnitAt(s, EmptyObjectText, i, 1);
    WsEndOver(s, i + 1, i + 1);
  }

  /** One member read in full: a key, a colon, a value. */
  lemma MemberAtStep(s: JsString, p: nat, q1: nat, key: JsString, q2: nat, v: Json, e: nat)
    requires p <= |s| && WsEnd(s, p) == q1 && At(s, q1, DoubleQuote) && StringAt(s, q1) == Done(key, q2)
    requires WsEnd(s, q2) == q2 && At(s, q2, Colon) && ValueAt(s, q2 + 1) == Done(v, e)
    ensures MemberAt(s, p) == Done(Member(key, v), e)
  {
  }

  lemma ArrayNextComma(s: JsString, q: nat, out: seq<Json>)
    requires q < |s| && s[q] == Comma
    ensures ArrayNext(s, q, out) == ArrayRest(s, q + 1, out)
  {
  }

  lemma ArrayNextClose(s: JsString, q: nat, out: seq<Json>)
    requires q < |s| && s[q] == RightBracket
    ensures ArrayNext(s, q, out) == Done(Arr(out), q + 1)
  {
  }

  lemma ObjectNextComma(s: JsString, q: nat, out: seq<Member>)
    requires q < |s| && s[q] == Comma
    ensures ObjectNext(s, q, out) == ObjectRest(s, q + 1, out)
  {
  }

  lemma ObjectNextClose(s: JsString, q: nat, out: seq<Member>)
    requires q < |s| && s[q] == RightBrace
    ensures ObjectNext(s, q, out) == Done(Obj(out), q + 1)
  {
  }

  /** The keys of `out` are none of the keys of `ms[k..]`. */
  predicate KeysBefore(out: seq<Member>, ms: seq<Member>, k: nat)
  {
    forall j, l :: 0 <= j < |out| && k <= l < |ms| ==> out[j].key != ms[l].key
  }

  /** A key not read yet is appended by the parser's assignment. */
  lemma FreshKey(out: seq<Member>, ms: seq<Member>, k: nat, value: Json)
    requires k < |ms| && KeysBefore(out, ms, k)
    ensures Assign(out, ms[k].key, value) == out + [Member(ms[k].key, value)]
  {
    assert ms[k].key !in Keys(out) by {
      forall j | 0 <= j < |out|
        ensures Keys(out)[j] != ms[k].key
      {
      }
    }
    AssignKeys(out, ms[k].key, value);
  }

  lemma KeysBeforeNext(out: seq<Member>, ms: seq<Member>, k: nat, value: Json)
    requires k < |ms| && UniqueKeys(ms) && KeysBefore(out, ms, k)
    ensures KeysBefore(out + [Member(ms[k].key, value)], ms, k + 1)
  {
  }

  // ---------------------------------------------------------------------
  // Values
  // ---------------------------------------------------------------------

  /**
   * The text of a value, followed by what may follow a value, reads back as
   * the value's normal form and ends where the text ends.
   */
  lemma {:induction false} ValueRoundTrip(v: Json, depth: nat, inArray: bool, pretty: bool, s: JsString, i: nat)
    requires WellFormed(v) && NoFloats(v) && (inArray || !v.Undef?)
    requires StartsWithAt(s, Render(v, depth, inArray, pretty).value, i)
    requires Delimited(s, i + |Render(v, depth, inArray, pretty).value|)
    ensures ValueAt(s, i) == Done(Normalize(v), i + |Render(v, depth, inArray, pretty).value|)
    decreases v, 2
  {
    hide *;
    match v
    case Arr(items) =>
      ArrRoundTrip(items, depth, inArray, pretty, s, i);
    case Obj(ms) =>
      ObjRoundTrip(ms, depth, inArray, pretty, s, i);
    case _ =>
      LeafRoundTrip(v, depth, inArray, pretty, s, i);
  }

  /** A value other than an array or an object reads back from its text. */
  lemma LeafRoundTrip(v: Json, depth: nat, inArray: bool, pretty: bool, s: JsString, i: nat)
    requires !v.Arr? && !v.Obj? && NoFloats(v) && (inArray || !v.Undef?)
    requires StartsWithAt(s, Render(v, depth, inArray, pretty).value, i)
    requires Delimited(s, i + |Render(v, depth, inArray, pretty).value|)
    ensures ValueAt(s, i) == Done(Normalize(v), i + |Render(v, depth, inArray, pretty).value|)
  {
    hide *;
    if v.Str? {
      StrRoundTrip(v.s, depth, inArray, pretty, s, i);
    } else if v.Num? {
      NumRoundTrip(v.n, depth, inArray, pretty, s, i);
    } else if v.BigInt? {
      BigIntRoundTrip(v.i, depth, inArray, pretty, s, i);
    } else {
      LiteralRoundTrip(v, depth, inArray, pretty, s, i);
    }
  }

  lemma StrRoundTrip(t: JsString, depth: nat, inArray: bool, pretty: bool, s: JsString, i: nat)
    requires StartsWithAt(s, Render(Str(t), depth, inArray, pretty).value, i)
    ensures ValueAt(s, i) == Done(Normalize(Str(t)), i + |Render(Str(t), depth, inArray, pretty).value|)
  {
    StrValueAt(s, i, t);
  }

  lemma NumRoundTrip(n: Number, depth: nat, inArray: bool, pretty: bool, s: JsString, i: nat)
    requires NoFloats(Num(n))
    requires StartsWithAt(s, Render(Num(n), depth, inArray, pretty).value, i)
    requires Delimited(s, i + |Render(Num(n), depth, inArray, pretty).value|)
    ensures ValueAt(s, i) == Done(Normalize(Num(n)), i + |Render(Num(n), depth, inArray, pretty).value|)
  {
    var x := if n.Int? then n.i else 0;
    assert Render(Num(n), depth, inArray, pretty).value == IntText(x);
    IntValueAt(s, i, x);
  }

  lemma BigIntRoundTrip(x: int, depth: nat, inArray: bool, pretty: bool, s: JsString, i: nat)
    requires StartsWithAt(s, Render(BigInt(x), depth, inArray, pretty).value, i)
    requires Delimited(s, i + |Render(BigInt(x), depth, inArray, pretty).value|)
    ensures ValueAt(s, i) == Done(Normalize(BigInt(x)), i + |Render(BigInt(x), depth, inArray, pretty).value|)
  {
    IntValueAt(s, i, x);
  }

  /** `null`, `true` and `false`, and `undefined` written as `null` in an array. */
  lemma LiteralRoundTrip(v: Json, depth: nat, inArray: bool, pretty: bool, s: JsString, i: nat)
    requires (v.Null? || v.Bool? || v.Undef?) && (inArray || !v.Undef?)
    requires StartsWithAt(s, Render(v, depth, inArray, pretty).value, i)
    requires Delimited(s, i + |Render(v, depth, inArray, pretty).value|)
    ensures ValueAt(s, i) == Done(Normalize(v), i + |Render(v, depth, inArray, pretty).value|)
  {
    UnitAt(s, Render(v, depth, inArray, pretty).value, i, 0);
    WsEndOver(s, i, i);
  }

  /** The text of an array, and the array's normal form. */
  lemma ArrText(items: seq<Json>, depth: nat, inArray: bool, pretty: bool)
    ensures Render(Arr(items), depth, inArray, pretty).Some?
    ensures Render(Arr(items), depth, inArray, pretty).value
      == if |items| == 0 then EmptyArrayText
         else Bracketed(LeftBracket, ItemPartsFrom(items, 0, depth, pretty), RightBracket, depth, pretty)
    ensures Normalize(Arr(items)) == Arr(NormItems(items, 0))
  {
    ItemPartsSplit(items, 0, depth, pretty);
    assert ItemParts(items, 0, depth, pretty) == [];
    assert ItemParts(items, |items|, depth, pretty) == ItemPartsFrom(items, 0, depth, pretty);
  }

  /** An array whose first element is there is read by the element loop. */
  lemma ArrayAtItems(s: JsString, i: nat)
    requires i < |s| && s[i] == LeftBracket
    requires WsEnd(s, i + 1) < |s| && ValueStart(s[WsEnd(s, i + 1)])
    ensures ArrayAt(s, i) == ArrayRest(s, WsEnd(s, i + 1), [])
  {
  }

  lemma LeadWs(pretty: bool)
    ensures WsText(Lead(pretty))
  {
  }

  /** An array's text reads back as the array of its elements' normal forms. */
  lemma ArrRoundTrip(items: seq<Json>, depth: nat, inArray: bool, pretty: bool, s: JsString, i: nat)
    requires WellFormed(Arr(items)) && NoFloats(Arr(items))
    requires StartsWithAt(s, Render(Arr(items), depth, inArray, pretty).value, i)
    ensures ValueAt(s, i) == Done(Normalize(Arr(items)), i + |Render(Arr(items), depth, inArray, pretty).value|)
    decreases Arr(items), 1
  {
    hide *;
    ArrText(items, depth, inArray, pretty);
    if |items| == 0 {
      EmptyArrayAt(s, i);
      assert NormItems(items, 0) == [];
    } else {
      ItemsRoundTrip(items, depth, pretty, s, i);
    }
    ArrValueAt(s, i);
  }

  /** The bracketed parts of a non-empty array read back as its elements' normal forms. */
  lemma ItemsRoundTrip(items: seq<Json>, depth: nat, pretty: bool, s: JsString, i: nat)
    requires |items| > 0 && WellFormed(Arr(items)) && NoFloats(Arr(items))
    requires StartsWithAt(s, Bracketed(LeftBracket, ItemPartsFrom(items, 0, depth, pretty), RightBracket, depth, pretty), i)
    ensures i < |s| && s[i] == LeftBracket
    ensures ArrayAt(s, i)
      == Done(Arr(NormItems(items, 0)), i + |Bracketed(LeftBracket, ItemPartsFrom(items, 0, depth, pretty), RightBracket, depth, pretty)|)
    decreases Arr(items), 0, |items| + 1
  {
    hide *;
    var parts := ItemPartsFrom(items, 0, depth, pretty);
    var body := Join(parts, Sep(pretty)) + Tail(RightBracket, depth, pretty);
    BracketedShape(LeftBracket, parts, RightBracket, depth, pretty);
    LeadWs(pretty);
    BracketLayout(s, i, LeftBracket, Lead(pretty), body);
    ElementsRoundTrip(items, 0, depth, pretty, s, WsEnd(s, i + 1), i + 1 + |Lead(pretty)|, []);
    WsEndAgain(s, i + 1);
    ArrayAtItems(s, i);
    assert [] + NormItems(items, 0) == NormItems(items, 0);
  }

  /** The step of the element loop after an element followed by a separator. */
  lemma ArrayCommaStep(s: JsString, p: nat, out: seq<Json>, n: Json, e: nat, pretty: bool)
    requires p <= |s| && ValueAt(s, p) == Done(n, e) && StartsWithAt(s, Sep(pretty), e)
    ensures e + |Sep(pretty)| <= |s| && WsEnd(s, e + 1) == WsEnd(s, e + |Sep(pretty)|)
    ensures ArrayRest(s, p, out) == ArrayRest(s, e + 1, out + [n])
  {
    hide *;
    SepNext(s, e, pretty);
    ArrayRestStep(s, p, out, n, e);
    ArrayNextComma(s, e, out + [n]);
  }

  /** The last step of the element loop, after an element followed by the closing bracket. */
  lemma ArrayCloseStep(s: JsString, p: nat, out: seq<Json>, n: Json, e: nat, depth: nat, pretty: bool)
    requires p <= |s| && ValueAt(s, p) == Done(n, e) && StartsWithAt(s, Tail(RightBracket, depth, pretty), e)
    ensures ArrayRest(s, p, out) == Done(Arr(out + [n]), e + |Tail(RightBracket, depth, pretty)|)
  {
    hide *;
    TailClose(s, e, RightBracket, depth, pretty);
    ArrayRestStep(s, p, out, n, e);
    ArrayNextClose(s, e + |Tail(RightBracket, depth, pretty)| - 1, out + [n]);
  }

  /** What follows a part in a list, a separator or the closing tail, ends a value. */
  lemma AfterDelimited(s: JsString, e: nat, rest: seq<JsString>, close: CodeUnit, depth: nat, pretty: bool)
    requires close == RightBracket || close == RightBrace
    requires StartsWithAt(s, ListAfter(rest, Sep(pretty), Tail(close, depth, pretty)), e)
    ensures Delimited(s, e)
  {
    if rest == [] {
      TailClose(s, e, close, depth, pretty);
    } else {
      ListNext(s, e, rest, Sep(pretty), Tail(close, depth, pretty));
      SepNext(s, e, pretty);
    }
  }

  lemma NormItemsNext(items: seq<Json>, k: nat)
    requires k < |items|
    ensures NormItems(items, k) == [Normalize(items[k])] + NormItems(items, k + 1)
  {
  }

  lemma NormMembersNext(ms: seq<Member>, k: nat)
    requires k < |ms|
    ensures NormMembers(ms, k)
      == if ms[k].value.Undef? then NormMembers(ms, k + 1)
         else [Member(ms[k].key, Normalize(ms[k].value))] + NormMembers(ms, k + 1)
  {
  }

  lemma ListAfterLast(sep: JsString, tail: JsString)
    ensures ListAfter([], sep, tail) == tail
  {
  }

  lemma ElementFacts(items: seq<Json>, k: nat)
    requires k < |items| && WellFormed(Arr(items)) && NoFloats(Arr(items))
    ensures WellFormed(items[k]) && NoFloats(items[k])
  {
  }

  lemma MemberFacts(ms: seq<Member>, k: nat)
    requires k < |ms| && WellFormed(Obj(ms)) && NoFloats(Obj(ms))
    ensures WellFormed(ms[k].value) && NoFloats(ms[k].value)
  {
  }

  lemma ItemPartsNext(items: seq<Json>, k: nat, depth: nat, pretty: bool)
    requires k < |items|
    ensures ItemPartsFrom(items, k, depth, pretty)
      == [ItemPart(items[k], depth, pretty)] + ItemPartsFrom(items, k + 1, depth, pretty)
  {
  }

  lemma MemberPartsNext(ms: seq<Member>, k: nat, depth: nat, pretty: bool)
    requires k < |ms| && !ms[k].value.Undef?
    ensures MemberPartsFrom(ms, k, depth, pretty)
      == [MemberPart(ms[k].key, Render(ms[k].value, depth + 1, false, pretty).value, depth, pretty)]
         + MemberPartsFrom(ms, k + 1, depth, pretty)
  {
  }

  lemma StartNotWs(u: CodeUnit)
    requires ValueStart(u)
    ensures !IsJsonWs(u)
  {
  }

  lemma QuoteStarts()
    ensures ValueStart(DoubleQuote)
  {
  }

  lemma IndentWs(depth: nat, pretty: bool)
    ensures WsText(Indent(depth, pretty))
  {
  }

  /** A position holding something other than white space is where skipping stops. */
  lemma WsEndAt(s: JsString, i: nat)
    requires i <= |s| && (i == |s| || !IsJsonWs(s[i]))
    ensures WsEnd(s, i) == i
  {
  }

  /** The first of the parts of `items[k..]` reads back as the element's normal form. */
  lemma ElementHead(items: seq<Json>, k: nat, depth: nat, pretty: bool, s: JsString, p: nat, q: nat)
    requires k < |items| && WellFormed(Arr(items)) && NoFloats(Arr(items))
    requires p <= |s| && q <= |s| && WsEnd(s, p) == WsEnd(s, q)
    requires StartsWithAt(s, Join(ItemPartsFrom(items, k, depth, pretty), Sep(pretty))
                             + Tail(RightBracket, depth, pretty), q)
    ensures WsEnd(s, q) < |s| && ValueStart(s[WsEnd(s, q)])
    ensures ValueAt(s, p) == Done(Normalize(items[k]), q + |ItemPart(items[k], depth, pretty)|)
    ensures StartsWithAt(s, ListAfter(ItemPartsFrom(items, k + 1, depth, pretty), Sep(pretty), Tail(RightBracket, depth, pretty)),
                         q + |ItemPart(items[k], depth, pretty)|)
    ensures |Join(ItemPartsFrom(items, k, depth, pretty), Sep(pretty)) + Tail(RightBracket, depth, pretty)|
      == |ItemPart(items[k], depth, pretty)|
         + |ListAfter(ItemPartsFrom(items, k + 1, depth, pretty), Sep(pretty), Tail(RightBracket, depth, pretty))|
    decreases Arr(items), 0, |items| - k, 0
  {
    hide *;
    var item := items[k];
    var text := Render(item, depth + 1, true, pretty).value;
    var ind := Indent(depth, pretty);
    var rest := ItemPartsFrom(items, k + 1, depth, pretty);
    ElementFacts(items, k);
    ItemPartsNext(items, k, depth, pretty);
    ItemPartShape(item, depth, pretty);
    RenderStart(item, depth + 1, true, pretty);
    StartNotWs(text[0]);
    IndentWs(depth, pretty);
    ListLayout(s, q, ind, text, rest, Sep(pretty), Tail(RightBracket, depth, pretty));
    var q1 := q + |ind|;
    AfterDelimited(s, q1 + |text|, rest, RightBracket, depth, pretty);
    WsEndAt(s, q1);
    ValueAtWs(s, p, q1);
    ValueRoundTrip(item, depth + 1, true, pretty, s, q1);
  }

  /**
   * The parts of `items[k..]`, joined and closed, read back after the
   * elements `out` already read as the whole array.
   */
  lemma {:induction false} ElementsRoundTrip(items: seq<Json>, k: nat, depth: nat, pretty: bool,
                                             s: JsString, p: nat, q: nat, out: seq<Json>)
    requires k < |items| && WellFormed(Arr(items)) && NoFloats(Arr(items))
    requires p <= |s| && q <= |s| && WsEnd(s, p) == WsEnd(s, q)
    requires StartsWithAt(s, Join(ItemPartsFrom(items, k, depth, pretty), Sep(pretty))
                             + Tail(RightBracket, depth, pretty), q)
    ensures WsEnd(s, q) < |s| && ValueStart(s[WsEnd(s, q)])
    ensures ArrayRest(s, p, out)
      == Done(Arr(out + NormItems(items, k)),
              q + |Join(ItemPartsFrom(items, k, depth, pretty), Sep(pretty)) + Tail(RightBracket, depth, pretty)|)
    decreases Arr(items), 0, |items| - k, 1
  {
    hide *;
    var n := Normalize(items[k]);
    var e := q + |ItemPart(items[k], depth, pretty)|;
    var rest := ItemPartsFrom(items, k + 1, depth, pretty);
    var tail := Tail(RightBracket, depth, pretty);
    ElementHead(items, k, depth, pretty, s, p, q);
    NormItemsNext(items, k);
    if rest == [] {
      ListAfterLast(Sep(pretty), tail);
      ArrayCloseStep(s, p, out, n, e, depth, pretty);
      assert NormItems(items, k + 1) == [];
      assert out + [n] == out + NormItems(items, k);
    } else {
      ListNext(s, e, rest, Sep(pretty), tail);
      ArrayCommaStep(s, p, out, n, e, pretty);
      ElementsRoundTrip(items, k + 1, depth, pretty, s, e + 1, e + |Sep(pretty)|, out + [n]);
      assert out + [n] + NormItems(items, k + 1) == out + NormItems(items, k);
    }
  }

  /** The text of an object, and the object's normal form. */
  lemma ObjText(ms: seq<Member>, depth: nat, inArray: bool, pretty: bool)
    ensures Render(Obj(ms), depth, inArray, pretty).Some?
    ensures Render(Obj(ms), depth, inArray, pretty).value
      == if MemberPartsFrom(ms, 0, depth, pretty) == [] then EmptyObjectText
         else Bracketed(LeftBrace, MemberPartsFrom(ms, 0, depth, pretty), RightBrace, depth, pretty)
    ensures Normalize(Obj(ms)) == Obj(NormMembers(ms, 0))
  {
    MemberPartsSplit(ms, 0, depth, pretty);
    assert MemberParts(ms, 0, depth, pretty) == [];
    var parts := MemberPartsFrom(ms, 0, depth, pretty);
    if |ms| > 0 {
      assert MemberParts(ms, |ms|, depth, pretty) == parts;
      if parts == [] && !pretty {
        assert Bracketed(LeftBrace, parts, RightBrace, depth, pretty) == EmptyObjectText;
      }
    }
  }

  /** An object whose first member is there is read by the member loop. */
  lemma ObjectAtMembers(s: JsString, i: nat)
    requires i < |s| && s[i] == LeftBrace
    requires WsEnd(s, i + 1) < |s| && s[WsEnd(s, i + 1)] == DoubleQuote
    ensures ObjectAt(s, i) == ObjectRest(s, WsEnd(s, i + 1), [])
  {
  }

  lemma NoKeysBefore(ms: seq<Member>)
    ensures KeysBefore([], ms, 0)
  {
  }

  /** An object's text reads back as the object of its defined members' normal forms. */
  lemma ObjRoundTrip(ms: seq<Member>, depth: nat, inArray: bool, pretty: bool, s: JsString, i: nat)
    requires WellFormed(Obj(ms)) && NoFloats(Obj(ms))
    requires StartsWithAt(s, Render(Obj(ms), depth, inArray, pretty).value, i)
    ensures ValueAt(s, i) == Done(Normalize(Obj(ms)), i + |Render(Obj(ms), depth, inArray, pretty).value|)
    decreases Obj(ms), 1
  {
    hide *;
    ObjText(ms, depth, inArray, pretty);
    NoPartsNoMembers(ms, 0, depth, pretty);
    if MemberPartsFrom(ms, 0, depth, pretty) == [] {
      EmptyObjectAt(s, i);
    } else {
      MembersListRoundTrip(ms, depth, pretty, s, i);
    }
    ObjValueAt(s, i);
  }

  /** The bracketed parts of an object with a defined member read back as its defined members' normal forms. */
  lemma MembersListRoundTrip(ms: seq<Member>, depth: nat, pretty: bool, s: JsString, i: nat)
    requires MemberPartsFrom(ms, 0, depth, pretty) != [] && WellFormed(Obj(ms)) && NoFloats(Obj(ms))
    requires StartsWithAt(s, Bracketed(LeftBrace, MemberPartsFrom(ms, 0, depth, pretty), RightBrace, depth, pretty), i)
    ensures i < |s| && s[i] == LeftBrace
    ensures ObjectAt(s, i)
      == Done(Obj(NormMembers(ms, 0)), i + |Bracketed(LeftBrace, MemberPartsFrom(ms, 0, depth, pretty), RightBrace, depth, pretty)|)
    decreases Obj(ms), 0, |ms| + 1
  {
    hide *;
    var parts := MemberPartsFrom(ms, 0, depth, pretty);
    var body := Join(parts, Sep(pretty)) + Tail(RightBrace, depth, pretty);
    BracketedShape(LeftBrace, parts, RightBrace, depth, pretty);
    LeadWs(pretty);
    BracketLayout(s, i, LeftBrace, Lead(pretty), body);
    NoKeysBefore(ms);
    MembersRoundTrip(ms, 0, depth, pretty, s, WsEnd(s, i + 1), i + 1 + |Lead(pretty)|, []);
    WsEndAgain(s, i + 1);
    ObjectAtMembers(s, i);
    assert [] + NormMembers(ms, 0) == NormMembers(ms, 0);
  }

  /** A member's body, `"key":value`, reads back as the key and the value's normal form. */
  lemma MemberRoundTrip(key: JsString, v: Json, depth: nat, pretty: bool, s: JsString, p: nat, q1: nat)
    requires WellFormed(v) && NoFloats(v) && !v.Undef?
    requires p <= |s| && WsEnd(s, p) == q1
    requires StartsWithAt(s, MemberBody(key, Render(v, depth + 1, false, pretty).value, pretty), q1)
    requires Delimited(s, q1 + |MemberBody(key, Render(v, depth + 1, false, pretty).value, pretty)|)
    ensures MemberAt(s, p)
      == Done(Member(key, Normalize(v)), q1 + |MemberBody(key, Render(v, depth + 1, false, pretty).value, pretty)|)
    decreases v, 3
  {
    hide *;
    MemberKeyLayout(key, Render(v, depth + 1, false, pretty).value, pretty, s, q1);
    MemberValueLayout(key, Render(v, depth + 1, false, pretty).value, pretty, s, q1);
    ValueRoundTrip(v, depth + 1, false, pretty, s, ValuePos(key, q1, pretty));
    MemberRead(s, p, q1, key, ValuePos(key, q1, pretty), Normalize(v),
               ValuePos(key, q1, pretty) + |Render(v, depth + 1, false, pretty).value|);
  }

  /** The step of the member loop after a member followed by a separator. */
  lemma ObjectCommaStep(s: JsString, p: nat, out: seq<Member>, m: Member, e: nat, pretty: bool)
    requires p <= |s| && MemberAt(s, p) == Done(m, e) && StartsWithAt(s, Sep(pretty), e)
    ensures e + |Sep(pretty)| <= |s| && WsEnd(s, e + 1) == WsEnd(s, e + |Sep(pretty)|)
    ensures ObjectRest(s, p, out) == ObjectRest(s, e + 1, Assign(out, m.key, m.value))
  {
    hide *;
    SepNext(s, e, pretty);
    ObjectRestStep(s, p, out, m, e);
    ObjectNextComma(s, e, Assign(out, m.key, m.value));
  }

  /** The last step of the member loop, after a member followed by the closing brace. */
  lemma ObjectCloseStep(s: JsString, p: nat, out: seq<Member>, m: Member, e: nat, depth: nat, pretty: bool)
    requires p <= |s| && MemberAt(s, p) == Done(m, e) && StartsWithAt(s, Tail(RightBrace, depth, pretty), e)
    ensures ObjectRest(s, p, out) == Done(Obj(Assign(out, m.key, m.value)), e + |Tail(RightBrace, depth, pretty)|)
  {
    hide *;
    TailClose(s, e, RightBrace, depth, pretty);
    ObjectRestStep(s, p, out, m, e);
    ObjectNextClose(s, e + |Tail(RightBrace, depth, pretty)| - 1, Assign(out, m.key, m.value));
  }

  /** Some part is left only while some member is. */
  lemma MemberPartsLeft(ms: seq<Member>, k: nat, depth: nat, pretty: bool)
    requires k <= |ms| && MemberPartsFrom(ms, k, depth, pretty) != []
    ensures k < |ms|
  {
  }

  lemma KeysBeforeLater(out: seq<Member>, ms: seq<Member>, k: nat)
    requires KeysBefore(out, ms, k)
    ensures KeysBefore(out, ms, k + 1)
  {
  }

  lemma WellFormedKeys(ms: seq<Member>)
    requires WellFormed(Obj(ms))
    ensures UniqueKeys(ms)
  {
  }

  /** A member whose value is `undefined` contributes no part. */
  lemma MemberPartsSkip(ms: seq<Member>, k: nat, depth: nat, pretty: bool)
    requires k < |ms| && ms[k].value.Undef?
    ensures MemberPartsFrom(ms, k, depth, pretty) == MemberPartsFrom(ms, k + 1, depth, pretty)
  {
  }

  /** The first of the parts of the members of `ms[k..]`, when `ms[k]` is defined, reads back as that member. */
  lemma MemberHead(ms: seq<Member>, k: nat, depth: nat, pretty: bool, s: JsString, p: nat, q: nat)
    requires k < |ms| && !ms[k].value.Undef? && WellFormed(Obj(ms)) && NoFloats(Obj(ms))
    requires p <= |s| && q <= |s| && WsEnd(s, p) == WsEnd(s, q)
    requires StartsWithAt(s, Join(MemberPartsFrom(ms, k, depth, pretty), Sep(pretty))
                             + Tail(RightBrace, depth, pretty), q)
    ensures |MemberPartsFrom(ms, k, depth, pretty)| >= 1
    ensures WsEnd(s, q) < |s| && s[WsEnd(s, q)] == DoubleQuote
    ensures MemberAt(s, p)
      == Done(Member(ms[k].key, Normalize(ms[k].value)), q + |MemberPartsFrom(ms, k, depth, pretty)[0]|)
    ensures StartsWithAt(s, ListAfter(MemberPartsFrom(ms, k + 1, depth, pretty), Sep(pretty), Tail(RightBrace, depth, pretty)),
                         q + |MemberPartsFrom(ms, k, depth, pretty)[0]|)
    ensures |Join(MemberPartsFrom(ms, k, depth, pretty), Sep(pretty)) + Tail(RightBrace, depth, pretty)|
      == |MemberPartsFrom(ms, k, depth, pretty)[0]|
         + |ListAfter(MemberPartsFrom(ms, k + 1, depth, pretty), Sep(pretty), Tail(RightBrace, depth, pretty))|
    decreases Obj(ms), 0, |ms| - k, 0, 0
  {
    hide *;
    var m := ms[k];
    var text := Render(m.value, depth + 1, false, pretty).value;
    var ind := Indent(depth, pretty);
    var body := MemberBody(m.key, text, pretty);
    var rest := MemberPartsFrom(ms, k + 1, depth, pretty);
    MemberFacts(ms, k);
    MemberPartsNext(ms, k, depth, pretty);
    MemberPartShape(m.key, text, depth, pretty);
    QuoteStarts();
    StartNotWs(body[0]);
    IndentWs(depth, pretty);
    ListLayout(s, q, ind, body, rest, Sep(pretty), Tail(RightBrace, depth, pretty));
    AfterDelimited(s, q + |ind| + |body|, rest, RightBrace, depth, pretty);
    MemberRoundTrip(m.key, m.value, depth, pretty, s, p, q + |ind|);
  }

  /**
   * The parts of the members of `ms[k..]`, joined and closed, read back after
   * the members `out` already read as the whole object; the keys still to
   * come are not among those read, so each one is appended.
   */
  lemma {:induction false} MembersRoundTrip(ms: seq<Member>, k: nat, depth: nat, pretty: bool,
                                            s: JsString, p: nat, q: nat, out: seq<Member>)
    requires k <= |ms| && MemberPartsFrom(ms, k, depth, pretty) != []
    requires WellFormed(Obj(ms)) && NoFloats(Obj(ms)) && KeysBefore(out, ms, k)
    requires p <= |s| && q <= |s| && WsEnd(s, p) == WsEnd(s, q)
    requires StartsWithAt(s, Join(MemberPartsFrom(ms, k, depth, pretty), Sep(pretty))
                             + Tail(RightBrace, depth, pretty), q)
    ensures WsEnd(s, q) < |s| && s[WsEnd(s, q)] == DoubleQuote
    ensures ObjectRest(s, p, out)
      == Done(Obj(out + NormMembers(ms, k)),
              q + |Join(MemberPartsFrom(ms, k, depth, pretty), Sep(pretty)) + Tail(RightBrace, depth, pretty)|)
    decreases Obj(ms), 0, |ms| - k, 1
  {
    hide *;
    MemberPartsLeft(ms, k, depth, pretty);
    if ms[k].value.Undef? {
      KeysBeforeLater(out, ms, k);
      NormMembersNext(ms, k);
      MemberPartsSkip(ms, k, depth, pretty);
      MembersRoundTrip(ms, k + 1, depth, pretty, s, p, q, out);
    } else {
      DefinedMembersRoundTrip(ms, k, depth, pretty, s, p, q, out);
    }
  }

  /** `MembersRoundTrip` when `ms[k]` is defined: its member is read, then the rest. */
  lemma DefinedMembersRoundTrip(ms: seq<Member>, k: nat, depth: nat, pretty: bool,
                                s: JsString, p: nat, q: nat, out: seq<Member>)
    requires k < |ms| && !ms[k].value.Undef?
    requires WellFormed(Obj(ms)) && NoFloats(Obj(ms)) && KeysBefore(out, ms, k)
    requires p <= |s| && q <= |s| && WsEnd(s, p) == WsEnd(s, q)
    requires StartsWithAt(s, Join(MemberPartsFrom(ms, k, depth, pretty), Sep(pretty))
                             + Tail(RightBrace, depth, pretty), q)
    ensures WsEnd(s, q) < |s| && s[WsEnd(s, q)] == DoubleQuote
    ensures ObjectRest(s, p, out)
      == Done(Obj(out + NormMembers(ms, k)),
              q + |Join(MemberPartsFrom(ms, k, depth, pretty), Sep(pretty)) + Tail(RightBrace, depth, pretty)|)
    decreases Obj(ms), 0, |ms| - k, 0, 2
  {
    hide *;
    if MemberPartsFrom(ms, k + 1, depth, pretty) == [] {
      LastMemberRoundTrip(ms, k, depth, pretty, s, p, q, out);
    } else {
      NextMemberRoundTrip(ms, k, depth, pretty, s, p, q, out);
    }
  }

  /** The defined member `ms[k]` is the last one written: it is read and the object closes. */
  lemma LastMemberRoundTrip(ms: seq<Member>, k: nat, depth: nat, pretty: bool,
                                s: JsString, p: nat, q: nat, out: seq<Member>)
    requires k < |ms| && !ms[k].value.Undef?
    requires WellFormed(Obj(ms)) && NoFloats(Obj(ms)) && KeysBefore(out, ms, k)
    requires p <= |s| && q <= |s| && WsEnd(s, p) == WsEnd(s, q)
    requires StartsWithAt(s, Join(MemberPartsFrom(ms, k, depth, pretty), Sep(pretty))
                             + Tail(RightBrace, depth, pretty), q)
    requires MemberPartsFrom(ms, k + 1, depth, pretty) == []
    ensures WsEnd(s, q) < |s| && s[WsEnd(s, q)] == DoubleQuote
    ensures ObjectRest(s, p, out)
      == Done(Obj(out + NormMembers(ms, k)),
              q + |Join(MemberPartsFrom(ms, k, depth, pretty), Sep(pretty)) + Tail(RightBrace, depth, pretty)|)
    decreases Obj(ms), 0, |ms| - k, 0, 1
  {
    hide *;
    var m := ms[k];
    NormMembersNext(ms, k);
    var n := Member(m.key, Normalize(m.value));
    var tail := Tail(RightBrace, depth, pretty);
    MemberHead(ms, k, depth, pretty, s, p, q);
    var e := q + |MemberPartsFrom(ms, k, depth, pretty)[0]|;
    FreshKey(out, ms, k, n.value);
    ListAfterLast(Sep(pretty), tail);
    ObjectCloseStep(s, p, out, n, e, depth, pretty);
    NoPartsNoMembers(ms, k + 1, depth, pretty);
    assert out + [n] == out + NormMembers(ms, k);
  }

  /** The defined member `ms[k]` is followed by more: it is read, then the separator, then the rest. */
  lemma NextMemberRoundTrip(ms: seq<Member>, k: nat, depth: nat, pretty: bool,
                                s: JsString, p: nat, q: nat, out: seq<Member>)
    requires k < |ms| && !ms[k].value.Undef?
    requires WellFormed(Obj(ms)) && NoFloats(Obj(ms)) && KeysBefore(out, ms, k)
    requires p <= |s| && q <= |s| && WsEnd(s, p) == WsEnd(s, q)
    requires StartsWithAt(s, Join(MemberPartsFrom(ms, k, depth, pretty), Sep(pretty))
                             + Tail(RightBrace, depth, pretty), q)
    requires MemberPartsFrom(ms, k + 1, depth, pretty) != []
    ensures WsEnd(s, q) < |s| && s[WsEnd(s, q)] == DoubleQuote
    ensures ObjectRest(s, p, out)
      == Done(Obj(out + NormMembers(ms, k)),
              q + |Join(MemberPartsFrom(ms, k, depth, pretty), Sep(pretty)) + Tail(RightBrace, depth, pretty)|)
    decreases Obj(ms), 0, |ms| - k, 0, 1
  {
    hide *;
    WellFormedKeys(ms);
    var m := ms[k];
    NormMembersNext(ms, k);
    var n := Member(m.key, Normalize(m.value));
    var parts := MemberPartsFrom(ms, k, depth, pretty);
    var rest := MemberPartsFrom(ms, k + 1, depth, pretty);
    var sep, tail := Sep(pretty), Tail(RightBrace, depth, pretty);
    MemberHead(ms, k, depth, pretty, s, p, q);
    var e := q + |parts[0]|;
    ListNext(s, e, rest, sep, tail);
    ObjectCommaStep(s, p, out, n, e, pretty);
    FreshKey(out, ms, k, n.value);
    assert ObjectRest(s, p, out) == ObjectRest(s, e + 1, out + [n]);
    KeysBeforeNext(out, ms, k, n.value);
    MembersRoundTrip(ms, k + 1, depth, pretty, s, e + 1, e + |sep|, out + [n]);
    AppendNext(out, n, NormMembers(ms, k + 1), NormMembers(ms, k));
    assert e + |sep| + |Join(rest, sep) + tail| == q + |Join(parts, sep) + tail|;
  }

  lemma AppendNext(out: seq<Member>, n: Member, rest: seq<Member>, all: seq<Member>)
    requires all == [n] + rest
    ensures out + [n] + rest == out + all
  {
  }

  /**
   * What `stringifyPretty` and `stringifyCompact` write, `parseJsonWithBigInt`
   * reads back as the value's normal form.
   */
  lemma PrintParseRoundTrip(v: Json, pretty: bool)
    requires WellFormed(v) && NoFloats(v)
    ensures ParseJson(Stringify(v, pretty)) == Some(Normalize(v))
  {
    var s := Stringify(v, pretty);
    assert s == Render(v, 0, true, pretty).value;
    ValueRoundTrip(v, 0, true, pretty, s, 0);
    WsEndOver(s, |s|, |s|);
  }

  // ---------------------------------------------------------------------
  // Printing the normal form again
  // ---------------------------------------------------------------------

  /** Only `undefined` prints differently inside and outside an array. */
  lemma RenderAnywhere(v: Json, depth: nat, pretty: bool)
    requires !v.Undef?
    ensures Render(v, depth, false, pretty) == Render(v, depth, true, pretty)
  {
  }

  /** The `j`-th normal form of `items[k..]` is that of `items[j]`. */
  lemma {:induction false} NormItemsAt(items: seq<Json>, k: nat, j: nat)
    requires k <= j < |items|
    ensures NormItems(items, k)[j - k] == Normalize(items[j])
    decreases j - k
  {
    NormItemsNext(items, k);
    if k < j {
      NormItemsAt(items, k + 1, j);
    }
  }

  /**
   * The normal form of a value prints as the value itself does in an array:
   * negative zero and `0`, a safe BigInt and its Number, `undefined` and
   * `null` are written alike, and skipped members were never written.
   */
  lemma {:induction false} RenderNormal(v: Json, depth: nat, inArray: bool, pretty: bool)
    ensures Render(Normalize(v), depth, inArray, pretty) == Render(v, depth, true, pretty)
    decreases v, 1
  {
    match v
    case Arr(items) =>
      ArrText(items, depth, true, pretty);
      ItemsNormal(items, |items|, depth, pretty);
    case Obj(ms) =>
      var norm := NormMembers(ms, 0);
      ObjText(ms, depth, true, pretty);
      MembersNormal(ms, 0, depth, pretty);
      MemberPartsSplit(ms, 0, depth, pretty);
      MemberPartsSplit(norm, 0, depth, pretty);
      if |ms| > 0 && norm == [] {
        assert Bracketed(LeftBrace, [], RightBrace, depth, false) == EmptyObjectText;
      }
    case _ =>
  }

  /** The first `k` parts of an array and of its normal form are the same. */
  lemma {:induction false} ItemsNormal(items: seq<Json>, k: nat, depth: nat, pretty: bool)
    requires k <= |items|
    ensures ItemParts(NormItems(items, 0), k, depth, pretty) == ItemParts(items, k, depth, pretty)
    decreases Arr(items), 0, k
  {
    if k > 0 {
      ItemsNormal(items, k - 1, depth, pretty);
      NormItemsAt(items, 0, k - 1);
      RenderNormal(items[k - 1], depth + 1, true, pretty);
    }
  }

  /** The parts of the members `ms[k..]` and of their normal forms are the same. */
  lemma {:induction false} MembersNormal(ms: seq<Member>, k: nat, depth: nat, pretty: bool)
    requires k <= |ms|
    ensures MemberPartsFrom(NormMembers(ms, k), 0, depth, pretty) == MemberPartsFrom(ms, k, depth, pretty)
    decreases Obj(ms), 0, |ms| - k
  {
    if k < |ms| {
      MembersNormal(ms, k + 1, depth, pretty);
      if ms[k].value.Undef? {
        NormMembersNext(ms, k);
      } else {
        MemberNormal(ms, k, depth, pretty);
      }
    }
  }

  /** One defined member: its normal form prints as the member itself. */
  lemma {:induction false} MemberNormal(ms: seq<Member>, k: nat, depth: nat, pretty: bool)
    requires k < |ms| && !ms[k].value.Undef?
    requires MemberPartsFrom(NormMembers(ms, k + 1), 0, depth, pretty) == MemberPartsFrom(ms, k + 1, depth, pretty)
    ensures MemberPartsFrom(NormMembers(ms, k), 0, depth, pretty) == MemberPartsFrom(ms, k, depth, pretty)
    decreases Obj(ms), 0, |ms| - k - 1
  {
    hide *;
    var n := Member(ms[k].key, Normalize(ms[k].value));
    var rest := NormMembers(ms, k + 1);
    NormMembersNext(ms, k);
    MemberPartOfNormal(ms[k], depth, pretty);
    MemberPartsStep([n] + rest, 0, depth, pretty);
    MemberPartsShift(n, rest, 0, depth, pretty);
    MemberPartsStep(ms, k, depth, pretty);
    assert ([n] + rest)[0] == n;
  }

  /** A defined member and its normal form contribute the same part. */
  lemma {:induction false} MemberPartOfNormal(m: Member, depth: nat, pretty: bool)
    requires !m.value.Undef?
    ensures MemberPartOf(Member(m.key, Normalize(m.value)), depth, pretty) == MemberPartOf(m, depth, pretty)
    decreases m.value, 2
  {
    RenderNormal(m.value, depth + 1, false, pretty);
    RenderAnywhere(m.value, depth + 1, pretty);
  }

  /** The parts of `[m] + rest` from `k + 1` are those of `rest` from `k`. */
  lemma {:induction false} MemberPartsShift(m: Member, rest: seq<Member>, k: nat, depth: nat, pretty: bool)
    requires k <= |rest|
    ensures MemberPartsFrom([m] + rest, k + 1, depth, pretty) == MemberPartsFrom(rest, k, depth, pretty)
    decreases |rest| - k
  {
    hide *;
    var all := [m] + rest;
    assert |all| == |rest| + 1;
    if k < |rest| {
      MemberPartsShift(m, rest, k + 1, depth, pretty);
      MemberPartsStep(all, k + 1, depth, pretty);
      MemberPartsStep(rest, k, depth, pretty);
      assert all[k + 1] == rest[k];
    } else {
      MemberPartsEnd(all, depth, pretty);
      MemberPartsEnd(rest, depth, pretty);
    }
  }

  /** Printing the normal form gives the text of the value. */
  lemma StringifyNormal(v: Json, pretty: bool)
    ensures Stringify(Normalize(v), pretty) == Stringify(v, pretty)
  {
    RenderNormal(v, 0, false, pretty);
    if !v.Undef? {
      RenderAnywhere(v, 0, pretty);
    }
  }

  /**
   * Serialising, parsing and serialising again in the same form gives the
   * first text back.
   */
  lemma StringifyIdempotent(v: Json, pretty: bool)
    requires WellFormed(v) && NoFloats(v)
    ensures ParseJson(Stringify(v, pretty)).Some?
    ensures Stringify(ParseJson(Stringify(v, pretty)).value, pretty) == Stringify(v, pretty)
  {
    PrintParseRoundTrip(v, pretty);
    StringifyNormal(v, pretty);
  }
}
