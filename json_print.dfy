/**
 * `stringifyJsonWithBigInt` (chrome-extension/src/lib/json.js): the
 * serialiser that writes BigInt values as bare integer literals, in a
 * compact form and in a pretty form indented by two spaces per level.
 * `Render` states what `stringifyAny` returns; the method `StringifyAny`
 * is the serialiser with its loops over elements and members, proved to
 * return exactly that.
 */
module JsonPrinter {
  import opened JsText
  import opened JsonValues

  // ---------------------------------------------------------------------
  // Strings, as the built-in JSON.stringify writes them
  // ---------------------------------------------------------------------

  predicate IsHighSurrogate(u: CodeUnit)
  {
    0xD800 <= u <= 0xDBFF
  }

  predicate IsLowSurrogate(u: CodeUnit)
  {
    0xDC00 <= u <= 0xDFFF
  }

  /** A surrogate at `j` that is not half of a high/low pair. */
  predicate LoneSurrogateAt(t: JsString, j: nat)
    requires j < |t|
  {
    (IsHighSurrogate(t[j]) && !(j + 1 < |t| && IsLowSurrogate(t[j + 1])))
    || (IsLowSurrogate(t[j]) && !(j > 0 && IsHighSurrogate(t[j - 1])))
  }

  /** `\u` followed by four lower-case hexadecimal digits. */
  function UnicodeEscape(u: CodeUnit): (e: JsString)
    ensures |e| == 6
  {
    [Backslash, LowerU] + Hex4(u)
  }

  /**
   * How JSON.stringify writes the code unit at `j` of a string (section
   * 25.5.2.3 of ECMAScript 2019, QuoteJSONString): the two-character escapes,
   * `\u00xx` for the other control characters, `\uxxxx` for a lone
   * surrogate, and the unit itself otherwise.
   */
  function EscapeAt(t: JsString, j: nat): (e: JsString)
    requires j < |t|
    ensures 1 <= |e| <= 6
  {
    var c := t[j];
    if c == DoubleQuote then [Backslash, DoubleQuote]
    else if c == Backslash then [Backslash, Backslash]
    else if c == Backspace then [Backslash, LowerB]
    else if c == FormFeed then [Backslash, LowerF]
    else if c == LineFeed then [Backslash, LowerN]
    else if c == CarriageReturn then [Backslash, LowerR]
    else if c == Tab then [Backslash, LowerT]
    else if c < 0x20 || LoneSurrogateAt(t, j) then UnicodeEscape(c)
    else [c]
  }

  /** The escaped text of `t[j..]`. */
  function EscapeFrom(t: JsString, j: nat): JsString
    requires j <= |t|
    decreases |t| - j
  {
    if j == |t| then [] else EscapeAt(t, j) + EscapeFrom(t, j + 1)
  }

  /** `JSON.stringify(t)` for a string `t`. */
  function Quote(t: JsString): (q: JsString)
    ensures |q| >= 2 && q[0] == DoubleQuote && q[|q| - 1] == DoubleQuote
  {
    [DoubleQuote] + EscapeFrom(t, 0) + [DoubleQuote]
  }

  // ---------------------------------------------------------------------
  // Numbers
  // ---------------------------------------------------------------------

  /** `String(n)` for a finite number; negative zero prints as `0`. */
  function NumberText(n: Number): (t: JsString)
  {
    match n
    case Int(i) => IntText(i)
    case NegZero => ZeroText
    case Float(literal) => literal
  }

  // ---------------------------------------------------------------------
  // Layout
  // ---------------------------------------------------------------------

  /** `"  ".repeat(depth)`. */
  function Pad(depth: nat): (p: JsString)
    ensures |p| == 2 * depth && forall j :: 0 <= j < |p| ==> p[j] == Space
  {
    if depth == 0 then [] else Pad(depth - 1) + [Space, Space]
  }

  /** `parts.join(sep)`. */
  function Join(parts: seq<JsString>, sep: JsString): JsString
  {
    if |parts| == 0 then []
    else if |parts| == 1 then parts[0]
    else parts[0] + sep + Join(parts[1..], sep)
  }

  const CompactSep: JsString := [Comma]
  const PrettySep: JsString := [Comma, LineFeed]
  const EmptyArrayText: JsString := [LeftBracket, RightBracket]
  const EmptyObjectText: JsString := [LeftBrace, RightBrace]

  /** `[` parts `]`, with the pretty form's line breaks and indentation. */
  function Bracketed(open: CodeUnit, parts: seq<JsString>, close: CodeUnit, depth: nat, pretty: bool): JsString
  {
    if pretty then [open, LineFeed] + Join(parts, PrettySep) + [LineFeed] + Pad(depth) + [close]
    else [open] + Join(parts, CompactSep) + [close]
  }

  // ---------------------------------------------------------------------
  // What stringifyAny returns
  // ---------------------------------------------------------------------

  /**
   * `stringifyAny(v, depth, inArray)`: `None` is the `undefined` it returns
   * for an undefined value outside an array (so that the member is skipped).
   */
  function Render(v: Json, depth: nat, inArray: bool, pretty: bool): (r: Option<JsString>)
    ensures r.None? <==> v.Undef? && !inArray
    decreases v, 1
  {
    match v
    case Undef => if inArray then Some(NullText) else None
    case Null => Some(NullText)
    case Bool(b) => Some(if b then TrueText else FalseText)
    case Str(t) => Some(Quote(t))
    case Num(n) => Some(NumberText(n))
    case BigInt(i) => Some(IntText(i))
    case Arr(items) =>
      if |items| == 0 then Some(EmptyArrayText)
      else Some(Bracketed(LeftBracket, ItemParts(items, |items|, depth, pretty), RightBracket, depth, pretty))
    case Obj(ms) =>
      if |ms| == 0 then Some(EmptyObjectText)
      else
        var parts := MemberParts(ms, |ms|, depth, pretty);
        if pretty && |parts| == 0 then Some(EmptyObjectText)
        else Some(Bracketed(LeftBrace, parts, RightBrace, depth, pretty))
  }

  /** The part an array element contributes: its text, indented in the pretty form. */
  function ItemPart(item: Json, depth: nat, pretty: bool): JsString
    decreases item, 2
  {
    var text := Render(item, depth + 1, true, pretty);
    (if pretty then Pad(depth + 1) else []) + (if text.None? then NullText else text.value)
  }

  /** The parts of the first `k` elements, as the loop over `v.length` pushes them. */
  function ItemParts(items: seq<Json>, k: nat, depth: nat, pretty: bool): (parts: seq<JsString>)
    requires k <= |items|
    ensures |parts| == k
    decreases Arr(items), 0, k
  {
    if k == 0 then []
    else ItemParts(items, k - 1, depth, pretty) + [ItemPart(items[k - 1], depth, pretty)]
  }

  /** The part a member contributes: `"key":value`, or `"key": value` indented in the pretty form. */
  function MemberPart(key: JsString, text: JsString, depth: nat, pretty: bool): JsString
  {
    if pretty then Pad(depth + 1) + Quote(key) + [Colon, Space] + text
    else Quote(key) + [Colon] + text
  }

  /** The parts of the first `k` members; a member whose value renders to nothing is skipped. */
  function MemberParts(ms: seq<Member>, k: nat, depth: nat, pretty: bool): (parts: seq<JsString>)
    requires k <= |ms|
    ensures |parts| <= k
    decreases Obj(ms), 0, k
  {
    if k == 0 then []
    else
      var parts := MemberParts(ms, k - 1, depth, pretty);
      match Render(ms[k - 1].value, depth + 1, false, pretty)
      case None => parts
      case Some(text) => parts + [MemberPart(ms[k - 1].key, text, depth, pretty)]
  }

  /** `stringifyJsonWithBigInt(value, { pretty })`: a top-level `undefined` becomes `null`. */
  function Stringify(v: Json, pretty: bool): (t: JsString)
    ensures v.Undef? ==> t == NullText
  {
    match Render(v, 0, false, pretty)
    case None => NullText
    case Some(text) => text
  }

  // ---------------------------------------------------------------------
  // Layout: the compact form is one line
  // ---------------------------------------------------------------------

  /** A string's text never holds a raw line feed: it is written as `\n`. */
  lemma {:induction false} EscapeFromOneLine(t: JsString, j: nat)
    requires j <= |t|
    ensures NoLineFeed(EscapeFrom(t, j))
    decreases |t| - j
  {
    hide EscapeAt;
    if j < |t| {
      EscapeFromOneLine(t, j + 1);
      EscapeAtOneLine(t, j);
      assert EscapeFrom(t, j) == EscapeAt(t, j) + EscapeFrom(t, j + 1);
    }
  }

  lemma EscapeAtOneLine(t: JsString, j: nat)
    requires j < |t|
    ensures NoLineFeed(EscapeAt(t, j))
  {
    var h := Hex4(t[j]);
    assert forall x :: 0 <= x < |h| ==> h[x] != LineFeed;
  }

  lemma IntTextOneLine(i: int)
    ensures NoLineFeed(IntText(i))
  {
    var ds := NatText(if i < 0 then -i else i);
    assert AllDigits(ds);
    assert forall j :: 0 <= j < |ds| ==> IsDigit(ds[j]);
  }

  /** Joining lines that hold no line feed with a separator that holds none gives one line. */
  lemma {:induction false} JoinOneLine(parts: seq<JsString>, sep: JsString)
    requires NoLineFeed(sep) && forall j :: 0 <= j < |parts| ==> NoLineFeed(parts[j])
    ensures NoLineFeed(Join(parts, sep))
    decreases |parts|
  {
    if |parts| > 1 {
      JoinOneLine(parts[1..], sep);
      assert Join(parts, sep) == parts[0] + sep + Join(parts[1..], sep);
    }
  }

  /**
   * The compact form (`stringifyCompact`) holds no line feed: only the pretty
   * form breaks lines, and a line feed inside a string is escaped.
   */
  lemma {:induction false} CompactIsOneLine(v: Json, depth: nat, inArray: bool)
    requires NoFloats(v) && Render(v, depth, inArray, false).Some?
    ensures NoLineFeed(Render(v, depth, inArray, false).value)
    decreases v, 1
  {
    match v
    case Str(t) =>
      EscapeFromOneLine(t, 0);
    case Num(n) =>
      IntTextOneLine(if n.Int? then n.i else 0);
    case BigInt(i) =>
      IntTextOneLine(i);
    case Arr(items) =>
      if |items| > 0 {
        ItemPartsOneLine(items, |items|, depth);
        JoinOneLine(ItemParts(items, |items|, depth, false), CompactSep);
      }
    case Obj(ms) =>
      if |ms| > 0 {
        MemberPartsOneLine(ms, |ms|, depth);
        JoinOneLine(MemberParts(ms, |ms|, depth, false), CompactSep);
      }
    case _ =>
  }

  lemma {:induction false} ItemPartsOneLine(items: seq<Json>, k: nat, depth: nat)
    requires k <= |items| && forall j :: 0 <= j < |items| ==> NoFloats(items[j])
    ensures forall j :: 0 <= j < k ==> NoLineFeed(ItemParts(items, k, depth, false)[j])
    decreases Arr(items), 0, k
  {
    if k > 0 {
      ItemPartsOneLine(items, k - 1, depth);
      CompactIsOneLine(items[k - 1], depth + 1, true);
    }
  }

  lemma {:induction false} MemberPartsOneLine(ms: seq<Member>, k: nat, depth: nat)
    requires k <= |ms| && forall j :: 0 <= j < |ms| ==> NoFloats(ms[j].value)
    ensures forall j :: 0 <= j < |MemberParts(ms, k, depth, false)| ==> NoLineFeed(MemberParts(ms, k, depth, false)[j])
    decreases Obj(ms), 0, k
  {
    hide Render, MemberPart;
    if k > 0 {
      MemberPartsOneLine(ms, k - 1, depth);
      var r := Render(ms[k - 1].value, depth + 1, false, false);
      if r.Some? {
        CompactIsOneLine(ms[k - 1].value, depth + 1, false);
        MemberPartOneLine(ms[k - 1].key, r.value, depth);
      }
    }
  }

  lemma MemberPartOneLine(key: JsString, text: JsString, depth: nat)
    requires NoLineFeed(text)
    ensures NoLineFeed(MemberPart(key, text, depth, false))
  {
    EscapeFromOneLine(key, 0);
  }

  /** `stringifyCompact(v)` is a single line of text. */
  lemma CompactStringifyOneLine(v: Json)
    requires NoFloats(v)
    ensures NoLineFeed(Stringify(v, false))
  {
    if !v.Undef? {
      CompactIsOneLine(v, 0, false);
    }
  }

  // ---------------------------------------------------------------------
  // The serialiser
  // ---------------------------------------------------------------------

  /** The recursive `stringifyAny`, with its loops over elements and members. */
  method StringifyAny(v: Json, depth: nat, inArray: bool, pretty: bool) returns (r: Option<JsString>)
    ensures r == Render(v, depth, inArray, pretty)
    decreases v, 1
  {
    match v {
      case Undef =>
        r := if inArray then Some(NullText) else None;
      case Null =>
        r := Some(NullText);
      case Bool(b) =>
        r := Some(if b then TrueText else FalseText);
      case Str(t) =>
        r := Some(Quote(t));
      case Num(n) =>
        r := Some(NumberText(n));
      case BigInt(i) =>
        r := Some(IntText(i));
      case Arr(items) =>
        if |items| == 0 {
          return Some(EmptyArrayText);
        }
        var parts := StringifyItems(items, depth, pretty);
        r := Some(Bracketed(LeftBracket, parts, RightBracket, depth, pretty));
      case Obj(ms) =>
        if |ms| == 0 {
          return Some(EmptyObjectText);
        }
        var parts := StringifyMembers(ms, depth, pretty);
        if pretty && |parts| == 0 {
          return Some(EmptyObjectText);
        }
        r := Some(Bracketed(LeftBrace, parts, RightBrace, depth, pretty));
    }
  }

  /** The loop of `stringifyAny` over the elements of an array. */
  method StringifyItems(items: seq<Json>, depth: nat, pretty: bool) returns (parts: seq<JsString>)
    ensures parts == ItemParts(items, |items|, depth, pretty)
    decreases Arr(items), 0
  {
    var prefix := if pretty then Pad(depth + 1) else [];
    parts := [];
    for idx := 0 to |items|
      invariant parts == ItemParts(items, idx, depth, pretty)
    {
      var item := StringifyAny(items[idx], depth + 1, true, pretty);
      parts := parts + [prefix + (if item.None? then NullText else item.value)];
    }
  }

  /** The loop of `stringifyAny` over the keys of an object; a member that renders to nothing is skipped. */
  method StringifyMembers(ms: seq<Member>, depth: nat, pretty: bool) returns (parts: seq<JsString>)
    ensures parts == MemberParts(ms, |ms|, depth, pretty)
    decreases Obj(ms), 0
  {
    parts := [];
    for idx := 0 to |ms|
      invariant parts == MemberParts(ms, idx, depth, pretty)
    {
      var item := StringifyAny(ms[idx].value, depth + 1, false, pretty);
      if item.None? {
        continue;
      }
      parts := parts + [MemberPart(ms[idx].key, item.value, depth, pretty)];
    }
  }

  /** `stringifyJsonWithBigInt(value, { pretty })`. */
  method StringifyJsonWithBigInt(value: Json, pretty: bool) returns (out: JsString)
    ensures out == Stringify(value, pretty)
  {
    var r := StringifyAny(value, 0, false, pretty);
    if r.None? {
      return NullText;
    }
    return r.value;
  }
}
