/**
 * `parseJsonWithBigInt` (chrome-extension/src/lib/json.js): a single-pass
 * recursive-descent JSON parser over a shared cursor. The first half states
 * what each inner helper computes, as functions from the text and a start
 * position to a value and the position after it (`Fail` is the thrown
 * "Invalid JSON"); the second half is the parser itself, a class whose field
 * `i` is the cursor and whose methods are proved to agree with those
 * functions.
 */
module JsonParser {
  import opened JsText
  import opened JsonValues

  /** A helper's outcome: the value read and the cursor after it, or the thrown error. */
  datatype Step<T> = Done(value: T, next: nat) | Fail

  /** `s[i] === u`; past the end `s[i]` is undefined and equals nothing. */
  predicate At(s: JsString, i: nat, u: CodeUnit)
  {
    i < |s| && s[i] == u
  }

  /** `s[i] >= "0" && s[i] <= "9"`, false past the end. */
  predicate DigitAt(s: JsString, i: nat)
  {
    i < |s| && IsDigit(s[i])
  }

  // ---------------------------------------------------------------------
  // What the helpers compute
  // ---------------------------------------------------------------------

  /** `skipWs`: the cursor after the run of JSON whitespace starting at `i`. */
  function WsEnd(s: JsString, i: nat): (j: nat)
    requires i <= |s|
    ensures i <= j <= |s|
    ensures j < |s| ==> !IsJsonWs(s[j])
    decreases |s| - i
  {
    if i < |s| && IsJsonWs(s[i]) then WsEnd(s, i + 1) else i
  }

  /** Everything `skipWs` skips is whitespace. */
  lemma {:induction false} WsEndSkipsWs(s: JsString, i: nat)
    requires i <= |s|
    ensures forall k :: i <= k < WsEnd(s, i) ==> IsJsonWs(s[k])
    decreases |s| - i
  {
    if i < |s| && IsJsonWs(s[i]) {
      WsEndSkipsWs(s, i + 1);
    }
  }

  /** The cursor after the run of decimal digits starting at `i`. */
  function DigitsEnd(s: JsString, i: nat): (j: nat)
    requires i <= |s|
    ensures i <= j <= |s|
    ensures !DigitAt(s, j)
    decreases |s| - i
  {
    if DigitAt(s, i) then DigitsEnd(s, i + 1) else i
  }

  /** Everything the digit scan passes over is a digit. */
  lemma {:induction false} DigitsEndSkipsDigits(s: JsString, i: nat)
    requires i <= |s|
    ensures forall k :: i <= k < DigitsEnd(s, i) ==> IsDigit(s[k])
    decreases |s| - i
  {
    if DigitAt(s, i) {
      DigitsEndSkipsDigits(s, i + 1);
    }
  }

  /** The code unit a one-letter escape `\c` stands for, if `c` is one of `" \ / b f n r t`. */
  function SimpleEscape(c: CodeUnit): Option<CodeUnit>
  {
    if c == DoubleQuote || c == Backslash || c == Slash then Some(c)
    else if c == LowerB then Some(Backspace)
    else if c == LowerF then Some(FormFeed)
    else if c == LowerN then Some(LineFeed)
    else if c == LowerR then Some(CarriageReturn)
    else if c == LowerT then Some(Tab)
    else None
  }

  predicate Hex4At(s: JsString, i: nat)
  {
    i + 4 <= |s| && forall k :: i <= k < i + 4 ==> IsHexDigit(s[k])
  }

  /**
   * The code unit that the text at `i` (not a closing quote) stands for, and
   * how many code units it takes: the unit itself, or a backslash escape.
   * `None` is the error thrown for a bad escape or a cut-off `\u`.
   */
  function DecodeAt(s: JsString, i: nat): (r: Option<(CodeUnit, nat)>)
    requires i < |s|
    ensures r.Some? ==> 1 <= r.value.1 <= 6 && i + r.value.1 <= |s|
  {
    if s[i] != Backslash then Some((s[i], 1))
    else if i + 1 >= |s| then None
    else
      var esc := s[i + 1];
      match SimpleEscape(esc)
      case Some(c) => Some((c, 2))
      case None =>
        if esc == LowerU && Hex4At(s, i + 2) then Some((Hex4Value(s[i + 2..i + 6]), 6))
        else None
  }

  /**
   * The `while` loop of `parseString`: `out` is the text decoded so far and
   * `i` the cursor; the string ends at the first unescaped `"`.
   */
  function StringRest(s: JsString, i: nat, out: JsString): (r: Step<JsString>)
    requires i <= |s|
    ensures r.Done? ==> i < r.next <= |s|
    decreases |s| - i
  {
    if i >= |s| then Fail
    else if s[i] == DoubleQuote then Done(out, i + 1)
    else match DecodeAt(s, i)
      case None => Fail
      case Some((c, w)) => StringRest(s, i + w, out + [c])
  }

  /** `parseString`: a string literal starting at `i`. */
  function StringAt(s: JsString, i: nat): (r: Step<JsString>)
    requires i <= |s|
    ensures r.Done? ==> i < r.next <= |s|
  {
    if !At(s, i, DoubleQuote) then Fail else StringRest(s, i + 1, [])
  }

  /** The integer part of a number at `i`: `0`, or a non-zero digit and the digits after it. */
  function IntPartEnd(s: JsString, i: nat): (r: Option<nat>)
    requires i <= |s|
    ensures r.Some? ==> i < r.value <= |s|
  {
    if i >= |s| then None
    else if s[i] == Zero then Some(i + 1)
    else if !IsNonZeroDigit(s[i]) then None
    else Some(DigitsEnd(s, i))
  }

  /** An optional fraction `.` digits at `i`: at least one digit after the dot. */
  function FracEnd(s: JsString, i: nat): (r: Option<nat>)
    requires i <= |s|
    ensures r.Some? ==> i <= r.value <= |s|
  {
    if !At(s, i, Dot) then Some(i)
    else if !DigitAt(s, i + 1) then None
    else Some(DigitsEnd(s, i + 1))
  }

  /** An optional exponent `e`/`E`, optional sign, digits at `i`: at least one digit. */
  function ExpEnd(s: JsString, i: nat): (r: Option<nat>)
    requires i <= |s|
    ensures r.Some? ==> i <= r.value <= |s|
  {
    if !(At(s, i, LowerE) || At(s, i, UpperE)) then Some(i)
    else
      var j := if At(s, i + 1, Plus) || At(s, i + 1, Minus) then i + 2 else i + 1;
      if !DigitAt(s, j) then None else Some(DigitsEnd(s, j))
  }

  /** A literal `-?digits` as an integer, as `BigInt(raw)` reads it. */
  function IntLiteralValue(raw: JsString): int
    requires |raw| >= 1
    requires AllDigits(if raw[0] == Minus then raw[1..] else raw)
  {
    if raw[0] == Minus then -(DigitsValue(raw[1..]) as int) else DigitsValue(raw)
  }

  /**
   * The value of a scanned number literal: fractional and exponent forms stay
   * Numbers, `-0` is negative zero, and an integer form is a Number when its
   * magnitude is at most 2^53 - 1 and an exact BigInt otherwise.
   */
  function NumberValue(raw: JsString, isInt: bool): (v: Json)
    requires |raw| >= 1
    requires isInt ==> AllDigits(if raw[0] == Minus then raw[1..] else raw)
    ensures v.Num? || v.BigInt?
    ensures v.BigInt? ==> isInt && !Abs(v.i, MaxSafeInteger)
  {
    if !isInt then Num(Float(raw))
    else if raw == NegZeroText then Num(NegZero)
    else
      var bi := IntLiteralValue(raw);
      if Abs(bi, MaxSafeInteger) then Num(Int(bi)) else BigInt(bi)
  }

  /** An integer part is a run of decimal digits. */
  lemma IntPartDigits(s: JsString, i: nat)
    requires i <= |s| && IntPartEnd(s, i).Some?
    ensures AllDigits(s[i..IntPartEnd(s, i).value])
  {
    var e := IntPartEnd(s, i).value;
    DigitsEndSkipsDigits(s, i);
    assert forall m :: i <= m < e ==> IsDigit(s[m]);
    assert forall m :: 0 <= m < e - i ==> s[i..e][m] == s[i + m];
  }

  /** `parseNumber`: a number literal starting at `start` (section 6 of RFC 8259). */
  function NumberAt(s: JsString, start: nat): (r: Step<Json>)
    requires start <= |s|
    ensures r.Done? ==> start < r.next <= |s| && (r.value.Num? || r.value.BigInt?)
  {
    var i := if At(s, start, Minus) then start + 1 else start;
    if i >= |s| then Fail
    else match IntPartEnd(s, i)
      case None => Fail
      case Some(j) =>
        match FracEnd(s, j)
        case None => Fail
        case Some(k) =>
          match ExpEnd(s, k)
          case None => Fail
          case Some(e) =>
            var isInt := k == j && e == k;
            if isInt then
              IntPartDigits(s, i);
              assert s[start..e][if At(s, start, Minus) then 1 else 0..] == s[i..e];
              Done(NumberValue(s[start..e], true), e)
            else
              Done(NumberValue(s[start..e], false), e)
  }

  /** `parseValue`: skip whitespace, then dispatch on the first code unit. */
  function ValueAt(s: JsString, i: nat): (r: Step<Json>)
    requires i <= |s|
    ensures r.Done? ==> i < r.next <= |s|
    decreases |s| - i, 2
  {
    var j := WsEnd(s, i);
    if At(s, j, LeftBrace) then ObjectAt(s, j)
    else if At(s, j, LeftBracket) then ArrayAt(s, j)
    else if At(s, j, DoubleQuote) then
      match StringAt(s, j)
      case Done(t, k) => Done(Str(t), k)
      case Fail => Fail
    else if At(s, j, LowerT) && StartsWithAt(s, TrueText, j) then Done(Bool(true), j + 4)
    else if At(s, j, LowerF) && StartsWithAt(s, FalseText, j) then Done(Bool(false), j + 5)
    else if At(s, j, LowerN) && StartsWithAt(s, NullText, j) then Done(Null, j + 4)
    else if At(s, j, Minus) || DigitAt(s, j) then NumberAt(s, j)
    else Fail
  }

  /** `parseArray`: `[` then `]`, or the element loop. */
  function ArrayAt(s: JsString, i: nat): (r: Step<Json>)
    requires i < |s| && s[i] == LeftBracket
    ensures r.Done? ==> i < r.next <= |s| && r.value.Arr?
    decreases |s| - i, 1
  {
    var j := WsEnd(s, i + 1);
    if At(s, j, RightBracket) then Done(Arr([]), j + 1) else ArrayRest(s, j, [])
  }

  /** The element loop of `parseArray`: a value, then the separator. */
  function ArrayRest(s: JsString, i: nat, out: seq<Json>): (r: Step<Json>)
    requires i <= |s|
    ensures r.Done? ==> i < r.next <= |s| && r.value.Arr?
    decreases |s| - i, 3
  {
    match ValueAt(s, i)
    case Fail => Fail
    case Done(v, k) => ArrayNext(s, WsEnd(s, k), out + [v])
  }

  /** After an element: `,` and another round, or `]` and the array read so far. */
  function ArrayNext(s: JsString, q: nat, out: seq<Json>): (r: Step<Json>)
    requires q <= |s|
    ensures r.Done? ==> q < r.next <= |s| && r.value.Arr?
    decreases |s| - q, 4
  {
    if At(s, q, Comma) then ArrayRest(s, q + 1, out)
    else if At(s, q, RightBracket) then Done(Arr(out), q + 1)
    else Fail
  }

  /** `parseObject`: `{` then `}`, or the member loop. */
  function ObjectAt(s: JsString, i: nat): (r: Step<Json>)
    requires i < |s| && s[i] == LeftBrace
    ensures r.Done? ==> i < r.next <= |s| && r.value.Obj?
    decreases |s| - i, 1
  {
    var j := WsEnd(s, i + 1);
    if At(s, j, RightBrace) then Done(Obj([]), j + 1) else ObjectRest(s, j, [])
  }

  /** One round of the member loop of `parseObject` up to the value: a string key, `:`, a value. */
  function MemberAt(s: JsString, i: nat): (r: Step<Member>)
    requires i <= |s|
    ensures r.Done? ==> i < r.next <= |s|
    decreases |s| - i, 2
  {
    var j := WsEnd(s, i);
    if !At(s, j, DoubleQuote) then Fail
    else match StringAt(s, j)
      case Fail => Fail
      case Done(key, k) =>
        var c := WsEnd(s, k);
        if !At(s, c, Colon) then Fail
        else match ValueAt(s, c + 1)
          case Fail => Fail
          case Done(v, e) => Done(Member(key, v), e)
  }

  /**
   * The member loop of `parseObject`: a member, assigned into the object (a
   * repeated key overwrites), then the separator.
   */
  function ObjectRest(s: JsString, i: nat, out: seq<Member>): (r: Step<Json>)
    requires i <= |s|
    ensures r.Done? ==> i < r.next <= |s| && r.value.Obj?
    decreases |s| - i, 3
  {
    match MemberAt(s, i)
    case Fail => Fail
    case Done(m, e) => ObjectNext(s, WsEnd(s, e), Assign(out, m.key, m.value))
  }

  /** After a member: `,` and another round, or `}` and the object read so far. */
  function ObjectNext(s: JsString, q: nat, out: seq<Member>): (r: Step<Json>)
    requires q <= |s|
    ensures r.Done? ==> q < r.next <= |s| && r.value.Obj?
    decreases |s| - q, 4
  {
    if At(s, q, Comma) then ObjectRest(s, q + 1, out)
    else if At(s, q, RightBrace) then Done(Obj(out), q + 1)
    else Fail
  }

  /** The whole of `parseJsonWithBigInt`: one value, then only whitespace. */
  function ParseJson(s: JsString): Option<Json>
  {
    match ValueAt(s, 0)
    case Fail => None
    case Done(v, i) => if WsEnd(s, i) == |s| then Some(v) else None
  }

  /** One round of the element loop, once its value has been read. */
  lemma ArrayRestStep(s: JsString, i: nat, out: seq<Json>, v: Json, e: nat)
    requires i <= |s| && ValueAt(s, i) == Done(v, e)
    ensures ArrayRest(s, i, out) == ArrayNext(s, WsEnd(s, e), out + [v])
  {
  }

  /** One round of the member loop, once its member has been read. */
  lemma ObjectRestStep(s: JsString, i: nat, out: seq<Member>, m: Member, e: nat)
    requires i <= |s| && MemberAt(s, i) == Done(m, e)
    ensures ObjectRest(s, i, out) == ObjectNext(s, WsEnd(s, e), Assign(out, m.key, m.value))
  {
  }

  /** A method's outcome read as a helper's outcome: `None` is the thrown error. */
  function Outcome<T>(r: Option<T>, i: nat): Step<T>
  {
    match r
    case None => Fail
    case Some(v) => Done(v, i)
  }

  // ---------------------------------------------------------------------
  // The parser
  // ---------------------------------------------------------------------

  /** The closure of `parseJsonWithBigInt`: the input text and the shared cursor. */
  class Parser {
    const s: JsString
    var i: nat

    constructor (input: JsString)
      ensures s == input && i == 0
    {
      s := input;
      i := 0;
    }

    method SkipWs()
      requires i <= |s|
      modifies this
      ensures i == WsEnd(s, old(i))
    {
      while i < |s| && IsJsonWs(s[i])
        invariant old(i) <= i <= |s|
        invariant WsEnd(s, i) == WsEnd(s, old(i))
        decreases |s| - i
      {
        i := i + 1;
      }
    }

    /** Advances the cursor over a run of digits. */
    method SkipDigits()
      requires i <= |s|
      modifies this
      ensures i == DigitsEnd(s, old(i))
    {
      while i < |s| && IsDigit(s[i])
        invariant old(i) <= i <= |s|
        invariant DigitsEnd(s, i) == DigitsEnd(s, old(i))
        decreases |s| - i
      {
        i := i + 1;
      }
    }

    method ParseString() returns (r: Option<JsString>)
      requires i <= |s|
      modifies this
      ensures Outcome(r, i) == StringAt(s, old(i))
    {
      if !(i < |s| && s[i] == DoubleQuote) {
        return None;
      }
      i := i + 1;
      var out: JsString := [];
      while i < |s|
        invariant old(i) < i <= |s|
        invariant StringRest(s, i, out) == StringAt(s, old(i))
        decreases |s| - i
      {
        var ch := s[i];
        if ch == DoubleQuote {
          i := i + 1;
          return Some(out);
        }
        if ch == Backslash {
          i := i + 1;
          if i >= |s| {
            return None;
          }
          var esc := s[i];
          var simple := SimpleEscape(esc);
          if simple.Some? {
            out := out + [simple.value];
            i := i + 1;
            continue;
          }
          if esc == LowerU {
            if !Hex4At(s, i + 1) {
              return None;
            }
            out := out + [Hex4Value(s[i + 1..i + 5])];
            i := i + 5;
            continue;
          }
          return None;
        }
        out := out + [ch];
        i := i + 1;
      }
      return None;
    }

    /** The integer part of `parseNumber`: `0`, or a non-zero digit and the digits after it. */
    method ScanIntPart() returns (ok: bool)
      requires i <= |s|
      modifies this
      ensures ok == IntPartEnd(s, old(i)).Some?
      ensures ok ==> i == IntPartEnd(s, old(i)).value
    {
      if i >= |s| {
        return false;
      }
      if s[i] == Zero {
        i := i + 1;
        return true;
      }
      if !IsNonZeroDigit(s[i]) {
        return false;
      }
      SkipDigits();
      return true;
    }

    /** The optional fraction of `parseNumber`; `frac` tells whether there was one. */
    method ScanFraction() returns (ok: bool, frac: bool)
      requires i <= |s|
      modifies this
      ensures ok == FracEnd(s, old(i)).Some?
      ensures ok ==> i == FracEnd(s, old(i)).value && (frac <==> i != old(i))
    {
      if !(i < |s| && s[i] == Dot) {
        return true, false;
      }
      i := i + 1;
      if !DigitAt(s, i) {
        return false, true;
      }
      SkipDigits();
      return true, true;
    }

    /** The optional exponent of `parseNumber`; `exp` tells whether there was one. */
    method ScanExponent() returns (ok: bool, exp: bool)
      requires i <= |s|
      modifies this
      ensures ok == ExpEnd(s, old(i)).Some?
      ensures ok ==> i == ExpEnd(s, old(i)).value && (exp <==> i != old(i))
    {
      if !(i < |s| && (s[i] == LowerE || s[i] == UpperE)) {
        return true, false;
      }
      i := i + 1;
      if i < |s| && (s[i] == Plus || s[i] == Minus) {
        i := i + 1;
      }
      if !DigitAt(s, i) {
        return false, true;
      }
      SkipDigits();
      return true, true;
    }

    method ParseNumber() returns (r: Option<Json>)
      requires i <= |s|
      modifies this
      ensures Outcome(r, i) == NumberAt(s, old(i))
    {
      var start := i;
      if i < |s| && s[i] == Minus {
        i := i + 1;
      }
      if i >= |s| {
        return None;
      }
      var intStart := i;
      var ok := ScanIntPart();
      if !ok {
        return None;
      }
      var frac, exp;
      ok, frac := ScanFraction();
      if !ok {
        return None;
      }
      ok, exp := ScanExponent();
      if !ok {
        return None;
      }
      var isInt := !frac && !exp;
      var raw := s[start..i];
      if isInt {
        IntPartDigits(s, intStart);
        assert raw[if At(s, start, Minus) then 1 else 0..] == s[intStart..i];
        return Some(NumberValue(raw, true));
      }
      return Some(NumberValue(raw, false));
    }

    method ParseValue() returns (r: Option<Json>)
      requires i <= |s|
      modifies this
      ensures Outcome(r, i) == ValueAt(s, old(i))
      decreases |s| - i, 2
    {
      SkipWs();
      if i < |s| && s[i] == LeftBrace {
        r := ParseObject();
        return;
      }
      if i < |s| && s[i] == LeftBracket {
        r := ParseArray();
        return;
      }
      if i < |s| && s[i] == DoubleQuote {
        var t := ParseString();
        if t.None? {
          return None;
        }
        return Some(Str(t.value));
      }
      if i < |s| && s[i] == LowerT && StartsWithAt(s, TrueText, i) {
        i := i + 4;
        return Some(Bool(true));
      }
      if i < |s| && s[i] == LowerF && StartsWithAt(s, FalseText, i) {
        i := i + 5;
        return Some(Bool(false));
      }
      if i < |s| && s[i] == LowerN && StartsWithAt(s, NullText, i) {
        i := i + 4;
        return Some(Null);
      }
      if i < |s| && (s[i] == Minus || IsDigit(s[i])) {
        r := ParseNumber();
        return;
      }
      return None;
    }

    method ParseArray() returns (r: Option<Json>)
      requires i < |s| && s[i] == LeftBracket
      modifies this
      ensures Outcome(r, i) == ArrayAt(s, old(i))
      decreases |s| - i, 1
    {
      i := i + 1;
      SkipWs();
      if i < |s| && s[i] == RightBracket {
        i := i + 1;
        return Some(Arr([]));
      }
      r := ParseElements();
    }

    /** The `while (true)` loop of `parseArray`, from the first element on. */
    method ParseElements() returns (r: Option<Json>)
      requires i <= |s|
      modifies this
      ensures Outcome(r, i) == ArrayRest(s, old(i), [])
      decreases |s| - i, 3
    {
      var out: seq<Json> := [];
      ghost var goal := ArrayRest(s, i, out);
      while true
        invariant old(i) <= i <= |s|
        invariant ArrayRest(s, i, out) == goal
        decreases |s| - i
      {
        ghost var round := i;
        var item := ParseValue();
        if item.None? {
          return None;
        }
        ArrayRestStep(s, round, out, item.value, i);
        out := out + [item.value];
        SkipWs();
        if i < |s| && s[i] == Comma {
          i := i + 1;
          continue;
        }
        if i < |s| && s[i] == RightBracket {
          i := i + 1;
          return Some(Arr(out));
        }
        return None;
      }
    }

    method ParseMember() returns (r: Option<Member>)
      requires i <= |s|
      modifies this
      ensures Outcome(r, i) == MemberAt(s, old(i))
      decreases |s| - i, 2
    {
      SkipWs();
      if !(i < |s| && s[i] == DoubleQuote) {
        return None;
      }
      var key := ParseString();
      if key.None? {
        return None;
      }
      SkipWs();
      if !(i < |s| && s[i] == Colon) {
        return None;
      }
      i := i + 1;
      var value := ParseValue();
      if value.None? {
        return None;
      }
      return Some(Member(key.value, value.value));
    }

    method ParseObject() returns (r: Option<Json>)
      requires i < |s| && s[i] == LeftBrace
      modifies this
      ensures Outcome(r, i) == ObjectAt(s, old(i))
      decreases |s| - i, 1
    {
      i := i + 1;
      SkipWs();
      if i < |s| && s[i] == RightBrace {
        i := i + 1;
        return Some(Obj([]));
      }
      r := ParseMembers();
    }

    /** The `while (true)` loop of `parseObject`, from the first member on. */
    method ParseMembers() returns (r: Option<Json>)
      requires i <= |s|
      modifies this
      ensures Outcome(r, i) == ObjectRest(s, old(i), [])
      decreases |s| - i, 3
    {
      var out: seq<Member> := [];
      ghost var goal := ObjectRest(s, i, out);
      while true
        invariant old(i) <= i <= |s|
        invariant ObjectRest(s, i, out) == goal
        decreases |s| - i
      {
        ghost var round := i;
        var m := ParseMember();
        if m.None? {
          return None;
        }
        ObjectRestStep(s, round, out, m.value, i);
        out := Assign(out, m.value.key, m.value.value);
        SkipWs();
        if i < |s| && s[i] == Comma {
          i := i + 1;
          continue;
        }
        if i < |s| && s[i] == RightBrace {
          i := i + 1;
          return Some(Obj(out));
        }
        return None;
      }
    }
  }

  /** `parseJsonWithBigInt(input)`: `None` where the source throws "Invalid JSON". */
  method ParseJsonWithBigInt(input: JsString) returns (r: Option<Json>)
    ensures r == ParseJson(input)
  {
    var p := new Parser(input);
    var value := p.ParseValue();
    if value.None? {
      return None;
    }
    p.SkipWs();
    if p.i != |p.s| {
      return None;
    }
    return value;
  }
}
