/**
 * What `parseJsonWithBigInt` (chrome-extension/src/lib/json.js) promises
 * about the values it builds and the texts it refuses: every value it reads
 * holds each object key once and never holds `undefined`; blank input, a
 * trailing comma, an unterminated string and a bad escape all throw; integer
 * literals are read exactly, as a Number up to 2^53 - 1 and as a BigInt
 * beyond it.
 */
module JsonParseFacts {
  import opened JsText
  import opened JsonValues
  import opened JsonParser
  import opened JsonPrinter
  import opened JsonRoundTrip

  // ---------------------------------------------------------------------
  // The values the parser builds
  // ---------------------------------------------------------------------

  /** A value as the parser builds it: objects without repeated keys, no `undefined`. */
  predicate Built(v: Json)
  {
    WellFormed(v) && NoUndef(v)
  }

  predicate BuiltItems(out: seq<Json>)
  {
    forall j :: 0 <= j < |out| ==> Built(out[j])
  }

  predicate BuiltMembers(out: seq<Member>)
  {
    UniqueKeys(out) && forall j :: 0 <= j < |out| ==> Built(out[j].value)
  }

  /** Every value held after an assignment is the assigned one or one held before. */
  lemma {:induction false} AssignValues(ms: seq<Member>, key: JsString, value: Json)
    ensures forall j :: 0 <= j < |Assign(ms, key, value)| ==>
      Assign(ms, key, value)[j].value == value || Assign(ms, key, value)[j] in ms
  {
    if ms != [] && ms[0].key != key {
      AssignValues(ms[1..], key, value);
      var r := Assign(ms, key, value);
      assert r[1..] == Assign(ms[1..], key, value);
      forall j | 0 <= j < |r|
        ensures r[j].value == value || r[j] in ms
      {
        if j > 0 {
          assert r[j] == r[1..][j - 1];
        }
      }
    }
  }

  lemma AssignBuilt(out: seq<Member>, m: Member)
    requires BuiltMembers(out) && Built(m.value)
    ensures BuiltMembers(Assign(out, m.key, m.value))
  {
    AssignUnique(out, m.key, m.value);
    AssignValues(out, m.key, m.value);
  }

  lemma BuiltArr(out: seq<Json>)
    requires BuiltItems(out)
    ensures Built(Arr(out))
  {
  }

  lemma BuiltObj(out: seq<Member>)
    requires BuiltMembers(out)
    ensures Built(Obj(out))
  {
  }

  /** `parseValue` builds only values without repeated keys and without `undefined`. */
  lemma {:induction false} ValueBuilt(s: JsString, i: nat)
    requires i <= |s|
    ensures ValueAt(s, i).Done? ==> Built(ValueAt(s, i).value)
    decreases |s| - i, 2
  {
    var j := WsEnd(s, i);
    if At(s, j, LeftBrace) {
      ObjectBuilt(s, j);
    } else if At(s, j, LeftBracket) {
      ArrayBuilt(s, j);
    }
  }

  lemma {:induction false} ArrayBuilt(s: JsString, i: nat)
    requires i < |s| && s[i] == LeftBracket
    ensures ArrayAt(s, i).Done? ==> Built(ArrayAt(s, i).value)
    decreases |s| - i, 1
  {
    var j := WsEnd(s, i + 1);
    if !At(s, j, RightBracket) {
      ItemsBuilt(s, j, []);
    }
  }

  lemma {:induction false} ItemsBuilt(s: JsString, i: nat, out: seq<Json>)
    requires i <= |s| && BuiltItems(out)
    ensures ArrayRest(s, i, out).Done? ==> Built(ArrayRest(s, i, out).value)
    decreases |s| - i, 3
  {
    match ValueAt(s, i)
    case Fail =>
    case Done(v, k) =>
      ValueBuilt(s, i);
      ItemsNextBuilt(s, WsEnd(s, k), out + [v]);
  }

  lemma {:induction false} ItemsNextBuilt(s: JsString, q: nat, out: seq<Json>)
    requires q <= |s| && BuiltItems(out)
    ensures ArrayNext(s, q, out).Done? ==> Built(ArrayNext(s, q, out).value)
    decreases |s| - q, 4
  {
    if At(s, q, Comma) {
      ItemsBuilt(s, q + 1, out);
    } else if At(s, q, RightBracket) {
      BuiltArr(out);
    }
  }

  lemma {:induction false} ObjectBuilt(s: JsString, i: nat)
    requires i < |s| && s[i] == LeftBrace
    ensures ObjectAt(s, i).Done? ==> Built(ObjectAt(s, i).value)
    decreases |s| - i, 1
  {
    var j := WsEnd(s, i + 1);
    if !At(s, j, RightBrace) {
      MembersBuilt(s, j, []);
    }
  }

  lemma {:induction false} MemberBuilt(s: JsString, i: nat)
    requires i <= |s|
    ensures MemberAt(s, i).Done? ==> Built(MemberAt(s, i).value.value)
    decreases |s| - i, 2
  {
    var j := WsEnd(s, i);
    if At(s, j, DoubleQuote) {
      match StringAt(s, j)
      case Fail =>
      case Done(key, k) =>
        var c := WsEnd(s, k);
        if At(s, c, Colon) {
          ValueBuilt(s, c + 1);
        }
    }
  }

  lemma {:induction false} MembersBuilt(s: JsString, i: nat, out: seq<Member>)
    requires i <= |s| && BuiltMembers(out)
    ensures ObjectRest(s, i, out).Done? ==> Built(ObjectRest(s, i, out).value)
    decreases |s| - i, 3
  {
    match MemberAt(s, i)
    case Fail =>
    case Done(m, e) =>
      MemberBuilt(s, i);
      AssignBuilt(out, m);
      MembersNextBuilt(s, WsEnd(s, e), Assign(out, m.key, m.value));
  }

  lemma {:induction false} MembersNextBuilt(s: JsString, q: nat, out: seq<Member>)
    requires q <= |s| && BuiltMembers(out)
    ensures ObjectNext(s, q, out).Done? ==> Built(ObjectNext(s, q, out).value)
    decreases |s| - q, 4
  {
    if At(s, q, Comma) {
      MembersBuilt(s, q + 1, out);
    } else if At(s, q, RightBrace) {
      BuiltObj(out);
    }
  }

  /** A document the parser accepts is well formed and holds no `undefined`. */
  lemma ParsedBuilt(s: JsString)
    ensures ParseJson(s).Some? ==> WellFormed(ParseJson(s).value) && NoUndef(ParseJson(s).value)
  {
    ValueBuilt(s, 0);
  }

  // ---------------------------------------------------------------------
  // The texts the parser refuses
  // ---------------------------------------------------------------------

  /** Empty input, or input of JSON whitespace only, throws. */
  lemma BlankRejected(s: JsString)
    requires forall j :: 0 <= j < |s| ==> IsJsonWs(s[j])
    ensures ParseJson(s) == None
  {
    WsEndOver(s, 0, |s|);
  }

  /** Whitespace then `]` where a value should be: the value read throws. */
  lemma NoValueBeforeClose(s: JsString, i: nat)
    requires i <= |s|
    requires At(s, WsEnd(s, i), RightBracket) || At(s, WsEnd(s, i), RightBrace) || At(s, WsEnd(s, i), Comma)
    ensures ValueAt(s, i) == Fail
  {
  }

  /** A comma right before the `]` of an array throws. */
  lemma ArrayTrailingCommaRejected(s: JsString, q: nat, out: seq<Json>)
    requires q <= |s| && At(s, q, Comma) && At(s, WsEnd(s, q + 1), RightBracket)
    ensures ArrayNext(s, q, out) == Fail
  {
    NoValueBeforeClose(s, q + 1);
  }

  /** A comma right before the `}` of an object throws: a member must start with a key. */
  lemma ObjectTrailingCommaRejected(s: JsString, q: nat, out: seq<Member>)
    requires q <= |s| && At(s, q, Comma) && At(s, WsEnd(s, q + 1), RightBrace)
    ensures ObjectNext(s, q, out) == Fail
  {
    assert MemberAt(s, q + 1) == Fail;
  }

  /** A string with no `"` left after its opening quote throws. */
  lemma {:induction false} UnterminatedRejected(s: JsString, i: nat, out: JsString)
    requires i <= |s|
    requires forall j :: i <= j < |s| ==> s[j] != DoubleQuote
    ensures StringRest(s, i, out) == Fail
    decreases |s| - i
  {
    if i < |s| {
      match DecodeAt(s, i)
      case None =>
      case Some((c, w)) =>
        UnterminatedRejected(s, i + w, out + [c]);
    }
  }

  /**
   * A string whose every `"` after the opening quote is escaped throws, as
   * `"ab\"` does: each `"` follows a backslash, and no backslash follows
   * another (so no backslash is itself escaped).
   */
  lemma EscapedQuotesRejected(s: JsString, i: nat, out: JsString)
    requires i <= |s|
    requires forall j :: i <= j < |s| && s[j] == DoubleQuote ==> i < j && s[j - 1] == Backslash
    requires forall j :: i <= j < |s| - 1 ==> !(s[j] == Backslash && s[j + 1] == Backslash)
    ensures StringRest(s, i, out) == Fail
  {
    EscapedQuotesFrom(s, i, i, out);
  }

  /** `"ab\"` is cut off: its last quote is escaped. */
  lemma EscapedQuoteExample()
    ensures StringAt([DoubleQuote, 0x61, 0x62, Backslash, DoubleQuote], 0) == Fail
  {
    var s: JsString := [DoubleQuote, 0x61, 0x62, Backslash, DoubleQuote];
    EscapedQuotesRejected(s, 1, []);
  }

  /** The same from a later step boundary `i`: the step before it did not end in a backslash. */
  lemma {:induction false} EscapedQuotesFrom(s: JsString, start: nat, i: nat, out: JsString)
    requires start <= i <= |s|
    requires forall j :: start <= j < |s| && s[j] == DoubleQuote ==> start < j && s[j - 1] == Backslash
    requires forall j :: start <= j < |s| - 1 ==> !(s[j] == Backslash && s[j + 1] == Backslash)
    requires i == start || s[i - 1] != Backslash
    ensures StringRest(s, i, out) == Fail
    decreases |s| - i
  {
    if i < |s| {
      assert s[i] != DoubleQuote;
      match DecodeAt(s, i)
      case None =>
      case Some((c, w)) =>
        if i + w < |s| {
          if w == 2 {
            assert s[i] == Backslash;
          } else if w == 6 {
            assert IsHexDigit(s[i + 5]);
          }
        }
        EscapedQuotesFrom(s, start, i + w, out + [c]);
    }
  }

  /**
   * A backslash followed by anything but `" \ / b f n r t` or `u` and four
   * hexadecimal digits throws, wherever it stands in the string.
   */
  lemma BadEscapeRejected(s: JsString, i: nat, out: JsString)
    requires At(s, i, Backslash)
    requires i + 1 == |s| || (SimpleEscape(s[i + 1]).None? && !(s[i + 1] == LowerU && Hex4At(s, i + 2)))
    ensures StringRest(s, i, out) == Fail
  {
  }

  /** The nine escapes the parser accepts, and `\u` with four hexadecimal digits. */
  lemma EscapesAccepted(s: JsString, i: nat)
    requires At(s, i, Backslash) && i + 1 < |s|
    ensures SimpleEscape(s[i + 1]).Some? ==> DecodeAt(s, i) == Some((SimpleEscape(s[i + 1]).value, 2))
    ensures s[i + 1] == LowerU && Hex4At(s, i + 2) ==> DecodeAt(s, i) == Some((Hex4Value(s[i + 2..i + 6]), 6))
  {
  }

  // ---------------------------------------------------------------------
  // Numbers
  // ---------------------------------------------------------------------

  /**
   * An integer literal is read exactly: as a Number when its magnitude is at
   * most 2^53 - 1, and as a BigInt otherwise.
   */
  lemma IntegerLiteralExact(x: int)
    ensures Abs(x, MaxSafeInteger) ==> ParseJson(IntText(x)) == Some(Num(Int(x)))
    ensures !Abs(x, MaxSafeInteger) ==> ParseJson(IntText(x)) == Some(BigInt(x))
  {
    PrintParseRoundTrip(BigInt(x), false);
    assert Stringify(BigInt(x), false) == IntText(x);
  }

  /** `9007199254740991` is a Number and `9007199254740993` a BigInt. */
  lemma SafeIntegerBoundary()
    ensures ParseJson(IntText(MaxSafeInteger)) == Some(Num(Int(MaxSafeInteger)))
    ensures ParseJson(IntText(MaxSafeInteger + 2)) == Some(BigInt(MaxSafeInteger + 2))
    ensures ParseJson(IntText(-MaxSafeInteger - 1)) == Some(BigInt(-MaxSafeInteger - 1))
  {
    IntegerLiteralExact(MaxSafeInteger);
    IntegerLiteralExact(MaxSafeInteger + 2);
    IntegerLiteralExact(-MaxSafeInteger - 1);
  }

  /** `-0` is read as negative zero. */
  lemma NegativeZeroRead()
    ensures ParseJson(NegZeroText) == Some(Num(NegZero))
  {
    var s := NegZeroText;
    assert WsEnd(s, 0) == 0;
    assert IntPartEnd(s, 1) == Some(2);
    assert FracEnd(s, 2) == Some(2);
    assert ExpEnd(s, 2) == Some(2);
    assert s[0..2] == NegZeroText;
    assert NumberAt(s, 0) == Done(Num(NegZero), 2);
  }
}
