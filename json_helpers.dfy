/**
 * The small exported helpers of chrome-extension/src/lib/json.js that sit
 * on top of the parser and the serialiser: `safeJsonParse`,
 * `stringifyValueForClipboard`, `isUriString` and `isJsonString`.
 */
module JsonHelpers {
  import opened JsText
  import opened JsonValues
  import opened JsonParser
  import opened JsonPrinter
  import opened JsonRoundTrip
  import opened JsonParseFacts

  // ---------------------------------------------------------------------
  // safeJsonParse
  // ---------------------------------------------------------------------

  /** The record `{ ok, value }` that `safeJsonParse` returns. */
  datatype Parsed = Parsed(ok: bool, value: Json)

  /**
   * `safeJsonParse(text)`: the parser's value, or `{ ok: false, value: null }`
   * where it throws. What it accepts is always a well-formed value without
   * `undefined`.
   */
  function SafeJsonParse(text: JsString): (r: Parsed)
    ensures r.ok ==> WellFormed(r.value) && NoUndef(r.value)
    ensures !r.ok ==> r.value == Null
  {
    ParsedBuilt(text);
    match ParseJson(text)
    case None => Parsed(false, Null)
    case Some(v) => Parsed(true, v)
  }

  /** `safeJsonParse(stringifyPretty(v))` and `safeJsonParse(stringifyCompact(v))` succeed with the normal form of `v`. */
  lemma SafeParseOfStringify(v: Json, pretty: bool)
    requires WellFormed(v) && NoFloats(v)
    ensures SafeJsonParse(Stringify(v, pretty)) == Parsed(true, Normalize(v))
  {
    PrintParseRoundTrip(v, pretty);
  }

  /** Blank text never parses. */
  lemma SafeParseOfBlank(text: JsString)
    requires forall j :: 0 <= j < |text| ==> IsJsonWs(text[j])
    ensures SafeJsonParse(text) == Parsed(false, Null)
  {
    BlankRejected(text);
  }

  // ---------------------------------------------------------------------
  // stringifyValueForClipboard
  // ---------------------------------------------------------------------

  /**
   * `stringifyValueForClipboard(value, { compact })`: a string as it is,
   * `undefined` as the empty text, and every other value as the serialiser
   * writes it (pretty unless `compact`).
   */
  function StringifyValueForClipboard(v: Json, compact: bool): (t: JsString)
    ensures v.Str? ==> t == v.s
    ensures v.Undef? ==> t == []
    ensures !v.Str? && !v.Undef? ==> t == Stringify(v, !compact)
  {
    match v
    case Str(s) => s
    case Num(n) => NumberText(n)
    case BigInt(i) => IntText(i)
    case Bool(b) => if b then TrueText else FalseText
    case Null => NullText
    case Undef => []
    case _ => if compact then Stringify(v, false) else Stringify(v, true)
  }

  /** What the clipboard receives for anything but a string or `undefined` parses back to the value. */
  lemma ClipboardReadsBack(v: Json, compact: bool)
    requires WellFormed(v) && NoFloats(v) && !v.Str? && !v.Undef?
    ensures ParseJson(StringifyValueForClipboard(v, compact)) == Some(Normalize(v))
  {
    PrintParseRoundTrip(v, !compact);
  }

  // ---------------------------------------------------------------------
  // isUriString
  // ---------------------------------------------------------------------

  /** A code unit the scheme may continue with: `[A-Za-z0-9+.-]`. */
  predicate IsSchemeUnit(u: CodeUnit)
  {
    IsAsciiLetter(u) || IsDigit(u) || u == Plus || u == Dot || u == Minus
  }

  /** `^[A-Za-z][A-Za-z0-9+.-]*:` matches `t` (the scheme of section 3.1 of RFC 3986, then `:`). */
  predicate SchemePrefix(t: JsString)
  {
    exists k :: 1 <= k < |t| && t[k] == Colon && IsAsciiLetter(t[0])
      && forall j :: 1 <= j < k ==> IsSchemeUnit(t[j])
  }

  /** The end of the run of scheme code units starting at `j`. */
  function SchemeEnd(t: JsString, j: nat): (e: nat)
    requires j <= |t|
    ensures j <= e <= |t| && (e < |t| ==> !IsSchemeUnit(t[e]))
    ensures forall x :: j <= x < e ==> IsSchemeUnit(t[x])
    decreases |t| - j
  {
    if j < |t| && IsSchemeUnit(t[j]) then SchemeEnd(t, j + 1) else j
  }

  /**
   * `isUriString(value)`: a string whose trimmed text is not empty, holds no
   * white space and starts with a scheme and `:`.
   */
  function IsUriString(v: Json): (b: bool)
    ensures b <==> (v.Str? && Trim(v.s) != [] && (forall j :: 0 <= j < |Trim(v.s)| ==> !IsJsSpace(Trim(v.s)[j]))
                    && SchemePrefix(Trim(v.s)))
  {
    if !v.Str? then false
    else
      var text := Trim(v.s);
      if text == [] then false
      else if exists j :: 0 <= j < |text| && IsJsSpace(text[j]) then false
      else
        var e := SchemeEnd(text, 1);
        var b := IsAsciiLetter(text[0]) && e < |text| && text[e] == Colon;
        assert SchemePrefix(text) ==> b by {
          if SchemePrefix(text) {
            var k :| 1 <= k < |text| && text[k] == Colon && IsAsciiLetter(text[0])
              && forall j :: 1 <= j < k ==> IsSchemeUnit(text[j]);
            assert !IsSchemeUnit(text[k]);
            assert e == k;
          }
        }
        b
  }

  // ---------------------------------------------------------------------
  // isJsonString
  // ---------------------------------------------------------------------

  /**
   * `isJsonString(value)`: a string whose trimmed text starts with `{` or `[`,
   * parses, and yields an object or an array.
   */
  function IsJsonString(v: Json): (b: bool)
  {
    if !v.Str? then false
    else
      var text := Trim(v.s);
      if text == [] then false
      else if !(text[0] == LeftBrace || text[0] == LeftBracket) then false
      else
        var parsed := SafeJsonParse(text);
        parsed.ok && !parsed.value.Null? && IsContainer(parsed.value)
  }

  /** A text starting with `{` or `[` that parses always yields an object or an array. */
  lemma BracketParsesToContainer(text: JsString)
    requires text != [] && (text[0] == LeftBrace || text[0] == LeftBracket)
    ensures ParseJson(text).Some? ==> IsContainer(ParseJson(text).value)
  {
    assert WsEnd(text, 0) == 0;
  }

  /**
   * The container test of `isJsonString` never rejects anything: the value is
   * a JSON string exactly when its trimmed text starts with a bracket and parses.
   */
  lemma IsJsonStringParses(v: Json)
    ensures IsJsonString(v) <==> (v.Str? && Trim(v.s) != []
                                  && (Trim(v.s)[0] == LeftBrace || Trim(v.s)[0] == LeftBracket)
                                  && ParseJson(Trim(v.s)).Some?)
    ensures IsJsonString(v) ==> IsContainer(ParseJson(Trim(v.s)).value)
  {
    if v.Str? && Trim(v.s) != [] && (Trim(v.s)[0] == LeftBrace || Trim(v.s)[0] == LeftBracket) {
      BracketParsesToContainer(Trim(v.s));
    }
  }

  /** Trimming a text that neither starts nor ends with white space changes nothing. */
  lemma TrimNothing(t: JsString)
    requires t != [] && !IsJsSpace(t[0]) && !IsJsSpace(t[|t| - 1])
    ensures Trim(t) == t
  {
    assert SkipSpace(t, 0) == 0;
  }

  /** The serialised text of an array or an object opens and closes with a bracket. */
  lemma ContainerTextBrackets(v: Json, pretty: bool)
    requires IsContainer(v)
    ensures var t := Stringify(v, pretty);
      |t| >= 2 && (t[0] == LeftBrace || t[0] == LeftBracket)
      && (t[|t| - 1] == RightBrace || t[|t| - 1] == RightBracket)
  {
  }

  /** The text the serialiser writes for an array or an object is a JSON string holding its normal form. */
  lemma StringifiedIsJsonString(v: Json, pretty: bool)
    requires WellFormed(v) && NoFloats(v) && IsContainer(v)
    ensures IsJsonString(Str(Stringify(v, pretty)))
    ensures ParseJson(Trim(Stringify(v, pretty))) == Some(Normalize(v))
  {
    var t := Stringify(v, pretty);
    ContainerTextBrackets(v, pretty);
    TrimNothing(t);
    PrintParseRoundTrip(v, pretty);
    IsJsonStringParses(Str(t));
  }
}
