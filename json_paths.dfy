/**
 * The path helpers of chrome-extension/src/lib/json.js: `getAtPath` and
 * `setAtPath`, which read and write a value at a path of keys and indices,
 * and `formatPath` and `joinFullPath`, which build the path text a layer
 * shows in its title.
 *
 * Values are immutable here: `setAtPath`, which assigns into the parent
 * object in place and returns the same target, is modelled as returning
 * the updated value.
 */
module JsonPaths {
  import opened JsText
  import opened JsonValues

  /** A path segment: an object key (a string) or an array index (a number). */
  datatype Seg = Key(key: JsString) | Index(index: nat)

  /** The property name a segment addresses: a number is converted with `String(n)`. */
  function SlotName(seg: Seg): JsString
  {
    match seg
    case Key(k) => k
    case Index(n) => NatText(n)
  }

  lemma {:induction false} NatTextInjective(n: nat, m: nat)
    requires NatText(n) == NatText(m)
    ensures n == m
  {
    NatTextValue(n);
    NatTextValue(m);
  }

  lemma SlotNameIndex(n: nat, m: nat)
    requires n != m
    ensures SlotName(Index(n)) != SlotName(Index(m))
  {
    if NatText(n) == NatText(m) {
      NatTextInjective(n, m);
    }
  }

  // ---------------------------------------------------------------------
  // getAtPath
  // ---------------------------------------------------------------------

  /**
   * `cur[seg]` for a `cur` that is not null or undefined: an element of an
   * array, a member of an object, and `undefined` for anything absent.
   */
  function Get(cur: Json, seg: Seg): (r: Json)
    ensures !IsContainer(cur) ==> r == Undef
  {
    match cur
    case Arr(items) => if seg.Index? && seg.index < |items| then items[seg.index] else Undef
    case Obj(ms) => if Lookup(ms, SlotName(seg)).Some? then Lookup(ms, SlotName(seg)).value else Undef
    case _ => Undef
  }

  /** What `getAtPath(target, path)` returns: `undefined` once a step meets null or undefined. */
  function ValueAtPath(target: Json, path: seq<Seg>): Json
    decreases |path|
  {
    if path == [] then target
    else if IsNullish(target) then Undef
    else ValueAtPath(Get(target, path[0]), path[1..])
  }

  /** `getAtPath(target, path)`: the loop over the segments. */
  method GetAtPath(target: Json, path: seq<Seg>) returns (r: Json)
    ensures r == ValueAtPath(target, path)
  {
    var cur := target;
    for i := 0 to |path|
      invariant ValueAtPath(cur, path[i..]) == ValueAtPath(target, path)
    {
      if IsNullish(cur) {
        return Undef;
      }
      assert path[i..][1..] == path[i + 1..];
      cur := Get(cur, path[i]);
    }
    assert path[|path|..] == [];
    return cur;
  }

  lemma UndefAtPath(path: seq<Seg>)
    ensures ValueAtPath(Undef, path) == Undef
  {
  }

  /** Reading along `p + q` is reading along `p`, then along `q` from there. */
  lemma {:induction false} ValueAtPathConcat(target: Json, p: seq<Seg>, q: seq<Seg>)
    ensures ValueAtPath(target, p + q) == ValueAtPath(ValueAtPath(target, p), q)
    decreases |p|
  {
    if p == [] {
      assert p + q == q;
    } else if IsNullish(target) {
      UndefAtPath(q);
    } else {
      assert (p + q)[1..] == p[1..] + q;
      ValueAtPathConcat(Get(target, p[0]), p[1..], q);
    }
  }

  /** Once a prefix of the path reaches null or undefined, the whole read is `undefined`. */
  lemma NullishPrefix(target: Json, p: seq<Seg>, q: seq<Seg>)
    requires IsNullish(ValueAtPath(target, p)) && q != []
    ensures ValueAtPath(target, p + q) == Undef
  {
    ValueAtPathConcat(target, p, q);
  }

  /** Only a read that stays among objects and arrays can end on an object or an array. */
  lemma {:induction false} ContainerAtPath(target: Json, path: seq<Seg>)
    requires path != [] && IsContainer(ValueAtPath(target, path))
    ensures IsContainer(target)
    decreases |path|
  {
    if !IsNullish(target) {
      UndefAtPath(path[1..]);
    }
  }

  // ---------------------------------------------------------------------
  // setAtPath
  // ---------------------------------------------------------------------

  /** `n` holes, which read as `undefined` and serialise as `null`. */
  function Holes(n: nat): (r: seq<Json>)
    ensures |r| == n && forall j :: 0 <= j < n ==> r[j] == Undef
  {
    if n == 0 then [] else Holes(n - 1) + [Undef]
  }

  /**
   * `cur[seg] = value`, `None` for the TypeError it throws on anything but an
   * object or an array (null and undefined have no properties; assigning to
   * a property of a primitive throws in a module's strict mode). An index
   * past the end of an array leaves holes before the new element; a key on
   * an array makes a property that neither reads nor serialises as an element.
   */
  function Put(cur: Json, seg: Seg, value: Json): (r: Option<Json>)
    ensures r.Some? <==> IsContainer(cur)
    ensures r.Some? ==> IsContainer(r.value)
  {
    match cur
    case Arr(items) =>
      if seg.Key? then Some(cur)
      else if seg.index < |items| then Some(Arr(items[seg.index := value]))
      else Some(Arr(items + Holes(seg.index - |items|) + [value]))
    case Obj(ms) => Some(Obj(Assign(ms, SlotName(seg), value)))
    case _ => None
  }

  /** The walk of `setAtPath` from `cur` for a non-empty path, `None` where it throws. */
  function SetIn(cur: Json, path: seq<Seg>, value: Json): (r: Option<Json>)
    requires |path| >= 1
    decreases |path|
  {
    if |path| == 1 then Put(cur, path[0], value)
    else if IsNullish(cur) then None
    else
      match SetIn(Get(cur, path[0]), path[1..], value)
      case None => None
      case Some(child) => Put(cur, path[0], child)
  }

  /** What `setAtPath(target, path, value)` leaves as the target, `None` where it throws. */
  function WrittenAt(target: Json, path: seq<Seg>, value: Json): Option<Json>
  {
    if path == [] then Some(value) else SetIn(target, path, value)
  }

  /** A write that succeeds starts from an object or an array. */
  lemma SetInContainer(cur: Json, path: seq<Seg>, value: Json)
    requires |path| >= 1 && SetIn(cur, path, value).Some?
    ensures IsContainer(cur)
  {
  }

  /**
   * `setAtPath(target, path, value)`: the loop down to the parent of the last
   * slot, then the assignment. `chain` holds the objects passed on the way
   * down; the loop back up writes each updated child into its parent, which
   * is what assigning in place amounts to for values.
   */
  method SetAtPath(target: Json, path: seq<Seg>, value: Json) returns (r: Option<Json>)
    ensures r == WrittenAt(target, path, value)
  {
    if |path| == 0 {
      return Some(value);
    }
    hide *;
    WrittenAtPath(target, path, value);
    var chain := WalkDown(target, path, value);
    if |chain| < |path| {
      return None;
    }
    var n := |path|;
    SetInLast(chain[n - 1], path, value);
    var acc := Put(chain[n - 1], path[n - 1], value);
    if acc.None? {
      return None;
    }
    r := WriteUp(chain, path, value, acc.value);
  }

  lemma WrittenAtPath(target: Json, path: seq<Seg>, value: Json)
    requires path != []
    ensures WrittenAt(target, path, value) == SetIn(target, path, value)
  {
  }

  /** The write of the last slot of a path. */
  lemma SetInLast(cur: Json, path: seq<Seg>, value: Json)
    requires |path| >= 1
    ensures SetIn(cur, path[|path| - 1..], value) == Put(cur, path[|path| - 1], value)
  {
    assert path[|path| - 1..] == [path[|path| - 1]];
  }

  /**
   * The loop of `setAtPath` down to the parent of the last slot: the values
   * passed on the way, or fewer of them where a step meets null or
   * undefined (the walk then throws).
   */
  method WalkDown(target: Json, path: seq<Seg>, value: Json) returns (chain: seq<Json>)
    requires |path| >= 1
    ensures 1 <= |chain| <= |path| && chain[0] == target
    ensures forall j :: 0 <= j < |chain| - 1 ==> !IsNullish(chain[j]) && chain[j + 1] == Get(chain[j], path[j])
    ensures |chain| < |path| ==> SetIn(target, path, value) == None
    ensures |chain| == |path| ==> (SetIn(chain[|path| - 1], path[|path| - 1..], value).None? ==> SetIn(target, path, value) == None)
  {
    var n := |path|;
    var cur := target;
    chain := [target];
    for i := 0 to n - 1
      invariant |chain| == i + 1 && chain[i] == cur && chain[0] == target
      invariant forall j :: 0 <= j < i ==> !IsNullish(chain[j]) && chain[j + 1] == Get(chain[j], path[j])
      invariant SetIn(cur, path[i..], value).None? ==> SetIn(target, path, value) == None
    {
      if IsNullish(cur) {
        return;
      }
      assert path[i..][1..] == path[i + 1..];
      cur := Get(cur, path[i]);
      chain := chain + [cur];
    }
  }

  /** The loop back up: each updated child written into its parent, up to the target. */
  method WriteUp(chain: seq<Json>, path: seq<Seg>, value: Json, last: Json) returns (r: Option<Json>)
    requires 1 <= |chain| == |path|
    requires forall j :: 0 <= j < |chain| - 1 ==> !IsNullish(chain[j]) && chain[j + 1] == Get(chain[j], path[j])
    requires Some(last) == SetIn(chain[|path| - 1], path[|path| - 1..], value)
    ensures r == SetIn(chain[0], path, value)
  {
    var k := |path| - 1;
    var acc := Some(last);
    while k > 0
      invariant 0 <= k <= |path| - 1
      invariant acc.Some? && acc == SetIn(chain[k], path[k..], value)
    {
      SetInContainer(chain[k], path[k..], value);
      k := k - 1;
      assert path[k..][1..] == path[k + 1..];
      acc := Put(chain[k], path[k], acc.value);
    }
    assert path[0..] == path;
    return acc;
  }

  /** `setAtPath` throws exactly when the parent of the last slot is not an object or an array. */
  lemma {:induction false} SetInSucceeds(cur: Json, path: seq<Seg>, value: Json)
    requires |path| >= 1
    ensures SetIn(cur, path, value).Some? <==> IsContainer(ValueAtPath(cur, path[..|path| - 1]))
    decreases |path|
  {
    hide Put, Get;
    var n := |path|;
    if n == 1 {
      assert path[..0] == [];
    } else if IsNullish(cur) {
      UndefAtPath(path[..n - 1]);
    } else {
      var next := Get(cur, path[0]);
      SetInSucceeds(next, path[1..], value);
      assert path[..n - 1][1..] == path[1..][..n - 2];
      if SetIn(next, path[1..], value).Some? {
        SetInContainer(next, path[1..], value);
      }
    }
  }

  lemma WrittenAtSucceeds(target: Json, path: seq<Seg>, value: Json)
    ensures WrittenAt(target, path, value).Some? <==> path == [] || IsContainer(ValueAtPath(target, path[..|path| - 1]))
  {
    if path != [] {
      SetInSucceeds(target, path, value);
    }
  }

  /** Reading the slot just assigned gives the assigned value. */
  lemma PutGet(cur: Json, seg: Seg, value: Json)
    requires IsContainer(cur) && !(cur.Arr? && seg.Key?)
    ensures Get(Put(cur, seg, value).value, seg) == value
  {
    if cur.Obj? {
      AssignLookup(cur.members, SlotName(seg), value);
    }
  }

  /** Assigning one slot leaves every slot with another name as it was. */
  lemma PutOther(cur: Json, a: Seg, b: Seg, value: Json)
    requires IsContainer(cur) && SlotName(a) != SlotName(b)
    ensures Get(Put(cur, a, value).value, b) == Get(cur, b)
  {
    if cur.Obj? {
      PutOtherKey(cur.members, a, b, value);
    } else if a.Index? && b.Index? {
      PutOtherIndex(cur.items, a.index, b.index, value);
    }
  }

  lemma PutOtherKey(ms: seq<Member>, a: Seg, b: Seg, value: Json)
    requires SlotName(a) != SlotName(b)
    ensures Get(Put(Obj(ms), a, value).value, b) == Get(Obj(ms), b)
  {
    AssignLookup(ms, SlotName(a), value);
  }

  lemma PutOtherIndex(items: seq<Json>, i: nat, j: nat, value: Json)
    requires i != j
    ensures Get(Put(Arr(items), Index(i), value).value, Index(j)) == Get(Arr(items), Index(j))
  {
    if i >= |items| {
      GrownOther(items, i, j, value);
    }
  }

  /** Writing past the end of an array leaves every other index reading as before. */
  lemma GrownOther(items: seq<Json>, i: nat, j: nat, value: Json)
    requires |items| <= i && i != j
    ensures var grown := items + Holes(i - |items|) + [value];
      (if j < |grown| then grown[j] else Undef) == (if j < |items| then items[j] else Undef)
  {
    var holes := Holes(i - |items|);
    var grown := items + holes + [value];
    assert |grown| == i + 1;
    if j < |items| {
      assert grown[j] == items[j];
    } else if j < i {
      assert grown[j] == holes[j - |items|];
    }
  }

  /** The read along the written path after a write that succeeds. */
  lemma {:induction false} SetInReadBack(cur: Json, path: seq<Seg>, value: Json)
    requires |path| >= 1 && SetIn(cur, path, value).Some?
    requires !(ValueAtPath(cur, path[..|path| - 1]).Arr? && path[|path| - 1].Key?)
    ensures ValueAtPath(SetIn(cur, path, value).value, path) == value
    decreases |path|
  {
    var n := |path|;
    SetInContainer(cur, path, value);
    var r := SetIn(cur, path, value).value;
    if n == 1 {
      assert path[..0] == [];
      PutGet(cur, path[0], value);
    } else {
      var next := Get(cur, path[0]);
      SetInContainer(next, path[1..], value);
      assert path[..n - 1][1..] == path[1..][..n - 2];
      SetInReadBack(next, path[1..], value);
      PutGet(cur, path[0], SetIn(next, path[1..], value).value);
    }
  }

  /**
   * After `setAtPath(target, path, value)` succeeds, reading `path` gives
   * `value` (unless the last slot is a key on an array, which no read sees).
   */
  lemma WrittenReadsBack(target: Json, path: seq<Seg>, value: Json)
    requires WrittenAt(target, path, value).Some?
    requires path == [] || !(ValueAtPath(target, path[..|path| - 1]).Arr? && path[|path| - 1].Key?)
    ensures ValueAtPath(WrittenAt(target, path, value).value, path) == value
  {
    if path != [] {
      SetInReadBack(target, path, value);
    }
  }

  /** `q` leaves `p` at position `j`: the same slots before it, another slot there. */
  predicate Diverge(p: seq<Seg>, q: seq<Seg>, j: nat)
  {
    j < |p| && j < |q| && p[..j] == q[..j] && SlotName(p[j]) != SlotName(q[j])
  }

  lemma {:induction false} SetInOthers(cur: Json, path: seq<Seg>, q: seq<Seg>, j: nat, value: Json)
    requires |path| >= 1 && SetIn(cur, path, value).Some? && Diverge(path, q, j)
    ensures ValueAtPath(SetIn(cur, path, value).value, q) == ValueAtPath(cur, q)
    decreases j
  {
    SetInContainer(cur, path, value);
    var r := SetIn(cur, path, value).value;
    if j == 0 {
      if |path| == 1 {
        PutOther(cur, path[0], q[0], value);
      } else {
        PutOther(cur, path[0], q[0], SetIn(Get(cur, path[0]), path[1..], value).value);
      }
    } else {
      assert q[0] == q[..j][0] == path[..j][0] == path[0];
      var next := Get(cur, path[0]);
      SetInContainer(next, path[1..], value);
      var child := SetIn(next, path[1..], value).value;
      PutGet(cur, path[0], child);
      assert path[1..][..j - 1] == path[..j][1..] && q[1..][..j - 1] == q[..j][1..];
      SetInOthers(next, path[1..], q[1..], j - 1, value);
    }
  }

  /**
   * `setAtPath` assigns only the last slot of its path: every path that
   * leaves it somewhere reads as before.
   */
  lemma WrittenLeavesOthers(target: Json, path: seq<Seg>, q: seq<Seg>, j: nat, value: Json)
    requires WrittenAt(target, path, value).Some? && Diverge(path, q, j)
    ensures ValueAtPath(WrittenAt(target, path, value).value, q) == ValueAtPath(target, q)
  {
    SetInOthers(target, path, q, j, value);
  }

  // ---------------------------------------------------------------------
  // formatPath and joinFullPath
  // ---------------------------------------------------------------------

  predicate IsIdentifierStart(u: CodeUnit)
  {
    IsAsciiLetter(u) || u == Underscore || u == Dollar
  }

  /** `/^[A-Za-z_$][A-Za-z0-9_$]*$/.test(s)`. */
  predicate IsIdentifier(s: JsString)
  {
    |s| >= 1 && IsIdentifierStart(s[0])
    && forall j :: 1 <= j < |s| ==> IsIdentifierStart(s[j]) || IsDigit(s[j])
  }

  /** `s.replaceAll('"', '\\"')`: a backslash before every double quote. */
  function EscapeQuotes(s: JsString): (r: JsString)
    ensures |r| >= |s|
  {
    if s == [] then []
    else (if s[0] == DoubleQuote then [Backslash, DoubleQuote] else [s[0]]) + EscapeQuotes(s[1..])
  }

  /**
   * What one round of the `formatPath` loop appends to `out`: `[n]` for an
   * index; a key as it is while nothing has been written, then `.key` for
   * an identifier and `["key"]` otherwise.
   */
  function SegText(out: JsString, seg: Seg): JsString
  {
    match seg
    case Index(n) => [LeftBracket] + NatText(n) + [RightBracket]
    case Key(k) =>
      if |out| == 0 then k
      else if IsIdentifier(k) then [Dot] + k
      else [LeftBracket, DoubleQuote] + EscapeQuotes(k) + [DoubleQuote, RightBracket]
  }

  /** The text the `formatPath` loop holds after `segs`, having started from `out`. */
  function FormatFrom(out: JsString, segs: seq<Seg>): JsString
    decreases |segs|
  {
    if segs == [] then out else FormatFrom(out + SegText(out, segs[0]), segs[1..])
  }

  /** `formatPath(segments)`. */
  method FormatPath(segs: seq<Seg>) returns (out: JsString)
    ensures out == FormatFrom([], segs)
  {
    out := [];
    for i := 0 to |segs|
      invariant FormatFrom(out, segs[i..]) == FormatFrom([], segs)
    {
      assert segs[i..][1..] == segs[i + 1..];
      out := out + SegText(out, segs[i]);
    }
    assert segs[|segs|..] == [];
  }

  /** Formatting `p + q` is formatting `p`, then going on with `q`. */
  lemma {:induction false} FormatFromConcat(out: JsString, p: seq<Seg>, q: seq<Seg>)
    ensures FormatFrom(out, p + q) == FormatFrom(FormatFrom(out, p), q)
    decreases |p|
  {
    if p == [] {
      assert p + q == q;
    } else {
      assert (p + q)[1..] == p[1..] + q;
      FormatFromConcat(out + SegText(out, p[0]), p[1..], q);
    }
  }

  /** The texts of `segs` once something has been written: the same whatever was written. */
  function LaterText(segs: seq<Seg>): JsString
    decreases |segs|
  {
    if segs == [] then [] else SegText([Dot], segs[0]) + LaterText(segs[1..])
  }

  /** Once something has been written, what a segment adds no longer depends on it. */
  lemma SegTextLater(out: JsString, seg: Seg)
    requires out != []
    ensures SegText(out, seg) == SegText([Dot], seg)
  {
  }

  /** Once the text is not empty, the loop only appends, and what it appends does not depend on the text. */
  lemma {:induction false} FormatFromLater(out: JsString, segs: seq<Seg>)
    requires out != []
    ensures FormatFrom(out, segs) == out + LaterText(segs)
    decreases |segs|
  {
    hide SegText;
    if segs != [] {
      var next := out + SegText(out, segs[0]);
      SegTextLater(out, segs[0]);
      FormatFromLater(next, segs[1..]);
      assert LaterText(segs) == SegText([Dot], segs[0]) + LaterText(segs[1..]);
    }
  }

  /**
   * `joinFullPath(parentFullPath, relSegments)`: the parent's path text
   * continued by the formatted relative path, with `.` between them unless
   * the relative text starts with `[`.
   */
  function JoinFullPath(parent: JsString, rel: seq<Seg>): (full: JsString)
    ensures parent == [] ==> full == FormatFrom([], rel)
  {
    var text := FormatFrom([], rel);
    if parent == [] then text
    else if text == [] then parent
    else if text[0] == LeftBracket then parent + text
    else parent + [Dot] + text
  }

  /** The text of a first segment that is an index or an identifier key, and how it continues a path. */
  lemma FirstSegText(seg: Seg)
    requires seg.Index? || IsIdentifier(seg.key)
    ensures SegText([], seg) != []
    ensures seg.Index? ==> SegText([], seg)[0] == LeftBracket && SegText([Dot], seg) == SegText([], seg)
    ensures seg.Key? ==> SegText([], seg)[0] != LeftBracket && SegText([Dot], seg) == [Dot] + SegText([], seg)
  {
  }

  /**
   * Joining the path text of `p` with `q` gives the text of the whole path
   * `p + q` whenever `q` starts with an index or an identifier key.
   */
  lemma JoinFullPathFormats(p: seq<Seg>, q: seq<Seg>)
    requires q == [] || q[0].Index? || IsIdentifier(q[0].key)
    ensures JoinFullPath(FormatFrom([], p), q) == FormatFrom([], p + q)
  {
    FormatFromConcat([], p, q);
    var parent := FormatFrom([], p);
    if q == [] {
      assert p + q == p;
    } else if parent != [] {
      JoinAfterParent(parent, q);
    }
  }

  /** A non-empty parent text followed by the text of `q`, which starts with an index or an identifier key. */
  lemma JoinAfterParent(parent: JsString, q: seq<Seg>)
    requires parent != [] && q != [] && (q[0].Index? || IsIdentifier(q[0].key))
    ensures JoinFullPath(parent, q) == FormatFrom(parent, q)
  {
    hide *;
    var first := SegText([], q[0]);
    var text := FormatFrom([], q);
    FirstSegText(q[0]);
    FormatFromStep([], q);
    assert [] + first == first;
    FormatFromLater(first, q[1..]);
    FormatFromLater(parent, q);
    LaterTextStep(q);
    JoinFullPathAfter(parent, q);
    assert text == first + LaterText(q[1..]);
    assert text != [] && text[0] == first[0];
  }

  /** One round of the `formatPath` loop. */
  lemma FormatFromStep(out: JsString, segs: seq<Seg>)
    requires segs != []
    ensures FormatFrom(out, segs) == FormatFrom(out + SegText(out, segs[0]), segs[1..])
  {
  }

  lemma FormatFromEnd(out: JsString)
    ensures FormatFrom(out, []) == out
  {
  }

  lemma LaterTextStep(segs: seq<Seg>)
    requires segs != []
    ensures LaterText(segs) == SegText([Dot], segs[0]) + LaterText(segs[1..])
  {
  }

  /** How `joinFullPath` continues a parent text that is not empty. */
  lemma JoinFullPathAfter(parent: JsString, rel: seq<Seg>)
    requires parent != []
    ensures var text := FormatFrom([], rel);
      JoinFullPath(parent, rel)
        == if text == [] then parent else if text[0] == LeftBracket then parent + text else parent + [Dot] + text
  {
  }

  /** What a key adds to a text that is not empty. */
  lemma SegTextKey(out: JsString, k: JsString)
    requires out != []
    ensures SegText(out, Key(k))
         == if IsIdentifier(k) then [Dot] + k else [LeftBracket, DoubleQuote] + EscapeQuotes(k) + [DoubleQuote, RightBracket]
  {
  }

  /**
   * When `q` starts with a key that is not an identifier, the joined text is
   * not the text of the whole path: the key is appended after a `.` as it is,
   * where formatting the whole path writes `["key"]`.
   */
  lemma JoinFullPathNotIdentifier()
    ensures var a: JsString := [0x61];
      var xy: JsString := [0x78, Space, 0x79];
      JoinFullPath(a, [Key(xy)]) == a + [Dot] + xy
      && FormatFrom([], [Key(a), Key(xy)]) == a + [LeftBracket, DoubleQuote] + xy + [DoubleQuote, RightBracket]
  {
    JoinSpacedKey();
    FormatSpacedKey();
  }

  lemma JoinSpacedKey()
    ensures var a: JsString := [0x61];
      var xy: JsString := [0x78, Space, 0x79];
      JoinFullPath(a, [Key(xy)]) == a + [Dot] + xy
  {
    var a: JsString := [0x61];
    var xy: JsString := [0x78, Space, 0x79];
    assert a != [] && xy != [] && xy[0] != LeftBracket;
    hide *;
    FirstKeyText(xy);
    FormatFromStep([], [Key(xy)]);
    FormatFromEnd(xy);
    assert [Key(xy)][1..] == [];
    assert [] + xy == xy;
    JoinFullPathAfter(a, [Key(xy)]);
  }

  lemma FormatSpacedKey()
    ensures var a: JsString := [0x61];
      var xy: JsString := [0x78, Space, 0x79];
      FormatFrom([], [Key(a), Key(xy)]) == a + [LeftBracket, DoubleQuote] + xy + [DoubleQuote, RightBracket]
  {
    var a: JsString := [0x61];
    var xy: JsString := [0x78, Space, 0x79];
    assert a != [];
    hide *;
    SpacedKey();
    FirstKeyText(a);
    FormatFromStep([], [Key(a), Key(xy)]);
    assert [Key(a), Key(xy)][1..] == [Key(xy)];
    assert [] + a == a;
    FormatFromStep(a, [Key(xy)]);
    assert [Key(xy)][1..] == [];
    SegTextKey(a, xy);
    FormatFromEnd(a + SegText(a, Key(xy)));
  }

  /** The first key of a path is written as it is. */
  lemma FirstKeyText(k: JsString)
    ensures SegText([], Key(k)) == k
  {
  }

  /** The key `x y` is not an identifier and holds no double quote. */
  lemma SpacedKey()
    ensures var xy: JsString := [0x78, Space, 0x79];
      !IsIdentifier(xy) && EscapeQuotes(xy) == xy
  {
    var xy: JsString := [0x78, Space, 0x79];
    assert !IsIdentifierStart(xy[1]) && !IsDigit(xy[1]);
    assert EscapeQuotes(xy[2..]) == xy[2..];
    assert EscapeQuotes(xy[1..]) == xy[1..];
  }
}
