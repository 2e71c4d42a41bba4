/**
 * The stack of layers of src/features/layerStack.js: the `layers` array of
 * re-parse layers (a string value that holds JSON, opened as a document of
 * its own) and value-edit layers, the root value read with `getRootValue`
 * and stored with `setRootValue`, and the operations that open, edit, save,
 * cancel and close layers. The modals, the DOM, the toasts, the timers and
 * the clipboard are not part of this model.
 */
module LayerStack {
  import opened JsText
  import opened JsonValues
  import opened JsonParser
  import opened JsonPrinter
  import opened JsonRoundTrip
  import opened JsonHelpers
  import opened JsonPaths

  // ---------------------------------------------------------------------
  // Layers
  // ---------------------------------------------------------------------

  /** `kind`: `"parse"` for a re-parsed string, `"value"` for an edited value. */
  datatype Kind = Parse | Value

  /** `mode`: `"view"` or `"edit"`. */
  datatype Mode = View | Edit

  /**
   * One entry of `layers`. `parentLayerIndex` is -1 for the root; the
   * collapsed set holds paths rather than their `JSON.stringify` keys, which
   * name paths one to one.
   */
  datatype Layer = Layer(
    title: JsString,
    fullPath: JsString,
    parentLayerIndex: int,
    parentKeyPath: seq<Seg>,
    kind: Kind,
    parsedValue: Json,
    mode: Mode,
    editorText: JsString,
    collapsedPaths: set<seq<Seg>>)

  /** Every layer hangs off the root (-1) or off a layer below it. */
  predicate ParentsBelow(ls: seq<Layer>)
  {
    forall i :: 0 <= i < |ls| ==> -1 <= ls[i].parentLayerIndex < i
  }

  /** `b` differs from `a` at most in the values its layers hold. */
  predicate SameShape(a: seq<Layer>, b: seq<Layer>)
  {
    |a| == |b| && forall j :: 0 <= j < |a| ==> b[j] == a[j].(parsedValue := b[j].parsedValue)
  }

  lemma SameShapeParents(a: seq<Layer>, b: seq<Layer>)
    requires ParentsBelow(a) && SameShape(a, b)
    ensures ParentsBelow(b)
  {
    forall i | 0 <= i < |b|
      ensures -1 <= b[i].parentLayerIndex < i
    {
      assert b[i].parentLayerIndex == a[i].parentLayerIndex;
    }
  }

  /** Layer `p` holding `v` instead of its value. */
  function SetParsed(ls: seq<Layer>, p: nat, v: Json): (r: seq<Layer>)
    requires p < |ls|
    ensures SameShape(ls, r)
    ensures r[p].parsedValue == v && forall j :: 0 <= j < |ls| && j != p ==> r[j] == ls[j]
  {
    ls[p := ls[p].(parsedValue := v)]
  }

  /** The value a layer is opened from: the root, or the value of layer `p`. */
  function Base(ls: seq<Layer>, root: Json, p: int): Json
    requires -1 <= p < |ls|
  {
    if p == -1 then root else ls[p].parsedValue
  }

  // The code units of the layer titles.
  const Ordinal: CodeUnit := 0x7B2C                 // 第
  const Level: CodeUnit := 0x5C42                   // 层
  const ParseVerb: JsString := [0x89E3, 0x6790]     // 解析
  const EditVerb: JsString := [0x7F16, 0x8F91]      // 编辑

  /** The title `第 <level> 层<verb> - <fullPath>`. */
  function Title(level: nat, verb: JsString, fullPath: JsString): JsString
  {
    [Ordinal, Space] + NatText(level) + [Space, Level] + verb + [Space, Minus, Space] + fullPath
  }

  /** The display path of a layer opened at `relPath` below layer `p` (or the root). */
  function FullPathFor(ls: seq<Layer>, p: int, relPath: seq<Seg>): JsString
    requires -1 <= p < |ls|
  {
    JoinFullPath(if p == -1 then [] else ls[p].fullPath, relPath)
  }

  /** The layer `openLayerFrom` pushes: a re-parsed string, shown in view mode. */
  function ReparseLayer(ls: seq<Layer>, p: int, relPath: seq<Seg>, value: Json): Layer
    requires -1 <= p < |ls|
  {
    var full := FullPathFor(ls, p, relPath);
    Layer(Title(|ls| + 1, ParseVerb, full), full, p, relPath, Parse, value, View, [], {})
  }

  /** The text the editor of a value layer starts with: `"null"` for an absent value. */
  function EditorText(value: Json): JsString
  {
    if value.Undef? then NullText else Stringify(value, true)
  }

  /** The layer `openValueEditorFrom` pushes: the value at the path, in edit mode. */
  function EditorLayer(ls: seq<Layer>, p: int, relPath: seq<Seg>, value: Json): Layer
    requires -1 <= p < |ls|
  {
    var full := FullPathFor(ls, p, relPath);
    Layer(Title(|ls| + 1, EditVerb, full), full, p, relPath, Value, value, Edit, EditorText(value), {})
  }

  /** A re-parse layer is pushed with the value of its string, which is always an object or an array. */
  lemma ReparsedIsContainer(raw: Json)
    requires IsJsonString(raw)
    ensures SafeJsonParse(Trim(raw.s)).ok && IsContainer(SafeJsonParse(Trim(raw.s)).value)
  {
    IsJsonStringParses(raw);
  }

  /**
   * The `"null"` special case of the editor text agrees with the serialiser,
   * and the editor text reads back as the normal form of the value: saving an
   * editor left as it was opened stores that normal form.
   */
  lemma EditorTextReadsBack(value: Json)
    requires WellFormed(value) && NoFloats(value)
    ensures EditorText(value) == Stringify(value, true)
    ensures SafeJsonParse(EditorText(value)) == Parsed(true, Normalize(value))
  {
    SafeParseOfStringify(value, true);
  }

  /** The collapsed set with `path` added if it was absent and removed if it was present. */
  function Flip(paths: set<seq<Seg>>, path: seq<Seg>): (r: set<seq<Seg>>)
    ensures path in r <==> path !in paths
    ensures r - {path} == paths - {path}
  {
    if path in paths then paths - {path} else paths + {path}
  }

  /** Toggling the same path twice restores the collapsed set. */
  lemma FlipTwice(paths: set<seq<Seg>>, path: seq<Seg>)
    ensures Flip(Flip(paths, path), path) == paths
  {
    var once := Flip(paths, path);
    var twice := Flip(once, path);
    assert twice - {path} == paths - {path};
    assert path in twice <==> path in paths;
  }

  // ---------------------------------------------------------------------
  // Write-back (syncUpFrom)
  // ---------------------------------------------------------------------

  /** Whether a BigInt occurs in `v`; the native `JSON.stringify` throws on one. */
  predicate HoldsBigInt(v: Json)
    decreases v
  {
    match v
    case BigInt(_) => true
    case Arr(items) => exists j :: 0 <= j < |items| && HoldsBigInt(items[j])
    case Obj(ms) => exists j :: 0 <= j < |ms| && HoldsMemberBigInt(v, ms[j])
    case _ => false
  }

  predicate HoldsMemberBigInt(v: Json, m: Member)
    requires v.Obj? && m in v.members
    decreases v, 0
  {
    HoldsBigInt(m.value)
  }

  /**
   * The native `JSON.stringify(v)`: `None` where it throws on a BigInt,
   * `undefined` for `undefined`, and otherwise the compact text, which for a
   * value without BigInt is the one the codec's compact serialiser writes.
   */
  function NativeStringify(v: Json): (r: Option<Json>)
    ensures r.None? <==> HoldsBigInt(v)
  {
    if HoldsBigInt(v) then None
    else if v.Undef? then Some(Undef)
    else Some(Str(Stringify(v, false)))
  }

  /** The value written into the parent slot: the text of a re-parse layer, the value of a value layer. */
  function NextValue(layer: Layer): (r: Option<Json>)
    ensures r.None? <==> layer.kind == Parse && HoldsBigInt(layer.parsedValue)
  {
    if layer.kind == Parse then NativeStringify(layer.parsedValue) else Some(layer.parsedValue)
  }

  /**
   * The state `syncUpFrom` works on: the layers, its local `root`, the value
   * the application's root holds (`stored`), and whether the local `root` is
   * still the application's own object, so that writes into it reach the
   * application before `setRootValue` is called.
   */
  datatype SyncState = SyncState(layers: seq<Layer>, root: Json, stored: Json, shared: bool)

  /** Where `syncUpFrom` ends: its state, and whether it threw. */
  datatype SyncResult = SyncResult(state: SyncState, threw: bool)

  /**
   * One turn of the `syncUpFrom` loop: layer `i` written into its parent slot,
   * `None` where `JSON.stringify` or `setAtPath` throws. Only the parent,
   * which lies below `i`, changes.
   */
  function WriteBack(st: SyncState, i: nat): (r: Option<SyncState>)
    requires i < |st.layers| && ParentsBelow(st.layers)
    ensures r.Some? ==> SameShape(st.layers, r.value.layers)
    ensures r.Some? ==> forall j :: i <= j < |st.layers| ==> r.value.layers[j] == st.layers[j]
    ensures r.Some? ==> forall j :: 0 <= j < |st.layers| && j != st.layers[i].parentLayerIndex ==>
                          r.value.layers[j] == st.layers[j]
    ensures r.Some? && st.layers[i].parentLayerIndex != -1 ==> r.value.root == st.root && r.value.stored == st.stored
    ensures r.None? <==> NextValue(st.layers[i]).None?
                         || (st.layers[i].parentKeyPath != []
                             && WrittenAt(Base(st.layers, st.root, st.layers[i].parentLayerIndex),
                                          st.layers[i].parentKeyPath, NextValue(st.layers[i]).value).None?)
  {
    var layer := st.layers[i];
    var p := layer.parentLayerIndex;
    var parent := Base(st.layers, st.root, p);
    match NextValue(layer)
    case None => None
    case Some(next) =>
      if layer.parentKeyPath == [] then
        if p == -1 then Some(st.(root := next, shared := false))
        else Some(st.(layers := SetParsed(st.layers, p, next)))
      else
        match WrittenAt(parent, layer.parentKeyPath, next)
        case None => None
        case Some(w) =>
          if p == -1 then Some(st.(root := w, stored := if st.shared then w else st.stored))
          else Some(st.(layers := SetParsed(st.layers, p, w)))
  }

  /**
   * After one turn, the parent holds at layer `i`'s key path what the turn
   * wrote, unless that slot is a key on an array, where the parent stays as
   * it was.
   */
  lemma WriteBackReadsBack(st: SyncState, i: nat)
    requires i < |st.layers| && ParentsBelow(st.layers) && WriteBack(st, i).Some?
    ensures var r := WriteBack(st, i).value;
      var p, path := st.layers[i].parentLayerIndex, st.layers[i].parentKeyPath;
      ValueAtPath(Base(r.layers, r.root, p), path) == NextValue(st.layers[i]).value
      || (LastKeyOnArray(path, Base(st.layers, st.root, p))
          && Base(r.layers, r.root, p) == Base(st.layers, st.root, p))
  {
    var layer := st.layers[i];
    var p, path := layer.parentLayerIndex, layer.parentKeyPath;
    var parent := Base(st.layers, st.root, p);
    var v := NextValue(layer).value;
    if path == [] {
      assert WrittenAt(parent, path, v) == Some(v);
    } else if LastKeyOnArray(path, parent) {
      KeyOnArrayStays(parent, path, v);
    } else {
      WrittenReadsBack(parent, path, v);
    }
  }

  /**
   * The `syncUpFrom` loop from layer `i` down to layer 0: every layer, not only
   * the ancestors of the saved one. It stops at the first throw. Only layer
   * values change, and layers from `i` up are never written.
   */
  function SyncDown(st: SyncState, i: int): (r: SyncResult)
    requires -1 <= i < |st.layers| && ParentsBelow(st.layers)
    ensures SameShape(st.layers, r.state.layers)
    ensures forall j :: 0 <= j < |st.layers| && i <= j ==> r.state.layers[j] == st.layers[j]
    decreases i + 1
  {
    if i < 0 then SyncResult(st, false)
    else
      match WriteBack(st, i)
      case None => SyncResult(st, true)
      case Some(next) =>
        SameShapeParents(st.layers, next.layers);
        SyncDown(next, i - 1)
  }

  /** One turn of the loop, then the rest of it. */
  lemma SyncUnfold(st: SyncState, i: nat)
    requires i < |st.layers| && ParentsBelow(st.layers)
    ensures WriteBack(st, i).None? ==> SyncDown(st, i) == SyncResult(st, true)
    ensures WriteBack(st, i).Some? ==>
      ParentsBelow(WriteBack(st, i).value.layers) && SyncDown(st, i) == SyncDown(WriteBack(st, i).value, i - 1)
  {
    if WriteBack(st, i).Some? {
      SameShapeParents(st.layers, WriteBack(st, i).value.layers);
    }
  }

  lemma SyncEnd(st: SyncState)
    requires ParentsBelow(st.layers)
    ensures SyncDown(st, -1) == SyncResult(st, false)
  {
  }

  /** The root the application holds once `syncUpFrom` has returned or thrown. */
  function RootAfter(r: SyncResult): Json
  {
    if r.threw then r.state.stored else r.state.root
  }

  /**
   * A sync that does not throw has serialised every layer from `i` down to 0
   * as it stood when its turn came, which is as it stands at the end: no
   * re-parse layer among them holds a BigInt.
   */
  lemma {:induction false} SyncVisitsEveryLayer(st: SyncState, i: int)
    requires -1 <= i < |st.layers| && ParentsBelow(st.layers)
    ensures !SyncDown(st, i).threw ==>
      forall j :: 0 <= j <= i ==> NextValue(SyncDown(st, i).state.layers[j]).Some?
    decreases i + 1
  {
    if 0 <= i {
      match WriteBack(st, i)
      case None =>
      case Some(next) =>
        SameShapeParents(st.layers, next.layers);
        SyncVisitsEveryLayer(next, i - 1);
        var r := SyncDown(st, i);
        assert r == SyncDown(next, i - 1);
        assert r.state.layers[i] == next.layers[i] == st.layers[i];
    }
  }

  /** A re-parse layer holding a BigInt throws on its turn, before it writes anything. */
  lemma BigIntThrows(st: SyncState, i: nat)
    requires i < |st.layers| && ParentsBelow(st.layers)
    requires st.layers[i].kind == Parse && HoldsBigInt(st.layers[i].parsedValue)
    ensures SyncDown(st, i) == SyncResult(st, true)
  {
    assert WriteBack(st, i).None?;
  }

  /**
   * Layer 0 hangs off the root and has the last turn: after a sync that does
   * not throw, the root holds, at layer 0's key path, the text or the value
   * of layer 0, whichever layer was saved (unless that slot is a key on an
   * array, which no read sees).
   */
  lemma {:induction false} SyncEndsAtLayerZero(st: SyncState, i: int)
    requires 0 <= i < |st.layers| && ParentsBelow(st.layers)
    requires !SyncDown(st, i).threw
    ensures var r := SyncDown(st, i).state;
      NextValue(r.layers[0]).Some?
      && (ValueAtPath(r.root, r.layers[0].parentKeyPath) == NextValue(r.layers[0]).value
          || LastKeyOnArray(r.layers[0].parentKeyPath, r.root))
    decreases i
  {
    var next := WriteBack(st, i).value;
    SameShapeParents(st.layers, next.layers);
    if i > 0 {
      SyncEndsAtLayerZero(next, i - 1);
    } else {
      var layer := st.layers[0];
      var v := NextValue(layer).value;
      var path := layer.parentKeyPath;
      assert SyncDown(st, 0) == SyncDown(next, -1);
      assert next.layers[0] == layer;
      if path != [] {
        var w := WrittenAt(st.root, path, v);
        if !(ValueAtPath(st.root, path[..|path| - 1]).Arr? && path[|path| - 1].Key?) {
          WrittenReadsBack(st.root, path, v);
        } else {
          KeyOnArrayStays(st.root, path, v);
        }
      }
    }
  }

  /** The last slot of `path` is a key on an array of `root`: a write there is invisible to reads. */
  predicate LastKeyOnArray(path: seq<Seg>, root: Json)
  {
    path != [] && path[|path| - 1].Key? && ValueAtPath(root, path[..|path| - 1]).Arr?
  }

  /** A write into a key of an array leaves the array as it was. */
  lemma KeyOnArrayStays(target: Json, path: seq<Seg>, value: Json)
    requires path != [] && WrittenAt(target, path, value).Some?
    requires ValueAtPath(target, path[..|path| - 1]).Arr? && path[|path| - 1].Key?
    ensures WrittenAt(target, path, value) == Some(target)
    ensures LastKeyOnArray(path, WrittenAt(target, path, value).value)
  {
    SetInPrefix(target, path, value);
  }

  /**
   * A write that puts into a key of an array changes nothing at all: the
   * parent array is written back into its own slot unchanged.
   */
  lemma {:induction false} SetInPrefix(cur: Json, path: seq<Seg>, value: Json)
    requires |path| >= 1 && SetIn(cur, path, value).Some?
    requires ValueAtPath(cur, path[..|path| - 1]).Arr? && path[|path| - 1].Key?
    ensures SetIn(cur, path, value).value == cur
    decreases |path|
  {
    var n := |path|;
    SetInContainer(cur, path, value);
    if n == 1 {
      assert path[..0] == [];
    } else {
      var next := Get(cur, path[0]);
      assert path[..n - 1][1..] == path[1..][..n - 2];
      if n == 2 {
        assert path[1..][..0] == [];
      } else {
        ContainerAtPath(next, path[1..][..n - 2]);
      }
      SetInPrefix(next, path[1..], value);
      GetPutSame(cur, path[0]);
    }
  }

  /** Putting a slot's own value back leaves a container as it was. */
  lemma GetPutSame(cur: Json, seg: Seg)
    requires IsContainer(cur) && IsContainer(Get(cur, seg))
    ensures Put(cur, seg, Get(cur, seg)) == Some(cur)
  {
    if cur.Obj? {
      AssignSame(cur.members, SlotName(seg), Get(cur, seg));
    } else if seg.Index? {
      assert cur.items[seg.index := Get(cur, seg)] == cur.items;
    }
  }

  /** Assigning a key the value it already holds changes nothing. */
  lemma {:induction false} AssignSame(ms: seq<Member>, key: JsString, value: Json)
    requires Lookup(ms, key) == Some(value)
    ensures Assign(ms, key, value) == ms
  {
    if ms[0].key != key {
      AssignSame(ms[1..], key, value);
    }
  }

  // ---------------------------------------------------------------------
  // Saving (saveLayerFromEditor)
  // ---------------------------------------------------------------------

  /** What `saveLayerFromEditor` returns: false, true after a parse error, true, or a throw. */
  datatype SaveOutcome = NotSaved | ParseFailed | Saved | Threw

  /** The layers and the root once a save has returned or thrown. */
  datatype StackState = StackState(layers: seq<Layer>, root: Json)

  /** Layer `idx` committed with `v` in view mode, and the layers above it closed. */
  function Committed(ls: seq<Layer>, idx: nat, v: Json): (r: seq<Layer>)
    requires idx < |ls| && ParentsBelow(ls)
    ensures ParentsBelow(r)
  {
    ls[..idx + 1][idx := ls[idx].(parsedValue := v, mode := View, editorText := [])]
  }

  /** `saveLayerFromEditor(idx)` with the editor holding `text`. */
  function SaveSpec(ls: seq<Layer>, root: Json, idx: int, text: JsString): (SaveOutcome, StackState)
    requires ParentsBelow(ls)
  {
    if !(0 <= idx < |ls|) then (NotSaved, StackState(ls, root))
    else
      var parsed := SafeJsonParse(text);
      if !parsed.ok then (ParseFailed, StackState(ls, root))
      else
        var r := SyncDown(SyncState(Committed(ls, idx, parsed.value), root, root, true), idx);
        (if r.threw then Threw else Saved, StackState(r.state.layers, RootAfter(r)))
  }

  /**
   * A save whose text parses, whether the write-back then throws or not,
   * leaves exactly the layers up to `idx`, the saved one holding the parsed
   * value in view mode with an empty editor text, the ones below it with only
   * their values changed.
   */
  lemma SaveCommits(ls: seq<Layer>, root: Json, idx: nat, text: JsString)
    requires ParentsBelow(ls) && idx < |ls| && SafeJsonParse(text).ok
    ensures var after := SaveSpec(ls, root, idx, text).1.layers;
      |after| == idx + 1
      && after[idx] == ls[idx].(parsedValue := SafeJsonParse(text).value, mode := View, editorText := [])
      && SameShape(ls[..idx], after[..idx])
  {
    var c := Committed(ls, idx, SafeJsonParse(text).value);
    var r := SyncDown(SyncState(c, root, root, true), idx);
    var after := r.state.layers;
    assert after[idx] == c[idx];
    forall j | 0 <= j < idx
      ensures after[..idx][j] == ls[..idx][j].(parsedValue := after[..idx][j].parsedValue)
    {
      assert c[j] == ls[j];
    }
  }

  /**
   * Saving a BigInt into a re-parse layer throws in the write-back, after the
   * layer has been committed and the layers above it closed; the root is not
   * stored.
   */
  lemma SaveThrowsOnBigInt(ls: seq<Layer>, root: Json, idx: nat, text: JsString)
    requires ParentsBelow(ls) && idx < |ls| && ls[idx].kind == Parse
    requires SafeJsonParse(text).ok && HoldsBigInt(SafeJsonParse(text).value)
    ensures SaveSpec(ls, root, idx, text)
         == (Threw, StackState(Committed(ls, idx, SafeJsonParse(text).value), root))
  {
    var c := Committed(ls, idx, SafeJsonParse(text).value);
    BigIntThrows(SyncState(c, root, root, true), idx);
  }

  /** The text `{"b":<digit>}`. */
  function BText(digit: CodeUnit): JsString
  {
    [LeftBrace, DoubleQuote, 0x62, DoubleQuote, Colon, digit, RightBrace]
  }

  /** The value `{"b": n}`. */
  function BValue(n: SafeInt): Json
  {
    Obj([Member([0x62], Num(Int(n)))])
  }

  lemma BTextPrints()
    ensures Stringify(BValue(2), false) == BText(0x32)
  {
    var ms := [Member([0x62], Num(Int(2)))];
    assert IntText(2) == [0x32] by {
      assert NatText(2) == [0x32];
    }
    assert Render(Num(Int(2)), 1, false, false) == Some([0x32]);
    assert EscapeFrom([0x62], 1) == [];
    assert EscapeFrom([0x62], 0) == [0x62];
    assert Quote([0x62]) == [DoubleQuote, 0x62, DoubleQuote];
    assert MemberParts(ms, 0, 0, false) == [];
    assert MemberPart([0x62], [0x32], 0, false) == [DoubleQuote, 0x62, DoubleQuote, Colon, 0x32];
    assert ms[0].key == [0x62] && ms[0].value == Num(Int(2));
    assert MemberParts(ms, 1, 0, false) == [[DoubleQuote, 0x62, DoubleQuote, Colon, 0x32]];
    assert Join([[DoubleQuote, 0x62, DoubleQuote, Colon, 0x32]], CompactSep) == [DoubleQuote, 0x62, DoubleQuote, Colon, 0x32];
  }

  lemma BTextParses()
    ensures SafeJsonParse(BText(0x32)) == Parsed(true, BValue(2))
  {
    BTextPrints();
    PrintParseRoundTrip(BValue(2), false);
    assert NormMembers([Member([0x62], Num(Int(2)))], 1) == [];
    assert Normalize(BValue(2)) == BValue(2);
  }

  /** The write-back of the committed layer of the example. */
  lemma ExampleWriteBack(layer: Layer, root: Json)
    requires layer.parentLayerIndex == -1 && layer.parentKeyPath == [Key([0x61])]
    requires layer.kind == Parse && layer.parsedValue == BValue(2)
    requires root == Obj([Member([0x61], Str(BText(0x31)))])
    ensures var after := Obj([Member([0x61], Str(BText(0x32)))]);
      SyncDown(SyncState([layer], root, root, true), 0) == SyncResult(SyncState([layer], after, after, true), false)
  {
    BTextPrints();
    assert !HoldsBigInt(Num(Int(2)));
    assert !HoldsBigInt(BValue(2)) by {
      var v := BValue(2);
      assert forall j :: 0 <= j < |v.members| ==> v.members[j] == Member([0x62], Num(Int(2)));
    }
    assert NextValue(layer) == Some(Str(BText(0x32)));
    var after := Obj([Member([0x61], Str(BText(0x32)))]);
    var ms := root.members;
    assert SlotName(Key([0x61])) == [0x61];
    assert Assign(ms, [0x61], Str(BText(0x32))) == after.members by {
      assert ms[0].key == [0x61];
      assert ms[1..] == [];
    }
    assert Put(root, Key([0x61]), Str(BText(0x32))) == Some(after);
    assert WrittenAt(root, [Key([0x61])], Str(BText(0x32))) == Some(after);
    var st := SyncState([layer], root, root, true);
    assert WriteBack(st, 0) == Some(SyncState([layer], after, after, true));
  }

  /**
   * With the root `{"a":"{\"b\":1}"}` and the re-parse layer of `a` open,
   * saving `{"b":2}` stores the root `{"a":"{\"b\":2}"}`.
   */
  lemma SaveExample()
    ensures var root := Obj([Member([0x61], Str(BText(0x31)))]);
      var layer := ReparseLayer([], -1, [Key([0x61])], BValue(1));
      SaveSpec([layer], root, 0, BText(0x32))
        == (Saved, StackState([layer.(parsedValue := BValue(2), mode := View, editorText := [])],
                              Obj([Member([0x61], Str(BText(0x32)))])))
  {
    var root := Obj([Member([0x61], Str(BText(0x31)))]);
    var layer := ReparseLayer([], -1, [Key([0x61])], BValue(1));
    var committed := layer.(parsedValue := BValue(2), mode := View, editorText := []);
    BTextParses();
    assert Committed([layer], 0, BValue(2)) == [committed];
    ExampleWriteBack(committed, root);
  }

  // ---------------------------------------------------------------------
  // Blank-area double click
  // ---------------------------------------------------------------------

  /** `Math.max(0, Math.min(len, x))`. */
  function ClampTo(x: int, len: nat): (c: nat)
    ensures c <= len && (0 <= x <= len ==> c == x)
  {
    if x < 0 then 0 else if x > len then len else x
  }

  /**
   * `isBlankAreaDblClick(text, start, end)`; a missing or non-finite bound is
   * `None`. A double click saves the editor when the selection is blank and
   * not empty, or when the caret touches white space or the end of the text.
   */
  function IsBlankAreaDblClick(text: JsString, start: Option<int>, end: Option<int>): (b: bool)
    ensures var s := ClampTo(if start.Some? then start.value else 0, |text|);
            var e := ClampTo(if end.Some? then end.value else s, |text|);
            var selected := if s <= e then text[s..e] else text[e..s];
            b <==> AllSpace(selected)
                   && (|selected| > 0 || s == |text| || IsJsSpace(text[s]) || (s > 0 && IsJsSpace(text[s - 1])))
  {
    var s := ClampTo(if start.Some? then start.value else 0, |text|);
    var e := ClampTo(if end.Some? then end.value else s, |text|);
    var selected := if s <= e then text[s..e] else text[e..s];
    if Trim(selected) != [] then false
    else if |selected| > 0 then true
    else if s >= |text| then true
    else if IsJsSpace(text[s]) then true
    else if s > 0 && IsJsSpace(text[s - 1]) then true
    else false
  }

  // ---------------------------------------------------------------------
  // The stack
  // ---------------------------------------------------------------------

  /** The state of `createLayerStack`: its `layers` array, and the application's root value. */
  class Stack {
    var layers: seq<Layer>
    var root: Json

    predicate Valid()
      reads this
    {
      ParentsBelow(layers)
    }

    /** `createLayerStack`: no layer open. */
    constructor(root: Json)
      ensures Valid() && layers == [] && this.root == root
    {
      layers := [];
      this.root := root;
    }

    /**
     * `openLayerFrom(parentLayerIndex, relPath)`: pushes one re-parse layer
     * exactly when the value at the path is a JSON string; otherwise nothing
     * changes.
     */
    method OpenLayerFrom(parentLayerIndex: int, relPath: seq<Seg>)
      requires Valid() && -1 <= parentLayerIndex < |layers|
      modifies this
      ensures Valid() && root == old(root)
      ensures var raw := ValueAtPath(Base(old(layers), old(root), parentLayerIndex), relPath);
        if IsJsonString(raw)
        then layers == old(layers) + [ReparseLayer(old(layers), parentLayerIndex, relPath, SafeJsonParse(Trim(raw.s)).value)]
        else layers == old(layers)
    {
      var base := if parentLayerIndex == -1 then root else layers[parentLayerIndex].parsedValue;
      var raw := GetAtPath(base, relPath);
      if !IsJsonString(raw) {
        return;
      }
      var parsed := SafeJsonParse(Trim(raw.s));
      ReparsedIsContainer(raw);
      if parsed.ok {
        layers := layers + [ReparseLayer(layers, parentLayerIndex, relPath, parsed.value)];
      }
    }

    /**
     * `openValueEditorFrom(parentLayerIndex, relPath)`: refuses when the base
     * is null or undefined, and otherwise pushes one value layer in edit mode
     * holding the value at the path, absent or not.
     */
    method OpenValueEditorFrom(parentLayerIndex: int, relPath: seq<Seg>)
      requires Valid() && -1 <= parentLayerIndex < |layers|
      modifies this
      ensures Valid() && root == old(root)
      ensures var base := Base(old(layers), old(root), parentLayerIndex);
        if IsNullish(base) then layers == old(layers)
        else layers == old(layers) + [EditorLayer(old(layers), parentLayerIndex, relPath, ValueAtPath(base, relPath))]
    {
      var base := if parentLayerIndex == -1 then root else layers[parentLayerIndex].parsedValue;
      if IsNullish(base) {
        return;
      }
      var value := GetAtPath(base, relPath);
      layers := layers + [EditorLayer(layers, parentLayerIndex, relPath, value)];
    }

    /** `enterLayerEditMode`: edit mode, with the editor holding the pretty text of the value. */
    method EnterLayerEditMode(layerIndex: int)
      requires Valid()
      modifies this
      ensures Valid() && root == old(root)
      ensures if 0 <= layerIndex < |old(layers)|
        then layers == old(layers)[layerIndex := old(layers)[layerIndex].(mode := Edit,
                                      editorText := Stringify(old(layers)[layerIndex].parsedValue, true))]
        else layers == old(layers)
    {
      if !(0 <= layerIndex < |layers|) {
        return;
      }
      var current := layers[layerIndex];
      layers := layers[layerIndex := current.(mode := Edit, editorText := Stringify(current.parsedValue, true))];
    }

    /** The cancel action: back to view mode with an empty editor text; the value is kept. */
    method Cancel(idx: int)
      requires Valid()
      modifies this
      ensures Valid() && root == old(root)
      ensures if 0 <= idx < |old(layers)|
        then layers == old(layers)[idx := old(layers)[idx].(mode := View, editorText := [])]
        else layers == old(layers)
    {
      if !(0 <= idx < |layers|) {
        return;
      }
      layers := layers[idx := layers[idx].(mode := View, editorText := [])];
    }

    /**
     * The toggle action and the double click on a key: flips the path in the
     * collapsed set when the value there is an object or an array.
     */
    method ToggleCollapse(idx: int, path: seq<Seg>)
      requires Valid()
      modifies this
      ensures Valid() && root == old(root)
      ensures if 0 <= idx < |old(layers)| && IsContainer(ValueAtPath(old(layers)[idx].parsedValue, path))
        then layers == old(layers)[idx := old(layers)[idx].(collapsedPaths := Flip(old(layers)[idx].collapsedPaths, path))]
        else layers == old(layers)
    {
      if !(0 <= idx < |layers|) {
        return;
      }
      var current := layers[idx];
      var target := GetAtPath(current.parsedValue, path);
      if !IsContainer(target) {
        return;
      }
      layers := layers[idx := current.(collapsedPaths := Flip(current.collapsedPaths, path))];
    }

    /** `closeAll`. */
    method CloseAll()
      modifies this
      ensures Valid() && layers == [] && root == old(root)
    {
      layers := [];
    }

    /** `closeAfter(index)`: pops until at most `index + 1` layers are left. */
    method CloseAfter(index: int)
      requires Valid() && index >= -1
      modifies this
      ensures Valid() && root == old(root)
      ensures layers == old(layers)[..if index + 1 < |old(layers)| then index + 1 else |old(layers)|]
    {
      while |layers| - 1 > index
        invariant root == old(root)
        invariant |layers| <= |old(layers)| && layers == old(layers)[..|layers|]
        invariant |layers| >= if index + 1 < |old(layers)| then index + 1 else |old(layers)|
        decreases |layers|
      {
        layers := layers[..|layers| - 1];
      }
    }

    /** `closeTop`: pops the last layer, if any. */
    method CloseTop()
      requires Valid()
      modifies this
      ensures Valid() && root == old(root)
      ensures layers == if |old(layers)| == 0 then old(layers) else old(layers)[..|old(layers)| - 1]
    {
      if |layers| == 0 {
        return;
      }
      layers := layers[..|layers| - 1];
    }

    /**
     * `syncUpFrom(layerIndex)`: writes every layer from `layerIndex` down to 0
     * into its parent slot, then stores the local root; `threw` where
     * `JSON.stringify` or `setAtPath` throws, with the writes done so far left
     * in place and the root not stored.
     */
    method SyncUpFrom(layerIndex: int) returns (threw: bool)
      requires Valid() && -1 <= layerIndex < |layers|
      modifies this
      ensures Valid()
      ensures var r := SyncDown(SyncState(old(layers), old(root), old(root), true), layerIndex);
        threw == r.threw && layers == r.state.layers && root == RootAfter(r)
    {
      hide SyncDown;
      ghost var goal := SyncDown(SyncState(layers, root, root, true), layerIndex);
      var local := root;
      var stored := root;
      var shared := true;
      var i := layerIndex;
      while i >= 0
        invariant -1 <= i <= layerIndex && i < |layers| && ParentsBelow(layers)
        invariant SyncDown(SyncState(layers, local, stored, shared), i) == goal
        decreases i
      {
        var st := SyncState(layers, local, stored, shared);
        var layer := layers[i];
        var p := layer.parentLayerIndex;
        var parent := if p == -1 then local else layers[p].parsedValue;
        var next := NextValue(layer);
        if next.None? {
          SyncUnfold(st, i);
          root := stored;
          return true;
        }
        if layer.parentKeyPath == [] {
          if p == -1 {
            local := next.value;
            shared := false;
          } else {
            layers := layers[p := layers[p].(parsedValue := next.value)];
          }
        } else {
          var written := SetAtPath(parent, layer.parentKeyPath, next.value);
          if written.None? {
            SyncUnfold(st, i);
            root := stored;
            return true;
          }
          if p == -1 {
            local := written.value;
            if shared {
              stored := local;
            }
          } else {
            layers := layers[p := layers[p].(parsedValue := written.value)];
          }
        }
        assert WriteBack(st, i) == Some(SyncState(layers, local, stored, shared));
        SyncUnfold(st, i);
        i := i - 1;
      }
      SyncEnd(SyncState(layers, local, stored, shared));
      root := local;
      return false;
    }

    /** `saveLayerFromEditor(idx)` with the editor holding `text`. */
    method SaveLayerFromEditor(idx: int, text: JsString) returns (outcome: SaveOutcome)
      requires Valid()
      modifies this
      ensures Valid()
      ensures (outcome, StackState(layers, root)) == SaveSpec(old(layers), old(root), idx, text)
    {
      if !(0 <= idx < |layers|) {
        return NotSaved;
      }
      var parsed := SafeJsonParse(text);
      if !parsed.ok {
        return ParseFailed;
      }
      layers := layers[idx := layers[idx].(parsedValue := parsed.value, mode := View, editorText := [])];
      CloseAfter(idx);
      var threw := SyncUpFrom(idx);
      return if threw then Threw else Saved;
    }

    /**
     * The Escape key: leaves edit mode on the top layer if it is editing,
     * and otherwise closes the top layer.
     */
    method EscapeKey()
      requires Valid()
      modifies this
      ensures Valid() && root == old(root)
      ensures var n := |old(layers)|;
        if n == 0 then layers == old(layers)
        else if old(layers)[n - 1].mode == Edit
        then layers == old(layers)[n - 1 := old(layers)[n - 1].(mode := View, editorText := [])]
        else layers == old(layers)[..n - 1]
    {
      if |layers| == 0 {
        return;
      }
      var idx := |layers| - 1;
      if layers[idx].mode == Edit {
        layers := layers[idx := layers[idx].(mode := View, editorText := [])];
        return;
      }
      CloseTop();
    }

    /** `cancelTopIfEditing()`: leaves edit mode on the top layer, true exactly when it was editing. */
    method CancelTopIfEditing() returns (cancelled: bool)
      requires Valid()
      modifies this
      ensures Valid() && root == old(root)
      ensures cancelled <==> |old(layers)| > 0 && old(layers)[|old(layers)| - 1].mode == Edit
      ensures cancelled ==> layers == old(layers)[|old(layers)| - 1 := old(layers)[|old(layers)| - 1].(mode := View, editorText := [])]
      ensures !cancelled ==> layers == old(layers)
    {
      if |layers| == 0 {
        return false;
      }
      var idx := |layers| - 1;
      if layers[idx].mode != Edit {
        return false;
      }
      layers := layers[idx := layers[idx].(mode := View, editorText := [])];
      return true;
    }

    /** `saveTopIfEditing()` with the top editor holding `text`: a save of the top layer when it is editing. */
    method SaveTopIfEditing(text: JsString) returns (outcome: SaveOutcome)
      requires Valid()
      modifies this
      ensures Valid()
      ensures var n := |old(layers)|;
        if n > 0 && old(layers)[n - 1].mode == Edit
        then (outcome, StackState(layers, root)) == SaveSpec(old(layers), old(root), n - 1, text)
        else outcome == NotSaved && layers == old(layers) && root == old(root)
    {
      if |layers| == 0 {
        return NotSaved;
      }
      var idx := |layers| - 1;
      if layers[idx].mode != Edit {
        return NotSaved;
      }
      outcome := SaveLayerFromEditor(idx, text);
    }
  }
}
