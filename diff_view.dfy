/**
 * The text-side logic of `renderDiff` in chrome-extension/src/lib/diffOverlay.js:
 * `splitLines`, the size guard, the counting of additions and deletions,
 * the "keep" window of radius 3 around every change, and the rows the view
 * shows, with one `...` marker for every run of entries left out.
 */
module DiffView {
  import opened JsText
  import opened MyersDiff

  // ---------------------------------------------------------------------
  // splitLines
  // ---------------------------------------------------------------------

  /** `text ?? ""` for a text that may be `null` or `undefined`. */
  function OrEmpty(text: Option<JsString>): (t: JsString)
    ensures text.None? ==> t == []
    ensures text.Some? ==> t == text.value
  {
    match text
    case None => []
    case Some(t) => t
  }

  /**
   * `splitLines(text)`: `text.split("\n")`. There is always at least one line
   * (the empty text gives one empty line) and no line holds a line feed.
   */
  function SplitLines(t: JsString): (lines: seq<JsString>)
    ensures |lines| >= 1
    ensures forall i :: 0 <= i < |lines| ==> NoLineFeed(lines[i])
    ensures t == [] ==> lines == [[]]
    decreases |t|
  {
    if t == [] then [[]]
    else
      var rest := SplitLines(t[1..]);
      if t[0] == LineFeed then [[]] + rest
      else [[t[0]] + rest[0]] + rest[1..]
  }

  /** `lines.join("\n")`. */
  function JoinLines(lines: seq<JsString>): JsString
    requires |lines| >= 1
  {
    if |lines| == 1 then lines[0] else lines[0] + [LineFeed] + JoinLines(lines[1..])
  }

  /** Joining the lines of a text gives the text back. */
  lemma {:induction false} JoinSplit(t: JsString)
    ensures JoinLines(SplitLines(t)) == t
    decreases |t|
  {
    if t != [] {
      var rest := SplitLines(t[1..]);
      JoinSplit(t[1..]);
      if t[0] == LineFeed {
        assert SplitLines(t) == [[]] + rest;
        assert ([[]] + rest)[1..] == rest;
        assert t == [] + [LineFeed] + t[1..];
      } else {
        var first := [t[0]] + rest[0];
        assert SplitLines(t) == [first] + rest[1..];
        if |rest| == 1 {
          assert t == [t[0]] + JoinLines(rest);
        } else {
          assert ([first] + rest[1..])[1..] == rest[1..];
          assert JoinLines(rest) == rest[0] + [LineFeed] + JoinLines(rest[1..]);
          assert t == [t[0]] + JoinLines(rest);
        }
      }
    }
  }

  /** A line without a line feed, then a line feed: the first line of the split. */
  lemma {:induction false} SplitFirstLine(line: JsString, t: JsString, ends: bool)
    requires NoLineFeed(line)
    ensures ends ==> SplitLines(line + [LineFeed] + t) == [line] + SplitLines(t)
    ensures !ends ==> SplitLines(line) == [line]
    decreases |line|
  {
    if line == [] {
      if ends {
        assert line + [LineFeed] + t == [LineFeed] + t;
        assert ([LineFeed] + t)[1..] == t;
      }
    } else {
      var tail := line[1..];
      SplitFirstLine(tail, t, ends);
      if ends {
        assert (line + [LineFeed] + t)[1..] == tail + [LineFeed] + t;
        assert [line[0]] + tail == line;
      } else {
        assert [line[0]] + tail == line;
      }
    }
  }

  /** Splitting joined lines without line feeds gives the lines back. */
  lemma {:induction false} SplitJoin(lines: seq<JsString>)
    requires |lines| >= 1
    requires forall i :: 0 <= i < |lines| ==> NoLineFeed(lines[i])
    ensures SplitLines(JoinLines(lines)) == lines
    decreases |lines|
  {
    if |lines| == 1 {
      SplitFirstLine(lines[0], [], false);
    } else {
      SplitJoin(lines[1..]);
      SplitFirstLine(lines[0], JoinLines(lines[1..]), true);
      assert [lines[0]] + lines[1..] == lines;
    }
  }

  /** Two texts split into the same lines exactly when they are equal. */
  lemma SplitInjective(s: JsString, t: JsString)
    ensures SplitLines(s) == SplitLines(t) <==> s == t
  {
    JoinSplit(s);
    JoinSplit(t);
  }

  // ---------------------------------------------------------------------
  // Counting
  // ---------------------------------------------------------------------

  /** The number of entries of a kind. */
  function Count(es: seq<Edit>, kind: EditKind): nat
  {
    if es == [] then 0 else (if es[0].kind == kind then 1 else 0) + Count(es[1..], kind)
  }

  lemma {:induction false} CountConcat(p: seq<Edit>, q: seq<Edit>, kind: EditKind)
    ensures Count(p + q, kind) == Count(p, kind) + Count(q, kind)
    decreases |p|
  {
    if p == [] {
      assert p + q == q;
    } else {
      assert (p + q)[1..] == p[1..] + q;
      CountConcat(p[1..], q, kind);
    }
  }

  /** The additions and the deletions together are the script's changes. */
  lemma {:induction false} CountsAreChanges(es: seq<Edit>)
    ensures Count(es, Add) + Count(es, Del) == Changes(es)
    decreases |es|
  {
    if es != [] {
      CountsAreChanges(es[1..]);
    }
  }

  /** The `for (const e of edits)` loop that counts `adds` and `dels`. */
  method CountChanges(edits: seq<Edit>) returns (adds: nat, dels: nat)
    ensures adds == Count(edits, Add) && dels == Count(edits, Del)
    ensures adds + dels == Changes(edits)
  {
    adds, dels := 0, 0;
    for i := 0 to |edits|
      invariant adds == Count(edits[..i], Add) && dels == Count(edits[..i], Del)
    {
      assert edits[..i + 1] == edits[..i] + [edits[i]];
      CountConcat(edits[..i], [edits[i]], Add);
      CountConcat(edits[..i], [edits[i]], Del);
      if edits[i].kind == Add {
        adds := adds + 1;
      }
      if edits[i].kind == Del {
        dels := dels + 1;
      }
    }
    assert edits[..|edits|] == edits;
    CountsAreChanges(edits);
  }

  // ---------------------------------------------------------------------
  // The keep window
  // ---------------------------------------------------------------------

  /** How many entries on either side of a change stay visible. */
  const Radius: nat := 3

  /** Some addition or deletion among the first `upto` entries lies within `Radius` of entry `p`. */
  ghost predicate NearChange(es: seq<Edit>, upto: nat, p: int)
  {
    exists j :: 0 <= j < upto && j < |es| && es[j].kind != Context && p - Radius <= j <= p + Radius
  }

  /** Entry `p` is kept: some addition or deletion lies within `Radius` of it. */
  ghost predicate Kept(es: seq<Edit>, p: int)
  {
    NearChange(es, |es|, p)
  }

  /** The `keep` array the window computes, as a sequence. */
  ghost function KeepOf(es: seq<Edit>): (keep: seq<bool>)
    ensures |keep| == |es|
  {
    seq(|es|, p requires 0 <= p < |es| => Kept(es, p))
  }

  /** Looking at one more entry adds the window around it, if it is a change. */
  lemma NearChangeStep(es: seq<Edit>, i: nat, p: int)
    requires i < |es|
    ensures NearChange(es, i + 1, p) <==>
      NearChange(es, i, p) || (es[i].kind != Context && p - Radius <= i <= p + Radius)
  {
    if NearChange(es, i + 1, p) && !NearChange(es, i, p) {
      var j :| 0 <= j < i + 1 && j < |es| && es[j].kind != Context && p - Radius <= j <= p + Radius;
      assert j == i;
    }
  }

  function Max(p: int, q: int): int
  {
    if p >= q then p else q
  }

  /**
   * The `keep` array of `renderDiff`: `false` everywhere, then `true` from
   * `max(0, i - 3)` to `min(edits.length - 1, i + 3)` around every entry `i`
   * that is not context. Entry `p` ends up kept exactly when some addition or
   * deletion lies within 3 entries of it.
   */
  method KeepWindow(edits: seq<Edit>) returns (keep: array<bool>)
    ensures fresh(keep) && keep.Length == |edits|
    ensures forall p :: 0 <= p < |edits| ==> (keep[p] <==> Kept(edits, p))
  {
    keep := new bool[|edits|](_ => false);
    for i := 0 to |edits|
      invariant forall p :: 0 <= p < |edits| ==> (keep[p] <==> NearChange(edits, i, p))
    {
      forall p | 0 <= p < |edits| {
        NearChangeStep(edits, i, p);
      }
      if edits[i].kind == Context {
        continue;
      }
      var start := Max(0, i - Radius);
      var end := Min(|edits| - 1, i + Radius);
      for j := start to end + 1
        invariant forall p :: 0 <= p < |edits| ==> (keep[p] <==> NearChange(edits, i, p) || start <= p < j)
      {
        keep[j] := true;
      }
    }
  }

  /** Every addition and deletion is kept. */
  lemma ChangesKept(es: seq<Edit>, i: nat)
    requires i < |es| && es[i].kind != Context
    ensures Kept(es, i)
  {
    assert i - Radius <= i <= i + Radius;
  }

  // ---------------------------------------------------------------------
  // The rows of the view
  // ---------------------------------------------------------------------

  /** A row of the view: the `...` marker, or an entry with its prefix. */
  datatype Row = Skip | Shown(kind: EditKind, text: JsString)

  /** `"+ "`, `"- "` or two spaces. */
  function Prefix(kind: EditKind): (p: JsString)
    ensures |p| == 2 && p[1] == Space
  {
    match kind
    case Add => [Plus, Space]
    case Del => [Minus, Space]
    case Context => [Space, Space]
  }

  /** The row of a kept entry. */
  function ShownRow(e: Edit): (r: Row)
    ensures r.Shown? && r.kind == e.kind && |r.text| == |e.line| + 2 && r.text[2..] == e.line
  {
    Shown(e.kind, Prefix(e.kind) + e.line)
  }

  /**
   * The rows entry `p` contributes: its own row when it is kept, a marker
   * when it opens a run of entries left out, and nothing otherwise.
   */
  function RowOf(es: seq<Edit>, keep: seq<bool>, p: nat): seq<Row>
    requires p < |es| && |keep| == |es|
  {
    if keep[p] then [ShownRow(es[p])]
    else if p == 0 || keep[p - 1] then [Skip]
    else []
  }

  /** The rows of the first `n` entries. */
  function RowsTo(es: seq<Edit>, keep: seq<bool>, n: nat): seq<Row>
    requires n <= |es| && |keep| == |es|
  {
    if n == 0 then [] else RowsTo(es, keep, n - 1) + RowOf(es, keep, n - 1)
  }

  /**
   * The loop that emits the rows, threading the `skipped` flag: a marker for
   * the first entry of a run that is not kept, nothing for the rest of the
   * run, and the prefixed line for each kept entry.
   */
  method EmitRows(edits: seq<Edit>, keep: array<bool>) returns (rows: seq<Row>)
    requires keep.Length == |edits|
    ensures rows == RowsTo(edits, keep[..], |edits|)
  {
    rows := [];
    var skipped := false;
    for i := 0 to |edits|
      invariant rows == RowsTo(edits, keep[..], i)
      invariant skipped <==> i > 0 && !keep[i - 1]
    {
      if !keep[i] {
        if skipped {
          continue;
        }
        skipped := true;
        rows := rows + [Skip];
        continue;
      }
      skipped := false;
      var e := edits[i];
      rows := rows + [Shown(e.kind, Prefix(e.kind) + e.line)];
    }
  }

  /** The rows without the markers. */
  function Unskipped(rows: seq<Row>): seq<Row>
  {
    if rows == [] then [] else (if rows[0].Skip? then [] else [rows[0]]) + Unskipped(rows[1..])
  }

  lemma {:induction false} UnskippedConcat(p: seq<Row>, q: seq<Row>)
    ensures Unskipped(p + q) == Unskipped(p) + Unskipped(q)
    decreases |p|
  {
    if p == [] {
      assert p + q == q;
    } else {
      assert (p + q)[1..] == p[1..] + q;
      UnskippedConcat(p[1..], q);
    }
  }

  /** The kept entries among the first `n`, in order. */
  function KeptEntries(es: seq<Edit>, keep: seq<bool>, n: nat): seq<Edit>
    requires n <= |es| && |keep| == |es|
  {
    if n == 0 then [] else KeptEntries(es, keep, n - 1) + (if keep[n - 1] then [es[n - 1]] else [])
  }

  /** The row of each entry of a list. */
  function ShownRows(es: seq<Edit>): (rows: seq<Row>)
    ensures |rows| == |es|
    ensures forall i :: 0 <= i < |es| ==> rows[i] == ShownRow(es[i])
  {
    if es == [] then [] else ShownRows(es[..|es| - 1]) + [ShownRow(es[|es| - 1])]
  }

  /** Without its markers, the view is the kept entries in order, each with its prefix. */
  lemma {:induction false} RowsShowKept(es: seq<Edit>, keep: seq<bool>, n: nat)
    requires n <= |es| && |keep| == |es|
    ensures Unskipped(RowsTo(es, keep, n)) == ShownRows(KeptEntries(es, keep, n))
  {
    hide *;
    if n == 0 {
      NothingShown(es, keep);
    } else {
      var prev := RowsTo(es, keep, n - 1);
      var kept := KeptEntries(es, keep, n - 1);
      var last := RowOf(es, keep, n - 1);
      RowsShowKept(es, keep, n - 1);
      UnskippedConcat(prev, last);
      RowsStep(es, keep, n);
      UnskippedRowOf(es, keep, n - 1);
      if keep[n - 1] {
        ShownRowsSnoc(kept, es[n - 1]);
      } else {
        assert kept + [] == kept;
        assert ShownRows(kept) + [] == ShownRows(kept);
      }
    }
  }

  lemma NothingShown(es: seq<Edit>, keep: seq<bool>)
    requires |keep| == |es|
    ensures Unskipped(RowsTo(es, keep, 0)) == [] == ShownRows(KeptEntries(es, keep, 0))
  {
  }

  /** One more entry: its rows, and itself among the kept entries if it is kept. */
  lemma RowsStep(es: seq<Edit>, keep: seq<bool>, n: nat)
    requires 0 < n <= |es| && |keep| == |es|
    ensures RowsTo(es, keep, n) == RowsTo(es, keep, n - 1) + RowOf(es, keep, n - 1)
    ensures KeptEntries(es, keep, n) == KeptEntries(es, keep, n - 1) + (if keep[n - 1] then [es[n - 1]] else [])
  {
  }

  /** Without the marker, an entry's rows are its own row if it is kept and nothing otherwise. */
  lemma UnskippedRowOf(es: seq<Edit>, keep: seq<bool>, p: nat)
    requires p < |es| && |keep| == |es|
    ensures Unskipped(RowOf(es, keep, p)) == if keep[p] then [ShownRow(es[p])] else []
  {
    var r := RowOf(es, keep, p);
    if r != [] {
      assert r[1..] == [];
    }
  }

  lemma ShownRowsSnoc(es: seq<Edit>, e: Edit)
    ensures ShownRows(es + [e]) == ShownRows(es) + [ShownRow(e)]
  {
    assert (es + [e])[..|es|] == es;
  }

  /** The number of markers in a list of rows. */
  function SkipCount(rows: seq<Row>): nat
  {
    if rows == [] then 0 else (if rows[0].Skip? then 1 else 0) + SkipCount(rows[1..])
  }

  lemma {:induction false} SkipCountConcat(p: seq<Row>, q: seq<Row>)
    ensures SkipCount(p + q) == SkipCount(p) + SkipCount(q)
    decreases |p|
  {
    if p == [] {
      assert p + q == q;
    } else {
      assert (p + q)[1..] == p[1..] + q;
      SkipCountConcat(p[1..], q);
    }
  }

  /** Entry `p` is the last of a maximal run of entries left out. */
  predicate RunEnd(keep: seq<bool>, p: nat)
    requires p < |keep|
  {
    !keep[p] && (p + 1 == |keep| || keep[p + 1])
  }

  /** The number of maximal runs that end among the first `n` entries. */
  function RunEndsTo(keep: seq<bool>, n: nat): nat
    requires n <= |keep|
  {
    if n == 0 then 0 else RunEndsTo(keep, n - 1) + (if RunEnd(keep, n - 1) then 1 else 0)
  }

  /**
   * The markers among the rows of the first `n` entries: one for each run
   * that has ended, and one for the run still going on at entry `n`.
   */
  lemma {:induction false} SkipsCountRuns(es: seq<Edit>, keep: seq<bool>, n: nat)
    requires n <= |es| && |keep| == |es|
    ensures SkipCount(RowsTo(es, keep, n)) ==
      RunEndsTo(keep, n) + (if 0 < n < |keep| && !keep[n - 1] && !keep[n] then 1 else 0)
  {
    if n > 0 {
      SkipsCountRuns(es, keep, n - 1);
      SkipCountConcat(RowsTo(es, keep, n - 1), RowOf(es, keep, n - 1));
    }
  }

  /** The view holds exactly one `...` marker for each maximal run of entries left out. */
  lemma OneMarkerPerRun(es: seq<Edit>, keep: seq<bool>)
    requires |keep| == |es|
    ensures SkipCount(RowsTo(es, keep, |es|)) == RunEndsTo(keep, |keep|)
  {
    SkipsCountRuns(es, keep, |es|);
  }

  // ---------------------------------------------------------------------
  // renderDiff
  // ---------------------------------------------------------------------

  /** Above this many lines on the two sides together, no diff is computed. */
  const MaxDiffLines: nat := 20000

  /** What the view ends up showing. */
  datatype Outcome =
    | TooLarge
    | NoChange
    | Changed(adds: nat, dels: nat, rows: seq<Row>)

  /** `内容过大，无法生成 diff` */
  const TooLargeText: JsString :=
    [0x5185, 0x5BB9, 0x8FC7, 0x5927, 0xFF0C, 0x65E0, 0x6CD5, 0x751F, 0x6210, 0x20, 0x64, 0x69, 0x66, 0x66]

  /** `无变更` */
  const NoChangeText: JsString := [0x65E0, 0x53D8, 0x66F4]

  /** The summary line: the two messages, or `+adds  -dels`. */
  function Summary(o: Outcome): (t: JsString)
    ensures o.Changed? ==> |t| > 0 && t[0] == Plus
  {
    match o
    case TooLarge => TooLargeText
    case NoChange => NoChangeText
    case Changed(adds, dels, _) => [Plus] + NatText(adds) + [Space, Space, Minus] + NatText(dels)
  }

  /** A script from `a` to `b` with as few additions and deletions as possible. */
  ghost predicate ShortestDiff(es: seq<Edit>, a: seq<Line>, b: seq<Line>)
  {
    OldSide(es) == a && NewSide(es) == b && Changes(es) == Dist(a, b, |a|, |b|)
  }

  /**
   * `renderDiff({ baseText, nextText })` without the DOM: nothing when the two
   * sides have more than 20000 lines together; "no change" exactly when the
   * texts are equal; otherwise the counts and the rows of a shortest script.
   */
  method RenderDiff(baseText: Option<JsString>, nextText: Option<JsString>) returns (out: Outcome)
    ensures var a, b := SplitLines(OrEmpty(baseText)), SplitLines(OrEmpty(nextText));
      (out.TooLarge? <==> |a| + |b| > MaxDiffLines)
      && (out.NoChange? <==> |a| + |b| <= MaxDiffLines && OrEmpty(baseText) == OrEmpty(nextText))
      && (out.Changed? ==> out.adds + out.dels == Dist(a, b, |a|, |b|) && out.adds + out.dels > 0)
      && (out.Changed? ==>
            exists es :: (ShortestDiff(es, a, b)
                          && out == Changed(Count(es, Add), Count(es, Del), RowsTo(es, KeepOf(es), |es|))))
  {
    var baseLines := SplitLines(OrEmpty(baseText));
    var nextLines := SplitLines(OrEmpty(nextText));
    SplitInjective(OrEmpty(baseText), OrEmpty(nextText));
    if |baseLines| + |nextLines| > MaxDiffLines {
      return TooLarge;
    }
    var edits := MyersLineDiff(baseLines, nextLines);
    NoChangesIffEqual(baseLines, nextLines, edits);
    var adds, dels := CountChanges(edits);
    if adds == 0 && dels == 0 {
      return NoChange;
    }
    var keep := KeepWindow(edits);
    assert keep[..] == KeepOf(edits);
    var rows := EmitRows(edits, keep);
    out := Changed(adds, dels, rows);
    assert ShortestDiff(edits, baseLines, nextLines);
  }

  // ---------------------------------------------------------------------
  // A worked example
  // ---------------------------------------------------------------------

  /** Each side's length counts the context entries and the entries of its own change kind. */
  lemma {:induction false} SideSizes(es: seq<Edit>)
    ensures |OldSide(es)| == Count(es, Context) + Count(es, Del)
    ensures |NewSide(es)| == Count(es, Context) + Count(es, Add)
    decreases |es|
  {
    if es != [] {
      SideSizes(es[1..]);
    }
  }

  /** A line the old side has and the new side lacks was deleted. */
  lemma {:induction false} DeletedLine(es: seq<Edit>, l: Line)
    requires l in OldSide(es) && l !in NewSide(es)
    ensures Edit(Del, l) in es
    decreases |es|
  {
    if es[0] != Edit(Del, l) {
      assert l !in NewSide(es[1..]);
      DeletedLine(es[1..], l);
    }
  }

  /** A line the new side has and the old side lacks was added. */
  lemma {:induction false} AddedLine(es: seq<Edit>, l: Line)
    requires l in NewSide(es) && l !in OldSide(es)
    ensures Edit(Add, l) in es
    decreases |es|
  {
    if es[0] != Edit(Add, l) {
      assert l !in OldSide(es[1..]);
      AddedLine(es[1..], l);
    }
  }

  /** One deletion and one addition turn `["a", "b", "c"]` into `["a", "x", "c"]`. */
  lemma ExampleDistance()
    ensures Dist([[0x61], [0x62], [0x63]], [[0x61], [0x78], [0x63]], 3, 3) <= 2
  {
    var a: seq<Line> := [[0x61], [0x62], [0x63]];
    var b: seq<Line> := [[0x61], [0x78], [0x63]];
    var two := [Edit(Context, [0x61]), Edit(Del, [0x62]), Edit(Add, [0x78]), Edit(Context, [0x63])];
    assert a[..3] == a && b[..3] == b;
    assert OldSide(two) == a && NewSide(two) == b && Changes(two) == 2;
    hide Dist;
    Shortest(a, b, 3, 3, two);
  }

  /** Any shortest script between the two example sides makes one deletion and one addition. */
  lemma ExampleCounts(es: seq<Edit>)
    requires ShortestDiff(es, [[0x61], [0x62], [0x63]], [[0x61], [0x78], [0x63]])
    ensures Count(es, Del) == 1 && Count(es, Add) == 1
  {
    var a: seq<Line> := [[0x61], [0x62], [0x63]];
    var b: seq<Line> := [[0x61], [0x78], [0x63]];
    assert a != b by {
      assert a[1] != b[1];
    }
    hide Dist, OldSide, NewSide, Count;
    ExampleDistance();
    SideSizes(es);
    CountsAreChanges(es);
    if Changes(es) == 0 {
      NoChangesSameSides(es);
      assert false;
    }
  }

  /**
   * `["a", "b", "c"]` against `["a", "x", "c"]`: every shortest script, and so
   * the one `myersLineDiff` returns, holds exactly one deletion, of `"b"`,
   * and one addition, of `"x"`.
   */
  lemma DiffExample(es: seq<Edit>)
    requires ShortestDiff(es, [[0x61], [0x62], [0x63]], [[0x61], [0x78], [0x63]])
    ensures Count(es, Del) == 1 && Count(es, Add) == 1
    ensures Edit(Del, [0x62]) in es && Edit(Add, [0x78]) in es
  {
    var a: seq<Line> := [[0x61], [0x62], [0x63]];
    var b: seq<Line> := [[0x61], [0x78], [0x63]];
    assert a[1] == [0x62] && b[1] == [0x78];
    assert [0x62] !in b && [0x78] !in a;
    hide *;
    ExampleCounts(es);
    DeletedLine(es, [0x62]);
    AddedLine(es, [0x78]);
  }
}
