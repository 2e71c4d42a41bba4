/**
 * `myersLineDiff(a, b)` of chrome-extension/src/lib/diffOverlay.js: Myers'
 * O(ND) greedy algorithm over lines ("An O(ND) Difference Algorithm and Its
 * Variations", E. W. Myers, 1986). A forward pass records, round by round,
 * the furthest x reached on every diagonal k = x - y; a backward pass walks
 * that trace from (n, m) back to (0, 0), pushing one edit per step, and the
 * pushed edits are finally reversed.
 *
 * The model proves that the returned script turns `a` into `b` and that it
 * is a shortest one: its number of additions and deletions is the edit
 * distance `Dist`, and no script does with fewer.
 */
module MyersDiff {
  import opened JsText

  type Line = JsString

  datatype EditKind = Context | Add | Del

  /** One entry `{ type, line }` of the script. */
  datatype Edit = Edit(kind: EditKind, line: Line)

  // ---------------------------------------------------------------------
  // Edit scripts
  // ---------------------------------------------------------------------

  /** The lines a script reads from the old text: its context and deleted lines. */
  function OldSide(es: seq<Edit>): seq<Line>
  {
    if es == [] then [] else (if es[0].kind == Add then [] else [es[0].line]) + OldSide(es[1..])
  }

  /** The lines a script writes into the new text: its context and added lines. */
  function NewSide(es: seq<Edit>): seq<Line>
  {
    if es == [] then [] else (if es[0].kind == Del then [] else [es[0].line]) + NewSide(es[1..])
  }

  /** The number of additions and deletions in a script. */
  function Changes(es: seq<Edit>): nat
  {
    if es == [] then 0 else (if es[0].kind == Context then 0 else 1) + Changes(es[1..])
  }

  /** `edits.reverse()`. */
  function Reverse(es: seq<Edit>): (r: seq<Edit>)
    ensures |r| == |es|
    ensures forall i :: 0 <= i < |es| ==> r[i] == es[|es| - 1 - i]
  {
    if es == [] then [] else [es[|es| - 1]] + Reverse(es[..|es| - 1])
  }

  /** The old side of a concatenation is the concatenation of the old sides. */
  lemma {:induction false} OldSideConcat(p: seq<Edit>, q: seq<Edit>)
    ensures OldSide(p + q) == OldSide(p) + OldSide(q)
    decreases |p|
  {
    if p == [] {
      assert p + q == q;
    } else {
      assert (p + q)[0] == p[0] && (p + q)[1..] == p[1..] + q;
      OldSideConcat(p[1..], q);
    }
  }

  /** The new side of a concatenation is the concatenation of the new sides. */
  lemma {:induction false} NewSideConcat(p: seq<Edit>, q: seq<Edit>)
    ensures NewSide(p + q) == NewSide(p) + NewSide(q)
    decreases |p|
  {
    if p == [] {
      assert p + q == q;
    } else {
      assert (p + q)[0] == p[0] && (p + q)[1..] == p[1..] + q;
      NewSideConcat(p[1..], q);
    }
  }

  /** The changes of a concatenation add up. */
  lemma {:induction false} ChangesConcat(p: seq<Edit>, q: seq<Edit>)
    ensures Changes(p + q) == Changes(p) + Changes(q)
    decreases |p|
  {
    if p == [] {
      assert p + q == q;
    } else {
      assert (p + q)[0] == p[0] && (p + q)[1..] == p[1..] + q;
      ChangesConcat(p[1..], q);
    }
  }

  /** A script without additions and deletions reads and writes the same lines. */
  lemma {:induction false} NoChangesSameSides(es: seq<Edit>)
    requires Changes(es) == 0
    ensures OldSide(es) == NewSide(es)
    decreases |es|
  {
    if es != [] {
      NoChangesSameSides(es[1..]);
    }
  }

  /** Pushing one more edit puts it at the front of the reversed script. */
  lemma PushEdit(pushed: seq<Edit>, e: Edit)
    ensures Reverse(pushed + [e]) == [e] + Reverse(pushed)
    ensures OldSide([e] + Reverse(pushed)) == (if e.kind == Add then [] else [e.line]) + OldSide(Reverse(pushed))
    ensures NewSide([e] + Reverse(pushed)) == (if e.kind == Del then [] else [e.line]) + NewSide(Reverse(pushed))
    ensures Changes([e] + Reverse(pushed)) == (if e.kind == Context then 0 else 1) + Changes(Reverse(pushed))
  {
    assert (pushed + [e])[..|pushed|] == pushed;
    assert ([e] + Reverse(pushed))[1..] == Reverse(pushed);
  }

  // ---------------------------------------------------------------------
  // Edit distance
  // ---------------------------------------------------------------------

  function Min(p: int, q: int): int
  {
    if p <= q then p else q
  }

  /**
   * The fewest additions and deletions that turn `a[..x]` into `b[..y]`,
   * context lines being free.
   */
  function Dist(a: seq<Line>, b: seq<Line>, x: nat, y: nat): nat
    requires x <= |a| && y <= |b|
    decreases x + y
  {
    if x == 0 then y
    else if y == 0 then x
    else
      var sides := Min(Dist(a, b, x - 1, y) + 1, Dist(a, b, x, y - 1) + 1);
      if Agree(a, b, x - 1, y - 1) then Min(Dist(a, b, x - 1, y - 1), sides) else sides
  }

  /** Line `i` of `a` and line `j` of `b` are equal (`a[i] === b[j]`). */
  predicate Agree(a: seq<Line>, b: seq<Line>, i: nat, j: nat)
    requires i < |a| && j < |b|
  {
    a[i] == b[j]
  }

  /** On the edges of the grid the distance is the other coordinate. */
  lemma DistEdges(a: seq<Line>, b: seq<Line>, x: nat, y: nat)
    requires x <= |a| && y <= |b|
    ensures Dist(a, b, 0, y) == y && Dist(a, b, x, 0) == x
  {
  }

  /**
   * Inside the grid the distance comes from one of its three neighbours: a
   * deletion, an addition, or a context line where the two lines agree.
   */
  lemma DistStep(a: seq<Line>, b: seq<Line>, x: nat, y: nat)
    requires 0 < x <= |a| && 0 < y <= |b|
    ensures Dist(a, b, x, y) <= Dist(a, b, x - 1, y) + 1 && Dist(a, b, x, y) <= Dist(a, b, x, y - 1) + 1
    ensures Agree(a, b, x - 1, y - 1) ==> Dist(a, b, x, y) <= Dist(a, b, x - 1, y - 1)
    ensures Dist(a, b, x, y) == Dist(a, b, x - 1, y) + 1 || Dist(a, b, x, y) == Dist(a, b, x, y - 1) + 1
      || (Agree(a, b, x - 1, y - 1) && Dist(a, b, x, y) == Dist(a, b, x - 1, y - 1))
  {
  }

  /** The distance is at least the difference of the lengths, at most their sum, and has the parity of their sum. */
  lemma {:induction false} DistBounds(a: seq<Line>, b: seq<Line>, x: nat, y: nat)
    requires x <= |a| && y <= |b|
    ensures x - y <= Dist(a, b, x, y) && y - x <= Dist(a, b, x, y)
    ensures Dist(a, b, x, y) <= x + y
    decreases x + y
  {
    hide Dist, Agree;
    DistEdges(a, b, x, y);
    if x > 0 && y > 0 {
      DistStep(a, b, x, y);
      DistBounds(a, b, x - 1, y);
      DistBounds(a, b, x, y - 1);
      DistBounds(a, b, x - 1, y - 1);
    }
  }

  predicate Even(i: int)
  {
    i % 2 == 0
  }

  lemma EvenZero(i: int)
    requires i == 0
    ensures Even(i)
  {
  }

  lemma EvenShift(i: int, j: int)
    requires Even(i) && (j == i || j == i + 2)
    ensures Even(j)
  {
  }

  /** The distance has the parity of `x + y`: every addition and deletion changes `x + y` by one, every context line by two. */
  lemma {:induction false} DistParity(a: seq<Line>, b: seq<Line>, x: nat, y: nat)
    requires x <= |a| && y <= |b|
    ensures Even(x + y - Dist(a, b, x, y))
    decreases x + y
  {
    hide *;
    DistEdges(a, b, x, y);
    if x == 0 || y == 0 {
      EvenZero(x + y - Dist(a, b, x, y));
    } else {
      DistStep(a, b, x, y);
      var d := Dist(a, b, x, y);
      var left, up, diag := Dist(a, b, x - 1, y), Dist(a, b, x, y - 1), Dist(a, b, x - 1, y - 1);
      if d == left + 1 {
        DistParity(a, b, x - 1, y);
        EvenShift(x - 1 + y - left, x + y - d);
      } else if d == up + 1 {
        DistParity(a, b, x, y - 1);
        EvenShift(x + y - 1 - up, x + y - d);
      } else {
        DistParity(a, b, x - 1, y - 1);
        EvenShift(x - 1 + y - 1 - diag, x + y - d);
      }
    }
  }

  /** The sides and the changes of a one-edit script. */
  lemma SingleEdit(e: Edit)
    ensures OldSide([e]) == (if e.kind == Add then [] else [e.line])
    ensures NewSide([e]) == (if e.kind == Del then [] else [e.line])
    ensures Changes([e]) == (if e.kind == Context then 0 else 1)
  {
  }

  /** Appending one line is injective. */
  lemma SnocInjective(s: seq<Line>, l: Line, t: seq<Line>, m: Line)
    requires s + [l] == t + [m]
    ensures s == t && l == m
  {
    assert s == (s + [l])[..|s|];
    assert t == (t + [m])[..|t|];
  }

  /** `a[..x]` is `a[..x - 1]` followed by line `x - 1`. */
  lemma PrefixSnoc(a: seq<Line>, x: nat)
    requires 0 < x <= |a|
    ensures a[..x] == a[..x - 1] + [a[x - 1]]
  {
  }

  /** No script from `a[..x]` to `b[..y]` makes fewer changes than the distance. */
  lemma {:induction false} Shortest(a: seq<Line>, b: seq<Line>, x: nat, y: nat, es: seq<Edit>)
    requires x <= |a| && y <= |b|
    requires OldSide(es) == a[..x] && NewSide(es) == b[..y]
    ensures Changes(es) >= Dist(a, b, x, y)
    decreases |es|
  {
    if es == [] {
      assert |a[..x]| == 0 && |b[..y]| == 0;
      DistEdges(a, b, x, y);
    } else {
      var init, e := es[..|es| - 1], es[|es| - 1];
      assert es == init + [e];
      OldSideConcat(init, [e]);
      NewSideConcat(init, [e]);
      ChangesConcat(init, [e]);
      SingleEdit(e);
      hide OldSide, NewSide, Changes;
      if e.kind == Context {
        assert x > 0 && y > 0;
        PrefixSnoc(a, x);
        PrefixSnoc(b, y);
        SnocInjective(OldSide(init), e.line, a[..x - 1], a[x - 1]);
        SnocInjective(NewSide(init), e.line, b[..y - 1], b[y - 1]);
        Shortest(a, b, x - 1, y - 1, init);
        DistStep(a, b, x, y);
      } else if e.kind == Del {
        assert x > 0 && NewSide(init) == b[..y];
        PrefixSnoc(a, x);
        SnocInjective(OldSide(init), e.line, a[..x - 1], a[x - 1]);
        Shortest(a, b, x - 1, y, init);
        if y == 0 {
          DistEdges(a, b, x, y);
          DistEdges(a, b, x - 1, y);
        } else {
          DistStep(a, b, x, y);
        }
      } else {
        assert y > 0 && OldSide(init) == a[..x];
        PrefixSnoc(b, y);
        SnocInjective(NewSide(init), e.line, b[..y - 1], b[y - 1]);
        Shortest(a, b, x, y - 1, init);
        if x == 0 {
          DistEdges(a, b, x, y);
          DistEdges(a, b, x, y - 1);
        } else {
          DistStep(a, b, x, y);
        }
      }
    }
  }

  // ---------------------------------------------------------------------
  // The furthest-reaching paths
  // ---------------------------------------------------------------------

  /** Clamps a coordinate to the grid. */
  function Clamp(x: int, n: nat): (c: nat)
    ensures c <= n
  {
    if x < 0 then 0 else if x > n then n else x
  }

  /** The distance of the grid point nearest to (x, y). */
  function Reach(a: seq<Line>, b: seq<Line>, x: int, y: int): nat
  {
    Dist(a, b, Clamp(x, |a|), Clamp(y, |b|))
  }

  /** Diagonal `k` is one that round `d` visits: `-d <= k <= d` in steps of two. */
  predicate OnDiagonal(d: nat, k: int)
  {
    -(d as int) <= k <= d && (d - k) % 2 == 0
  }

  /** Line `i` of `a` and the line opposite it on diagonal `k`, line `i - k` of `b`, exist and are equal. */
  predicate OnMatch(a: seq<Line>, b: seq<Line>, i: int, k: int)
  {
    0 <= i < |a| && 0 <= i - k < |b| && a[i] == b[i - k]
  }

  /**
   * Following the snake on diagonal `k` from x (and y = x - k): the x where
   * `a[x] === b[y]` first fails or a text ends.
   */
  function Slide(a: seq<Line>, b: seq<Line>, x: nat, k: int): (r: nat)
    requires x - k >= 0
    ensures r >= x
    decreases |a| - x
  {
    if OnMatch(a, b, x, k) then Slide(a, b, x + 1, k) else x
  }

  /** Every line the slide passes over agrees with the line opposite, and the slide stops where they differ or a text ends. */
  lemma {:induction false} SlideMatches(a: seq<Line>, b: seq<Line>, x: nat, k: int)
    requires x - k >= 0
    ensures forall i :: x <= i < Slide(a, b, x, k) ==> OnMatch(a, b, i, k)
    ensures !OnMatch(a, b, Slide(a, b, x, k), k)
    decreases |a| - x
  {
    if OnMatch(a, b, x, k) {
      SlideMatches(a, b, x + 1, k);
    }
  }

  /**
   * Whether round `d` enters diagonal `k` by a step down from diagonal
   * `k + 1` (rather than a step right from `k - 1`): always on the lowest
   * diagonal, never on the highest, and otherwise when diagonal `k + 1` got
   * further in the previous round.
   */
  predicate GoesDown(a: seq<Line>, b: seq<Line>, d: nat, k: int)
    requires 0 < d && OnDiagonal(d, k)
    decreases d, 0
  {
    k == -(d as int) || (k != d && V(a, b, d - 1, k - 1) < V(a, b, d - 1, k + 1))
  }

  /**
   * Where round `d` starts on diagonal `k`: one step down from diagonal
   * `k + 1` or one step right from diagonal `k - 1` of round `d - 1`,
   * whichever reaches further, as the forward loop chooses.
   */
  function Start(a: seq<Line>, b: seq<Line>, d: nat, k: int): (x: nat)
    requires OnDiagonal(d, k)
    ensures x - k >= 0
    decreases d, 1
  {
    if d == 0 then 0
    else if GoesDown(a, b, d, k) then V(a, b, d - 1, k + 1)
    else V(a, b, d - 1, k - 1) + 1
  }

  /** The furthest x round `d` reaches on diagonal `k`: `vNext.get(k)`. */
  function V(a: seq<Line>, b: seq<Line>, d: nat, k: int): (x: nat)
    requires OnDiagonal(d, k)
    ensures x - k >= 0
    decreases d, 2
  {
    var s := Start(a, b, d, k);
    Slide(a, b, s, k)
  }

  /** A right step raises the distance by at most one, and so does a down step. */
  lemma StepBounds(a: seq<Line>, b: seq<Line>, x: nat, y: nat)
    requires x <= |a| && y <= |b|
    ensures x < |a| ==> Dist(a, b, x + 1, y) <= Dist(a, b, x, y) + 1
    ensures y < |b| ==> Dist(a, b, x, y + 1) <= Dist(a, b, x, y) + 1
    ensures x < |a| && y < |b| && a[x] == b[y] ==> Dist(a, b, x + 1, y + 1) <= Dist(a, b, x, y)
  {
  }

  /** One step of a slide. */
  lemma SlideStep(a: seq<Line>, b: seq<Line>, x: nat, k: int)
    requires x - k >= 0
    ensures OnMatch(a, b, x, k) ==> Slide(a, b, x, k) == Slide(a, b, x + 1, k)
    ensures !OnMatch(a, b, x, k) ==> Slide(a, b, x, k) == x
  {
  }

  /** A diagonal step over two equal lines does not raise the distance. */
  lemma DiagonalReach(a: seq<Line>, b: seq<Line>, x: nat, y: nat)
    requires x < |a| && y < |b| && a[x] == b[y]
    ensures Reach(a, b, x + 1, y + 1) <= Reach(a, b, x, y)
  {
    StepBounds(a, b, x, y);
  }

  /** Sliding down a snake never raises the distance. */
  lemma {:induction false} SlideReach(a: seq<Line>, b: seq<Line>, x: nat, k: int, d: nat)
    requires x - k >= 0 && Reach(a, b, x, x - k) <= d
    ensures Reach(a, b, Slide(a, b, x, k), Slide(a, b, x, k) - k) <= d
    decreases |a| - x
  {
    SlideStep(a, b, x, k);
    hide Reach, Slide, Dist;
    if OnMatch(a, b, x, k) {
      DiagonalReach(a, b, x, x - k);
      SlideReach(a, b, x + 1, k, d);
    }
  }

  /** The step into diagonal `k` of round `d`, from a diagonal of round `d - 1`. */
  lemma StartCases(a: seq<Line>, b: seq<Line>, d: nat, k: int)
    requires 0 < d && OnDiagonal(d, k)
    ensures GoesDown(a, b, d, k) ==> OnDiagonal(d - 1, k + 1) && Start(a, b, d, k) == V(a, b, d - 1, k + 1)
    ensures !GoesDown(a, b, d, k) ==> OnDiagonal(d - 1, k - 1) && Start(a, b, d, k) == V(a, b, d - 1, k - 1) + 1
    ensures GoesDown(a, b, d, k) && k != -(d as int) ==> OnDiagonal(d - 1, k - 1) && V(a, b, d - 1, k - 1) < V(a, b, d - 1, k + 1)
    ensures !GoesDown(a, b, d, k) && k != d ==> OnDiagonal(d - 1, k + 1) && V(a, b, d - 1, k - 1) >= V(a, b, d - 1, k + 1)
  {
  }

  /** Round `d` slides from where it starts on diagonal `k`. */
  lemma VSlides(a: seq<Line>, b: seq<Line>, d: nat, k: int)
    requires OnDiagonal(d, k)
    ensures Start(a, b, d, k) - k >= 0
    ensures V(a, b, d, k) == Slide(a, b, Start(a, b, d, k), k)
    ensures V(a, b, d, k) >= Start(a, b, d, k)
    ensures d == 0 ==> Start(a, b, d, k) == 0
  {
  }

  lemma ReachOrigin(a: seq<Line>, b: seq<Line>)
    ensures Reach(a, b, 0, 0) == 0
  {
  }

  /** A step down raises the clamped distance by at most one. */
  lemma DownReach(a: seq<Line>, b: seq<Line>, x: nat, y: nat, d: nat)
    requires Reach(a, b, x, y) <= d
    ensures Reach(a, b, x, y + 1) <= d + 1
  {
    StepBounds(a, b, Clamp(x, |a|), Clamp(y, |b|));
  }

  /** A step right raises the clamped distance by at most one. */
  lemma RightReach(a: seq<Line>, b: seq<Line>, x: nat, y: nat, d: nat)
    requires Reach(a, b, x, y) <= d
    ensures Reach(a, b, x + 1, y) <= d + 1
  {
    StepBounds(a, b, Clamp(x, |a|), Clamp(y, |b|));
  }

  /** Where round `d` starts on a diagonal is at distance at most `d` (clamped to the grid). */
  lemma {:induction false} StartReach(a: seq<Line>, b: seq<Line>, d: nat, k: int)
    requires OnDiagonal(d, k)
    ensures Start(a, b, d, k) - k >= 0
    ensures Reach(a, b, Start(a, b, d, k), Start(a, b, d, k) - k) <= d
    decreases d, 0
  {
    hide Reach, V, Start, Slide, GoesDown, Dist;
    if d == 0 {
      VSlides(a, b, d, k);
      ReachOrigin(a, b);
    } else if GoesDown(a, b, d, k) {
      StartCases(a, b, d, k);
      Reachable(a, b, d - 1, k + 1);
      DownStart(a, b, d, k);
    } else {
      StartCases(a, b, d, k);
      Reachable(a, b, d - 1, k - 1);
      RightStart(a, b, d, k);
    }
  }

  lemma DownStart(a: seq<Line>, b: seq<Line>, d: nat, k: int)
    requires 0 < d && OnDiagonal(d, k) && GoesDown(a, b, d, k) && OnDiagonal(d - 1, k + 1)
    requires Start(a, b, d, k) == V(a, b, d - 1, k + 1)
    requires Reach(a, b, V(a, b, d - 1, k + 1), V(a, b, d - 1, k + 1) - (k + 1)) <= d - 1
    ensures Reach(a, b, Start(a, b, d, k), Start(a, b, d, k) - k) <= d
  {
    hide Reach, V, Start, Slide, GoesDown;
    var px := V(a, b, d - 1, k + 1);
    DownReach(a, b, px, px - (k + 1), d - 1);
  }

  lemma RightStart(a: seq<Line>, b: seq<Line>, d: nat, k: int)
    requires 0 < d && OnDiagonal(d, k) && !GoesDown(a, b, d, k) && OnDiagonal(d - 1, k - 1)
    requires Start(a, b, d, k) == V(a, b, d - 1, k - 1) + 1
    requires Reach(a, b, V(a, b, d - 1, k - 1), V(a, b, d - 1, k - 1) - (k - 1)) <= d - 1
    ensures Reach(a, b, Start(a, b, d, k), Start(a, b, d, k) - k) <= d
  {
    hide Reach, V, Start, Slide, GoesDown;
    var px := V(a, b, d - 1, k - 1);
    RightReach(a, b, px, px - (k - 1), d - 1);
  }

  /** Every point round `d` reaches is at distance at most `d` (clamped to the grid). */
  lemma {:induction false} Reachable(a: seq<Line>, b: seq<Line>, d: nat, k: int)
    requires OnDiagonal(d, k)
    ensures Reach(a, b, V(a, b, d, k), V(a, b, d, k) - k) <= d
    decreases d, 1
  {
    VSlides(a, b, d, k);
    StartReach(a, b, d, k);
    var s := Start(a, b, d, k);
    hide Reach, V, Start, Slide, GoesDown;
    SlideReach(a, b, s, k, d);
  }

  /** A slide stops where the lines differ or a text ends. */
  lemma VStops(a: seq<Line>, b: seq<Line>, d: nat, k: int)
    requires OnDiagonal(d, k)
    ensures !OnMatch(a, b, V(a, b, d, k), k)
  {
    VSlides(a, b, d, k);
    SlideMatches(a, b, Start(a, b, d, k), k);
  }

  /** Getting to `x - 1` on diagonal `k - 1` in round `d - 1` gets round `d` to `x` on diagonal `k`. */
  lemma RightFurther(a: seq<Line>, b: seq<Line>, d: nat, k: int, x: int)
    requires 0 < d && OnDiagonal(d, k) && OnDiagonal(d - 1, k - 1)
    requires x - 1 <= V(a, b, d - 1, k - 1)
    ensures x <= V(a, b, d, k)
  {
    StartCases(a, b, d, k);
    VSlides(a, b, d, k);
  }

  /** Getting to `x` on diagonal `k + 1` in round `d - 1` gets round `d` to `x` on diagonal `k`. */
  lemma DownFurther(a: seq<Line>, b: seq<Line>, d: nat, k: int, x: int)
    requires 0 < d && OnDiagonal(d, k) && OnDiagonal(d - 1, k + 1)
    requires x <= V(a, b, d - 1, k + 1)
    ensures x <= V(a, b, d, k)
  {
    StartCases(a, b, d, k);
    VSlides(a, b, d, k);
  }

  /** The neighbouring diagonals of round `d`'s, where they lie within round `d - 1`'s range, are round `d - 1`'s. */
  lemma DiagonalShift(d: nat, k: int, j: int)
    requires OnDiagonal(d, k) && 0 < d && (j == k - 1 || j == k + 1) && -(d as int) < j < d
    ensures OnDiagonal(d - 1, j)
  {
  }

  /** A point other than the origin is reached from a neighbour: diagonally over equal lines, from the left, or from above. */
  lemma DistPredecessor(a: seq<Line>, b: seq<Line>, x: nat, y: nat, d: nat)
    requires x <= |a| && y <= |b| && (x > 0 || y > 0) && Dist(a, b, x, y) <= d
    ensures (x > 0 && y > 0 && OnMatch(a, b, x - 1, x - y) && Dist(a, b, x - 1, y - 1) <= d)
      || (x > 0 && Dist(a, b, x - 1, y) + 1 <= d)
      || (y > 0 && Dist(a, b, x, y - 1) + 1 <= d)
  {
    DistEdges(a, b, x, y);
    if x > 0 && y > 0 {
      DistStep(a, b, x, y);
    } else if x > 0 {
      DistEdges(a, b, x - 1, y);
    } else {
      DistEdges(a, b, x, y - 1);
    }
  }

  /** Round `d` gets on every diagonal at least as far as any point at distance `d` on it. */
  lemma {:induction false} Furthest(a: seq<Line>, b: seq<Line>, d: nat, x: nat, y: nat)
    requires x <= |a| && y <= |b| && Dist(a, b, x, y) <= d
    requires OnDiagonal(d, x - y)
    ensures x <= V(a, b, d, x - y)
    decreases d, x + y, 1
  {
    hide *;
    if x > 0 || y > 0 {
      DistPredecessor(a, b, x, y, d);
      if x > 0 && y > 0 && OnMatch(a, b, x - 1, x - y) && Dist(a, b, x - 1, y - 1) <= d {
        FurthestDiagonal(a, b, d, x, y);
      } else if x > 0 && Dist(a, b, x - 1, y) + 1 <= d {
        FurthestRight(a, b, d, x, y);
      } else {
        FurthestDown(a, b, d, x, y);
      }
    }
  }

  lemma {:induction false} FurthestDiagonal(a: seq<Line>, b: seq<Line>, d: nat, x: nat, y: nat)
    requires 0 < x <= |a| && 0 < y <= |b| && OnDiagonal(d, x - y)
    requires OnMatch(a, b, x - 1, x - y) && Dist(a, b, x - 1, y - 1) <= d
    ensures x <= V(a, b, d, x - y)
    decreases d, x + y, 0
  {
    hide *;
    Furthest(a, b, d, x - 1, y - 1);
    VStops(a, b, d, x - y);
  }

  lemma {:induction false} FurthestRight(a: seq<Line>, b: seq<Line>, d: nat, x: nat, y: nat)
    requires 0 < x <= |a| && y <= |b| && OnDiagonal(d, x - y)
    requires Dist(a, b, x - 1, y) + 1 <= d
    ensures x <= V(a, b, d, x - y)
    decreases d, x + y, 0
  {
    hide *;
    DistBounds(a, b, x - 1, y);
    DiagonalShift(d, x - y, x - 1 - y);
    Furthest(a, b, d - 1, x - 1, y);
    RightFurther(a, b, d, x - y, x);
  }

  lemma {:induction false} FurthestDown(a: seq<Line>, b: seq<Line>, d: nat, x: nat, y: nat)
    requires x <= |a| && 0 < y <= |b| && OnDiagonal(d, x - y)
    requires Dist(a, b, x, y - 1) + 1 <= d
    ensures x <= V(a, b, d, x - y)
    decreases d, x + y, 0
  {
    hide *;
    DistBounds(a, b, x, y - 1);
    DiagonalShift(d, x - y, x - (y - 1));
    Furthest(a, b, d - 1, x, y - 1);
    DownFurther(a, b, d, x - y, x);
  }

  /** A point of round `d`'s snake on its diagonal: between where the round starts and how far it slides. */
  ghost predicate OnSnake(a: seq<Line>, b: seq<Line>, d: nat, x: int, y: int)
  {
    OnDiagonal(d, x - y) && Start(a, b, d, x - y) <= x <= V(a, b, d, x - y)
  }

  /** The end point (n, m) lies on the diagonal `n - m` of round `Dist(n, m)`. */
  lemma DistOnDiagonal(a: seq<Line>, b: seq<Line>, x: nat, y: nat)
    requires x <= |a| && y <= |b|
    ensures OnDiagonal(Dist(a, b, x, y), x - y)
  {
    DistBounds(a, b, x, y);
    DistParity(a, b, x, y);
  }

  /** Every point on or beyond the corner is clamped to the corner. */
  lemma ClampedCorner(a: seq<Line>, b: seq<Line>, x: int, y: int)
    requires x >= |a| && y >= |b|
    ensures Reach(a, b, x, y) == Dist(a, b, |a|, |b|)
  {
  }

  /**
   * The forward loop finds (n, m) in round `Dist(n, m)` and not before, and
   * (n, m) lies on that round's snake.
   */
  lemma FoundRound(a: seq<Line>, b: seq<Line>)
    ensures var n, m, D := |a|, |b|, Dist(a, b, |a|, |b|);
      OnDiagonal(D, n - m)
      && OnSnake(a, b, D, n, m)
  {
    hide Dist, V, Start, Slide, GoesDown, Reach, Agree, Even;
    var n, m, D := |a|, |b|, Dist(a, b, |a|, |b|);
    var k := n - m;
    DistOnDiagonal(a, b, n, m);
    Furthest(a, b, D, n, m);
    VSlides(a, b, D, k);
    if D > 0 {
      StartCases(a, b, D, k);
      if GoesDown(a, b, D, k) {
        var px := V(a, b, D - 1, k + 1);
        Reachable(a, b, D - 1, k + 1);
        if px > n {
          ClampedCorner(a, b, px, px - (k + 1));
        }
      } else {
        var px := V(a, b, D - 1, k - 1);
        Reachable(a, b, D - 1, k - 1);
        if px >= n {
          ClampedCorner(a, b, px, px - (k - 1));
        }
      }
    }
  }

  /** A round that ends on or beyond (n, m) is the round `Dist(n, m)` or a later one. */
  lemma NotBefore(a: seq<Line>, b: seq<Line>, d: nat, k: int)
    requires OnDiagonal(d, k)
    requires V(a, b, d, k) >= |a| && V(a, b, d, k) - k >= |b|
    ensures d >= Dist(a, b, |a|, |b|)
  {
    Reachable(a, b, d, k);
  }

  // ---------------------------------------------------------------------
  // The algorithm
  // ---------------------------------------------------------------------

  /** `m.get(key) ?? fallback`. */
  function GetOr(m: map<int, int>, key: int, fallback: int): int
  {
    if key in m then m[key] else fallback
  }

  /** A complete row of the trace: round `e`'s furthest x on each of its diagonals. */
  ghost predicate RowOk(a: seq<Line>, b: seq<Line>, row: map<int, int>, e: nat)
  {
    forall k :: OnDiagonal(e, k) ==> k in row && row[k] == V(a, b, e, k)
  }

  /**
   * Where round `d` starts on diagonal `k`, read off the previous round's
   * map the way the loops do: `vKPlus ?? 0` after a step down, and
   * `(vKMinus ?? 0) + 1` after a step right, with `?? -1` in the comparison.
   */
  lemma StartFromRow(a: seq<Line>, b: seq<Line>, d: nat, k: int, v: map<int, int>)
    requires OnDiagonal(d, k)
    requires d == 0 ==> v == map[1 := 0]
    requires d > 0 ==> RowOk(a, b, v, d - 1)
    ensures Start(a, b, d, k) ==
      if k == -(d as int) || (k != d && GetOr(v, k - 1, -1) < GetOr(v, k + 1, -1))
      then GetOr(v, k + 1, 0) else GetOr(v, k - 1, 0) + 1
  {
    if d > 0 {
      StartCases(a, b, d, k);
    }
  }

  /** Two diagonals of one round are two apart at least. */
  lemma DiagonalGap(d: nat, k: int, j: int)
    requires OnDiagonal(d, k) && OnDiagonal(d, j) && k < j
    ensures k + 2 <= j
  {
  }

  /** The diagonal after `k` in round `d`, or the end of the round. */
  lemma NextDiagonal(d: nat, k: int)
    requires OnDiagonal(d, k)
    ensures OnDiagonal(d, k + 2) || k == d
  {
  }

  /** The first diagonal of round `d`. */
  lemma FirstDiagonal(d: nat)
    ensures OnDiagonal(d, -(d as int))
  {
  }

  /** A row filled in for the diagonals of round `e` below `k`. */
  ghost predicate RowBelow(a: seq<Line>, b: seq<Line>, row: map<int, int>, e: nat, k: int)
  {
    forall j :: j < k && OnDiagonal(e, j) ==> j in row && row[j] == V(a, b, e, j)
  }

  /** Setting diagonal `k` fills the row up to the next diagonal. */
  lemma RowBelowSet(a: seq<Line>, b: seq<Line>, row: map<int, int>, e: nat, k: int)
    requires OnDiagonal(e, k) && RowBelow(a, b, row, e, k)
    ensures RowBelow(a, b, row[k := V(a, b, e, k)], e, k + 2)
  {
    forall j | j < k + 2 && OnDiagonal(e, j)
      ensures j in row[k := V(a, b, e, k)] && row[k := V(a, b, e, k)][j] == V(a, b, e, j)
    {
      if j > k {
        DiagonalGap(e, k, j);
      }
    }
  }

  /** A row filled in below the diagonal past the last one is complete. */
  lemma RowBelowDone(a: seq<Line>, b: seq<Line>, row: map<int, int>, e: nat)
    requires RowBelow(a, b, row, e, e + 2)
    ensures RowOk(a, b, row, e)
  {
  }

  /**
   * Round `d` gets on or beyond (n, m) only if it is round `Dist(n, m)`, and
   * that round does so at the latest on diagonal `n - m`.
   */
  lemma RoundEnds(a: seq<Line>, b: seq<Line>, d: nat, k: int)
    requires OnDiagonal(d, k) && d <= Dist(a, b, |a|, |b|)
    ensures V(a, b, d, k) >= |a| && V(a, b, d, k) - k >= |b| ==> d == Dist(a, b, |a|, |b|)
    ensures d == Dist(a, b, |a|, |b|) && k == |a| - |b| ==> V(a, b, d, k) >= |a| && V(a, b, d, k) - k >= |b|
  {
    if V(a, b, d, k) >= |a| && V(a, b, d, k) - k >= |b| {
      NotBefore(a, b, d, k);
    }
    FoundRound(a, b);
  }

  /** The inner `while` of the forward loop: follows the snake on diagonal `k` from `x`. */
  method FollowSnake(a: seq<Line>, b: seq<Line>, x0: nat, k: int) returns (x: nat)
    requires x0 - k >= 0
    ensures x == Slide(a, b, x0, k)
  {
    x := x0;
    var y := x - k;
    while x < |a| && y < |b| && a[x] == b[y]
      invariant x0 <= x && y == x - k && 0 <= y
      invariant Slide(a, b, x, k) == Slide(a, b, x0, k)
      decreases |a| - x
    {
      SlideStep(a, b, x, k);
      x := x + 1;
      y := y + 1;
    }
    SlideStep(a, b, x, k);
  }

  /**
   * One round `d` of the forward loop, given the previous round's map `v`:
   * the new map, and whether (n, m) was reached (the loop stops there, so the
   * map of that round may be partial).
   */
  method Round(a: seq<Line>, b: seq<Line>, d: nat, v: map<int, int>) returns (vNext: map<int, int>, found: bool)
    requires d == 0 ==> v == map[1 := 0]
    requires d > 0 ==> RowOk(a, b, v, d - 1)
    requires d <= Dist(a, b, |a|, |b|)
    ensures found <==> d == Dist(a, b, |a|, |b|)
    ensures !found ==> RowOk(a, b, vNext, d)
  {
    ghost var D := Dist(a, b, |a|, |b|);
    DistOnDiagonal(a, b, |a|, |b|);
    FirstDiagonal(d);
    assert RowBelow(a, b, map[], d, -(d as int));
    assert |a| - |b| <= D;
    hide *;
    vNext := map[];
    found := false;
    var k := -(d as int);
    while k <= d
      invariant OnDiagonal(d, k) || k == d + 2
      invariant RowBelow(a, b, vNext, d, k)
      invariant d == D ==> k <= |a| - |b|
      decreases d + 2 - k
    {
      var vKMinus := GetOr(v, k - 1, -1);
      var vKPlus := GetOr(v, k + 1, -1);
      var x := 0;
      if k == -(d as int) || (k != d && vKMinus < vKPlus) {
        x := GetOr(v, k + 1, 0);
      } else {
        x := GetOr(v, k - 1, 0) + 1;
      }
      StartFromRow(a, b, d, k, v);
      VSlides(a, b, d, k);
      x := FollowSnake(a, b, x, k);
      var y := x - k;
      RowBelowSet(a, b, vNext, d, k);
      vNext := vNext[k := x];
      RoundEnds(a, b, d, k);
      if x >= |a| && y >= |b| {
        found := true;
        return;
      }
      if d == D && k < |a| - |b| {
        DiagonalGap(d, k, |a| - |b|);
      }
      NextDiagonal(d, k);
      k := k + 2;
    }
    RowBelowDone(a, b, vNext, d);
  }

  /** The forward loop: the rows of every round up to the one that reaches (n, m). */
  method Forward(a: seq<Line>, b: seq<Line>) returns (trace: seq<map<int, int>>)
    ensures |trace| == Dist(a, b, |a|, |b|) + 1
    ensures forall e :: 0 <= e < |trace| - 1 ==> RowOk(a, b, trace[e], e)
  {
    var n := |a|;
    var m := |b|;
    var max := n + m;
    ghost var D := Dist(a, b, n, m);
    DistBounds(a, b, n, m);
    var v: map<int, int> := map[1 := 0];
    trace := [];
    var d := 0;
    while d <= max
      invariant 0 <= d <= D && |trace| == d
      invariant forall e :: 0 <= e < d ==> RowOk(a, b, trace[e], e)
      invariant d == 0 ==> v == map[1 := 0]
      invariant d > 0 ==> v == trace[d - 1]
      decreases max - d
    {
      var vNext, found := Round(a, b, d, v);
      trace := trace + [vNext];
      v := vNext;
      if found {
        break;
      }
      d := d + 1;
    }
  }

  /** A script, pushed back to front, whose old side is `a[x..]` and whose new side is `b[y..]`. */
  ghost predicate Covers(a: seq<Line>, b: seq<Line>, pushed: seq<Edit>, x: nat, y: nat)
  {
    x <= |a| && y <= |b| && OldSide(Reverse(pushed)) == a[x..] && NewSide(Reverse(pushed)) == b[y..]
  }

  /** Pushing a context line that the two texts share before `x` and `y`. */
  lemma PushContext(a: seq<Line>, b: seq<Line>, pushed: seq<Edit>, x: nat, y: nat)
    requires 0 < x && 0 < y && Covers(a, b, pushed, x, y) && a[x - 1] == b[y - 1]
    ensures Covers(a, b, pushed + [Edit(Context, a[x - 1])], x - 1, y - 1)
    ensures Changes(Reverse(pushed + [Edit(Context, a[x - 1])])) == Changes(Reverse(pushed))
  {
    hide Reverse, OldSide, NewSide, Changes;
    PushEdit(pushed, Edit(Context, a[x - 1]));
    assert a[x - 1..] == [a[x - 1]] + a[x..];
    assert b[y - 1..] == [b[y - 1]] + b[y..];
  }

  /** Pushing the addition of the new line before `y`. */
  lemma PushAdd(a: seq<Line>, b: seq<Line>, pushed: seq<Edit>, x: nat, y: nat)
    requires 0 < y && Covers(a, b, pushed, x, y)
    ensures Covers(a, b, pushed + [Edit(Add, b[y - 1])], x, y - 1)
    ensures Changes(Reverse(pushed + [Edit(Add, b[y - 1])])) == Changes(Reverse(pushed)) + 1
  {
    hide Reverse, OldSide, NewSide, Changes;
    PushEdit(pushed, Edit(Add, b[y - 1]));
    assert b[y - 1..] == [b[y - 1]] + b[y..];
  }

  /** Pushing the deletion of the old line before `x`. */
  lemma PushDel(a: seq<Line>, b: seq<Line>, pushed: seq<Edit>, x: nat, y: nat)
    requires 0 < x && Covers(a, b, pushed, x, y)
    ensures Covers(a, b, pushed + [Edit(Del, a[x - 1])], x - 1, y)
    ensures Changes(Reverse(pushed + [Edit(Del, a[x - 1])])) == Changes(Reverse(pushed)) + 1
  {
    hide Reverse, OldSide, NewSide, Changes;
    PushEdit(pushed, Edit(Del, a[x - 1]));
    assert a[x - 1..] == [a[x - 1]] + a[x..];
  }

  /** Nothing pushed covers the empty ends of the texts. */
  lemma CoversNothing(a: seq<Line>, b: seq<Line>)
    ensures Covers(a, b, [], |a|, |b|) && Changes(Reverse([])) == 0
  {
  }

  /** A script that covers all of both texts. */
  lemma CoversAll(a: seq<Line>, b: seq<Line>, pushed: seq<Edit>)
    requires Covers(a, b, pushed, 0, 0)
    ensures OldSide(Reverse(pushed)) == a && NewSide(Reverse(pushed)) == b
  {
    assert a[0..] == a && b[0..] == b;
  }

  /**
   * The step back from round `d` on diagonal `k`, read off the previous
   * round's map: the diagonal `prevK` it came from, its end `prevX`, and where
   * round `d` starts, one step down or right from there.
   */
  lemma BackStep(a: seq<Line>, b: seq<Line>, d: nat, k: int, vPrev: map<int, int>)
    requires 0 < d && OnDiagonal(d, k) && RowOk(a, b, vPrev, d - 1)
    ensures var down := k == -(d as int) || (k != d && GetOr(vPrev, k - 1, -1) < GetOr(vPrev, k + 1, -1));
      var prevK := if down then k + 1 else k - 1;
      OnDiagonal(d - 1, prevK) && GetOr(vPrev, prevK, 0) == V(a, b, d - 1, prevK)
      && Start(a, b, d, k) == (if down then V(a, b, d - 1, prevK) else V(a, b, d - 1, prevK) + 1)
  {
    StartCases(a, b, d, k);
    StartFromRow(a, b, d, k, vPrev);
  }

  /**
   * The point the backward pass steps back to from diagonal `k` of round
   * `d`: the end of round `d - 1`'s slide on diagonal `prevK`, one step up or
   * left of where round `d` starts.
   */
  lemma PreviousSnake(a: seq<Line>, b: seq<Line>, d: nat, k: int, vPrev: map<int, int>, prevK: int, prevX: int)
    requires 0 < d && OnDiagonal(d, k) && RowOk(a, b, vPrev, d - 1)
    requires prevK == if k == -(d as int) || (k != d && GetOr(vPrev, k - 1, -1) < GetOr(vPrev, k + 1, -1)) then k + 1 else k - 1
    requires prevX == GetOr(vPrev, prevK, 0)
    ensures 0 <= prevX && prevX - prevK >= 0 && OnSnake(a, b, d - 1, prevX, prevX - prevK)
    ensures (prevK == k + 1 && Start(a, b, d, k) == prevX) || (prevK == k - 1 && Start(a, b, d, k) == prevX + 1)
  {
    BackStep(a, b, d, k, vPrev);
    SnakeEnd(a, b, d - 1, prevK);
  }

  /** Two lines opposite each other on a diagonal that agree. */
  lemma MatchedLines(a: seq<Line>, b: seq<Line>, i: int, k: int)
    requires OnMatch(a, b, i, k)
    ensures 0 <= i < |a| && 0 <= i - k < |b| && a[i] == b[i - k]
  {
  }

  /** What lying on a round's snake says. */
  lemma SnakeParts(a: seq<Line>, b: seq<Line>, d: nat, x: int, y: int)
    requires OnSnake(a, b, d, x, y)
    ensures OnDiagonal(d, x - y) && Start(a, b, d, x - y) <= x <= V(a, b, d, x - y)
  {
  }

  /** Every point of a round's slide but its end is a context line. */
  lemma SnakeMatch(a: seq<Line>, b: seq<Line>, d: nat, k: int, x: int)
    requires OnDiagonal(d, k) && Start(a, b, d, k) <= x < V(a, b, d, k)
    ensures OnMatch(a, b, x, k)
  {
    VSlides(a, b, d, k);
    SlideMatches(a, b, Start(a, b, d, k), k);
  }

  /** The end of a round's slide lies on its snake. */
  lemma SnakeEnd(a: seq<Line>, b: seq<Line>, d: nat, k: int)
    requires OnDiagonal(d, k)
    ensures OnSnake(a, b, d, V(a, b, d, k), V(a, b, d, k) - k)
  {
    VSlides(a, b, d, k);
  }

  /** The snake of round 0 is the common prefix of the two texts. */
  lemma SnakeZero(a: seq<Line>, b: seq<Line>, x: int, y: int)
    requires OnSnake(a, b, 0, x, y)
    ensures x == y && forall i :: 0 <= i < x ==> OnMatch(a, b, i, 0)
  {
    VSlides(a, b, 0, 0);
    forall i | 0 <= i < x
      ensures OnMatch(a, b, i, 0)
    {
      SnakeMatch(a, b, 0, 0, i);
    }
  }

  /**
   * The three loops that end the backward pass, from (x, y) back to the
   * origin: context lines while both texts have lines left (on diagonal
   * `x - y`, where the lines agree), then deletions, then additions.
   */
  method Unwind(a: seq<Line>, b: seq<Line>, x0: nat, y0: nat, pushed0: seq<Edit>) returns (pushed: seq<Edit>)
    requires Covers(a, b, pushed0, x0, y0)
    requires forall i, k :: k == x0 - y0 && 0 <= i < x0 && i - k < y0 ==> OnMatch(a, b, i, k)
    ensures Covers(a, b, pushed, 0, 0)
    ensures Changes(Reverse(pushed)) == Changes(Reverse(pushed0)) + (if x0 >= y0 then x0 - y0 else y0 - x0)
  {
    ghost var c := Changes(Reverse(pushed0));
    ghost var gap := if x0 >= y0 then x0 - y0 else y0 - x0;
    var x: nat, y: nat;
    x, y, pushed := UnwindSnake(a, b, x0, y0, pushed0);
    assert x <= |a| && y <= |b|;
    hide *;
    while x > 0
      invariant x <= |a| && y <= |b| && (x == 0 || y == 0)
      invariant Covers(a, b, pushed, x, y)
      invariant Changes(Reverse(pushed)) + x + y == c + gap
    {
      PushDel(a, b, pushed, x, y);
      pushed := pushed + [Edit(Del, a[x - 1])];
      x := x - 1;
    }
    while y > 0
      invariant y <= |b| && x == 0
      invariant Covers(a, b, pushed, x, y)
      invariant Changes(Reverse(pushed)) + y == c + gap
    {
      PushAdd(a, b, pushed, x, y);
      pushed := pushed + [Edit(Add, b[y - 1])];
      y := y - 1;
    }
  }

  /** The first of the loops that end the backward pass: context lines while both texts have lines left. */
  method UnwindSnake(a: seq<Line>, b: seq<Line>, x0: nat, y0: nat, pushed0: seq<Edit>) returns (x: nat, y: nat, pushed: seq<Edit>)
    requires Covers(a, b, pushed0, x0, y0)
    requires forall i, k :: k == x0 - y0 && 0 <= i < x0 && i - k < y0 ==> OnMatch(a, b, i, k)
    ensures (x == 0 || y == 0) && x - y == x0 - y0
    ensures Covers(a, b, pushed, x, y)
    ensures Changes(Reverse(pushed)) == Changes(Reverse(pushed0))
  {
    ghost var k := x0 - y0;
    ghost var c := Changes(Reverse(pushed0));
    assert x0 <= |a| && y0 <= |b|;
    hide *;
    x, y := x0, y0;
    pushed := pushed0;
    while x > 0 && y > 0
      invariant x <= |a| && y <= |b| && x - y == k
      invariant forall i :: 0 <= i < x && i - k < y ==> OnMatch(a, b, i, k)
      invariant Covers(a, b, pushed, x, y)
      invariant Changes(Reverse(pushed)) == c
    {
      MatchedLines(a, b, x - 1, k);
      PushContext(a, b, pushed, x, y);
      pushed := pushed + [Edit(Context, a[x - 1])];
      x := x - 1;
      y := y - 1;
    }
  }

  /**
   * The backward pass over the trace, then the reversal: a script from `a`
   * to `b` with exactly `Dist(n, m)` additions and deletions.
   */
  method Backtrack(a: seq<Line>, b: seq<Line>, trace: seq<map<int, int>>) returns (edits: seq<Edit>)
    requires |trace| == Dist(a, b, |a|, |b|) + 1
    requires forall e :: 0 <= e < |trace| - 1 ==> RowOk(a, b, trace[e], e)
    ensures OldSide(edits) == a && NewSide(edits) == b
    ensures Changes(edits) == Dist(a, b, |a|, |b|)
  {
    ghost var D := |trace| - 1;
    FoundRound(a, b);
    CoversNothing(a, b);
    hide *;
    var x: nat := |a|;
    var y: nat := |b|;
    var pushed: seq<Edit> := [];
    var d := |trace| - 1;
    while d > 0
      invariant 0 <= d <= D
      invariant x <= |a| && y <= |b| && OnSnake(a, b, d, x, y)
      invariant Covers(a, b, pushed, x, y)
      invariant Changes(Reverse(pushed)) + d == D
    {
      var vPrev := trace[d - 1];
      var k := x - y;
      SnakeParts(a, b, d, x, y);
      ghost var s := Start(a, b, d, k);
      var prevK := 0;
      var prevKMinus := GetOr(vPrev, k - 1, -1);
      var prevKPlus := GetOr(vPrev, k + 1, -1);
      if k == -(d as int) || (k != d && prevKMinus < prevKPlus) {
        prevK := k + 1;
      } else {
        prevK := k - 1;
      }
      var prevX := GetOr(vPrev, prevK, 0);
      var prevY := prevX - prevK;
      PreviousSnake(a, b, d, k, vPrev, prevK, prevX);
      ghost var c := Changes(Reverse(pushed));
      while x > prevX && y > prevY
        invariant s <= x <= V(a, b, d, k) && x <= |a| && y == x - k && y <= |b|
        invariant Covers(a, b, pushed, x, y)
        invariant Changes(Reverse(pushed)) == c
      {
        SnakeMatch(a, b, d, k, x - 1);
        MatchedLines(a, b, x - 1, k);
        PushContext(a, b, pushed, x, y);
        pushed := pushed + [Edit(Context, a[x - 1])];
        x := x - 1;
        y := y - 1;
      }
      if x == prevX {
        PushAdd(a, b, pushed, x, y);
        pushed := pushed + [Edit(Add, b[y - 1])];
        y := y - 1;
      } else {
        PushDel(a, b, pushed, x, y);
        pushed := pushed + [Edit(Del, a[x - 1])];
        x := x - 1;
      }
      assert x == prevX && y == prevY;
      d := d - 1;
    }

    SnakeZero(a, b, x, y);
    pushed := Unwind(a, b, x, y, pushed);
    CoversAll(a, b, pushed);
    edits := Reverse(pushed);
  }

  /**
   * `myersLineDiff(a, b)`: an edit script whose old side is `a`, whose new
   * side is `b`, and which adds and deletes as few lines as any such script.
   */
  method MyersLineDiff(a: seq<Line>, b: seq<Line>) returns (edits: seq<Edit>)
    ensures OldSide(edits) == a && NewSide(edits) == b
    ensures Changes(edits) == Dist(a, b, |a|, |b|)
    ensures forall es :: OldSide(es) == a && NewSide(es) == b ==> Changes(edits) <= Changes(es)
  {
    var trace := Forward(a, b);
    edits := Backtrack(a, b, trace);
    forall es | OldSide(es) == a && NewSide(es) == b
      ensures Changes(edits) <= Changes(es)
    {
      assert a[..|a|] == a && b[..|b|] == b;
      Shortest(a, b, |a|, |b|, es);
    }
  }

  /** The diff of two line lists has no additions or deletions exactly when they are equal. */
  lemma NoChangesIffEqual(a: seq<Line>, b: seq<Line>, edits: seq<Edit>)
    requires OldSide(edits) == a && NewSide(edits) == b
    requires Changes(edits) == Dist(a, b, |a|, |b|)
    ensures Changes(edits) == 0 <==> a == b
  {
    if a == b {
      var same := AllContext(a);
      assert a[..|a|] == a;
      Shortest(a, a, |a|, |a|, same);
    } else if Changes(edits) == 0 {
      NoChangesSameSides(edits);
    }
  }

  /** The script that keeps every line. */
  function AllContext(a: seq<Line>): (es: seq<Edit>)
    ensures OldSide(es) == a && NewSide(es) == a && Changes(es) == 0
  {
    if a == [] then [] else [Edit(Context, a[0])] + AllContext(a[1..])
  }
}
