/** Line simplification with an explicit stack (backend/app/api/geometry.py:37-97). */
module DouglasPeucker {
  import opened ChordDistance

  const METRES_PER_DEGREE: real := 111320.0

  /** The tolerance in degrees, squared like the distances. */
  function Tolerance2(toleranceM: real): real {
    Sq(toleranceM / METRES_PER_DEGREE)
  }

  /** How far a point (third) is from the chord between two others, on any ordered scale. */
  type Metric = (Point, Point, Point) -> real

  ghost function Off(d: Metric, pts: seq<Point>, first: nat, last: nat, i: nat): real
    requires first < |pts| && last < |pts| && i < |pts|
  {
    d(pts[first], pts[last], pts[i])
  }

  // ----- The recursive definition -------------------------------------------------------

  /** `w` is the first of the interior points farthest from the chord. */
  ghost predicate IsWorst(d: Metric, pts: seq<Point>, first: nat, last: nat, n: nat, w: nat)
    requires first < last < |pts| && n <= last
  {
    && first < w < n
    && forall i :: first < i < n ==>
         && Off(d, pts, first, last, i) <= Off(d, pts, first, last, w)
         && (i < w ==> Off(d, pts, first, last, i) < Off(d, pts, first, last, w))
  }

  ghost function Worst(d: Metric, pts: seq<Point>, first: nat, last: nat, n: nat): (w: nat)
    requires first < last < |pts| && first + 1 < n <= last
    ensures IsWorst(d, pts, first, last, n, w)
    decreases n
  {
    if n == first + 2 then first + 1
    else
      var w := Worst(d, pts, first, last, n - 1);
      if Off(d, pts, first, last, n - 1) > Off(d, pts, first, last, w) then n - 1 else w
  }

  /** The interior points the textbook recursion keeps between two kept ones. */
  ghost function Kept(d: Metric, pts: seq<Point>, tol: real, first: nat, last: nat): set<nat>
    requires first < last < |pts|
    decreases last - first
  {
    if last == first + 1 then {}
    else
      var w := Worst(d, pts, first, last, last);
      if Off(d, pts, first, last, w) <= tol then {}
      else {w} + Kept(d, pts, tol, first, w) + Kept(d, pts, tol, w, last)
  }

  /** Simplification keeps index `i`: an end of the line, or what the recursion keeps inside. */
  ghost predicate Keeps(d: Metric, pts: seq<Point>, tol: real, i: nat) {
    && i < |pts|
    && (|pts| < 3 || i == 0 || i == |pts| - 1 || i in Kept(d, pts, tol, 0, |pts| - 1))
  }

  // ----- The iterative algorithm --------------------------------------------------------

  /** Every range on the stack is a real one. */
  ghost predicate Ranges(pts: seq<Point>, stack: seq<(nat, nat)>) {
    forall k :: 0 <= k < |stack| ==> stack[k].0 < stack[k].1 < |pts|
  }

  /** What the ranges still on the stack will contribute. */
  ghost function Pending(d: Metric, pts: seq<Point>, tol: real, stack: seq<(nat, nat)>): set<nat>
    requires Ranges(pts, stack)
  {
    if stack == [] then {}
    else
      var top := stack[|stack| - 1];
      Pending(d, pts, tol, stack[..|stack| - 1]) + Kept(d, pts, tol, top.0, top.1)
  }

  ghost function Work(pts: seq<Point>, stack: seq<(nat, nat)>): nat
    requires Ranges(pts, stack)
  {
    if stack == [] then 0
    else
      var top := stack[|stack| - 1];
      Work(pts, stack[..|stack| - 1]) + 2 * (top.1 - top.0) - 1
  }

  lemma PushTwo(d: Metric, pts: seq<Point>, tol: real, stack: seq<(nat, nat)>, a: (nat, nat), b: (nat, nat))
    requires Ranges(pts, stack) && a.0 < a.1 < |pts| && b.0 < b.1 < |pts|
    ensures Ranges(pts, stack + [a, b])
    ensures Pending(d, pts, tol, stack + [a, b])
         == Pending(d, pts, tol, stack) + Kept(d, pts, tol, a.0, a.1) + Kept(d, pts, tol, b.0, b.1)
    ensures Work(pts, stack + [a, b]) == Work(pts, stack) + 2 * (a.1 - a.0) - 1 + 2 * (b.1 - b.0) - 1
  {
    var two := stack + [a, b];
    assert two[..|two| - 1] == stack + [a];
    assert (stack + [a])[..|stack|] == stack;
  }

  /** The scan for the farthest interior point, comparing squared distances. */
  method FindWorst(pts: seq<Point>, first: nat, last: nat) returns (worstIndex: nat, worst: real)
    requires first < last < |pts| && first + 1 < last
    ensures worstIndex == Worst(Distance2, pts, first, last, last)
    ensures worst == Off(Distance2, pts, first, last, worstIndex)
  {
    worstIndex, worst := first, -1.0;
    for index := first + 1 to last
      invariant index == first + 1 ==> worst == -1.0
      invariant index > first + 1 ==>
                  && worstIndex == Worst(Distance2, pts, first, last, index)
                  && worst == Off(Distance2, pts, first, last, worstIndex)
    {
      var distance := Distance2(pts[first], pts[last], pts[index]);
      DistanceIsNonNegative(pts[first], pts[last], pts[index]);
      if distance > worst {
        worstIndex, worst := index, distance;
      }
    }
  }

  ghost predicate StrictlyIncreasing(s: seq<nat>) {
    forall i, j :: 0 <= i < j < |s| ==> s[i] < s[j]
  }

  /** The kept indices below `n`, in order. A tolerance that is not positive keeps everything. */
  ghost function KeptBelow(pts: seq<Point>, toleranceM: real, n: nat): seq<nat> {
    if n == 0 then []
    else if toleranceM <= 0.0 || Keeps(Distance2, pts, Tolerance2(toleranceM), n - 1)
      then KeptBelow(pts, toleranceM, n - 1) + [n - 1]
    else KeptBelow(pts, toleranceM, n - 1)
  }

  ghost function KeptIndices(pts: seq<Point>, toleranceM: real): seq<nat> {
    KeptBelow(pts, toleranceM, |pts|)
  }

  /** The loop with its stack marks what the recursion keeps, in whatever order it gets there. */
  method MarkKept(pts: seq<Point>, tol: real) returns (keep: array<bool>)
    requires |pts| >= 3
    ensures keep.Length == |pts|
    ensures forall i :: 0 <= i < |pts| ==> (keep[i] <==> Keeps(Distance2, pts, tol, i))
  {
    hide Distance2, Worst;
    var n := |pts|;
    keep := new bool[n](_ => false);
    keep[0], keep[n - 1] := true, true;
    var stack: seq<(nat, nat)> := [(0, n - 1)];
    assert Ranges(pts, stack) && stack[..0] == [];
    while stack != []
      invariant Ranges(pts, stack)
      invariant forall i :: 0 <= i < n ==>
                  (Keeps(Distance2, pts, tol, i) <==> keep[i] || i in Pending(Distance2, pts, tol, stack))
      decreases Work(pts, stack)
    {
      var (first, last) := stack[|stack| - 1];
      stack := stack[..|stack| - 1];
      if last <= first + 1 {
        continue;
      }
      var worstIndex, worst := FindWorst(pts, first, last);
      if worst > tol {
        keep[worstIndex] := true;
        PushTwo(Distance2, pts, tol, stack, (first, worstIndex), (worstIndex, last));
        stack := stack + [(first, worstIndex), (worstIndex, last)];
      }
    }
  }

  /** `simplify_indices`: whatever the stack does, what is kept is what the recursion keeps. */
  method SimplifyIndices(pts: seq<Point>, toleranceM: real) returns (kept: seq<nat>)
    ensures kept == KeptIndices(pts, toleranceM)
  {
    kept := [];
    if |pts| < 3 || toleranceM <= 0.0 {
      for i := 0 to |pts|
        invariant kept == KeptBelow(pts, toleranceM, i)
      {
        kept := kept + [i];
      }
      return;
    }
    var keep := MarkKept(pts, Tolerance2(toleranceM));
    for i := 0 to |pts|
      invariant kept == KeptBelow(pts, toleranceM, i)
    {
      if keep[i] {
        kept := kept + [i];
      }
    }
  }

  lemma {:induction false} KeptBelowSpec(pts: seq<Point>, toleranceM: real, n: nat)
    requires n <= |pts|
    ensures StrictlyIncreasing(KeptBelow(pts, toleranceM, n))
    ensures forall i :: i in KeptBelow(pts, toleranceM, n) <==>
              0 <= i < n && (toleranceM <= 0.0 || Keeps(Distance2, pts, Tolerance2(toleranceM), i))
  {
    if n > 0 {
      KeptBelowSpec(pts, toleranceM, n - 1);
      var kept := KeptBelow(pts, toleranceM, n - 1);
      assert forall k :: 0 <= k < |kept| ==> kept[k] in kept;
    }
  }

  /** A simplified line is a subsequence that starts and ends where the line did. */
  lemma KeptIndicesSpec(pts: seq<Point>, toleranceM: real)
    ensures var kept := KeptIndices(pts, toleranceM);
            && StrictlyIncreasing(kept)
            && (forall k :: 0 <= k < |kept| ==> kept[k] < |pts|)
            && (|pts| > 0 ==> |kept| > 0 && kept[0] == 0 && kept[|kept| - 1] == |pts| - 1)
            && (|pts| > 1 ==> |kept| > 1)
  {
    var kept := KeptIndices(pts, toleranceM);
    KeptBelowSpec(pts, toleranceM, |pts|);
    assert forall k :: 0 <= k < |kept| ==> kept[k] in kept;
    if |pts| > 0 {
      assert 0 in kept && |pts| - 1 in kept;
    }
  }

  // ----- What the recursion guarantees --------------------------------------------------

  lemma {:induction false} KeptIsInside(d: Metric, pts: seq<Point>, tol: real, first: nat, last: nat)
    requires first < last < |pts|
    ensures forall i :: i in Kept(d, pts, tol, first, last) ==> first < i < last
    decreases last - first
  {
    if last > first + 1 {
      var w := Worst(d, pts, first, last, last);
      KeptIsInside(d, pts, tol, first, w);
      KeptIsInside(d, pts, tol, w, last);
    }
  }

  /** A dropped point lies within tolerance of the chord between its kept neighbours. */
  lemma {:induction false} DroppedPointIsNear(d: Metric, pts: seq<Point>, tol: real, first: nat, last: nat, i: nat)
      returns (before: nat, after: nat)
    requires first < i < last < |pts| && i !in Kept(d, pts, tol, first, last)
    ensures first <= before < i < after <= last
    ensures before == first || before in Kept(d, pts, tol, first, last)
    ensures after == last || after in Kept(d, pts, tol, first, last)
    ensures forall k :: before < k < after ==> k !in Kept(d, pts, tol, first, last)
    ensures Off(d, pts, before, after, i) <= tol
    decreases last - first
  {
    var w := Worst(d, pts, first, last, last);
    if Off(d, pts, first, last, w) <= tol {
      before, after := first, last;
    } else {
      KeptIsInside(d, pts, tol, first, w);
      KeptIsInside(d, pts, tol, w, last);
      if i < w {
        before, after := DroppedPointIsNear(d, pts, tol, first, w, i);
      } else {
        before, after := DroppedPointIsNear(d, pts, tol, w, last, i);
      }
    }
  }

  /** A larger tolerance keeps a subset. */
  lemma {:induction false} SimplificationIsNested(d: Metric, pts: seq<Point>, tol: real, larger: real,
                                                 first: nat, last: nat)
    requires first < last < |pts| && tol <= larger
    ensures Kept(d, pts, larger, first, last) <= Kept(d, pts, tol, first, last)
    decreases last - first
  {
    if last > first + 1 {
      var w := Worst(d, pts, first, last, last);
      SimplificationIsNested(d, pts, tol, larger, first, w);
      SimplificationIsNested(d, pts, tol, larger, w, last);
    }
  }

  // ----- Simplifying again changes nothing ----------------------------------------------

  function Chosen<T>(from: seq<T>, at: seq<nat>): (chosen: seq<T>)
    requires forall k :: 0 <= k < |at| ==> at[k] < |from|
    ensures |chosen| == |at| && forall k :: 0 <= k < |at| ==> chosen[k] == from[at[k]]
  {
    seq(|at|, k requires 0 <= k < |at| => from[at[k]])
  }

  /** Among the selected points the farthest is still the farthest. */
  lemma WorstIsSelected(d: Metric, pts: seq<Point>, idx: seq<nat>, k1: nat, k2: nat, kw: nat)
    requires StrictlyIncreasing(idx) && forall k :: 0 <= k < |idx| ==> idx[k] < |pts|
    requires k1 < kw < k2 < |idx| && idx[k1] < idx[kw] < idx[k2]
    requires idx[kw] == Worst(d, pts, idx[k1], idx[k2], idx[k2])
    ensures Worst(d, Chosen(pts, idx), k1, k2, k2) == kw
  {
    var q := Chosen(pts, idx);
    assert forall k :: k1 < k < k2 ==> Off(d, q, k1, k2, k) == Off(d, pts, idx[k1], idx[k2], idx[k]);
    assert IsWorst(d, q, k1, k2, k2, kw);
  }

  /** Between two selected points, the selected ones are exactly those the recursion keeps. */
  ghost predicate SelectedBetween(d: Metric, pts: seq<Point>, idx: seq<nat>, tol: real, first: nat, last: nat)
    requires first < last < |pts|
  {
    forall i :: first < i < last ==> (i in idx <==> i in Kept(d, pts, tol, first, last))
  }

  lemma SelectedBetweenSplits(d: Metric, pts: seq<Point>, idx: seq<nat>, tol: real, first: nat, last: nat, i: nat)
    requires first < last < |pts| && SelectedBetween(d, pts, idx, tol, first, last)
    requires i in Kept(d, pts, tol, first, last)
    ensures first + 1 < last
    ensures var w := Worst(d, pts, first, last, last);
            && w in idx && Off(d, pts, first, last, w) > tol
            && SelectedBetween(d, pts, idx, tol, first, w) && SelectedBetween(d, pts, idx, tol, w, last)
  {
    var w := Worst(d, pts, first, last, last);
    assert w in Kept(d, pts, tol, first, last);
    KeptIsInside(d, pts, tol, first, w);
    KeptIsInside(d, pts, tol, w, last);
  }

  /** The selected points split where the whole line did. */
  lemma SelectedSplit(d: Metric, pts: seq<Point>, idx: seq<nat>, tol: real, k1: nat, k2: nat) returns (kw: nat)
    requires StrictlyIncreasing(idx) && forall k :: 0 <= k < |idx| ==> idx[k] < |pts|
    requires k1 + 1 < k2 < |idx| && SelectedBetween(d, pts, idx, tol, idx[k1], idx[k2])
    ensures k1 < kw < k2
    ensures SelectedBetween(d, pts, idx, tol, idx[k1], idx[kw]) && SelectedBetween(d, pts, idx, tol, idx[kw], idx[k2])
    ensures Worst(d, Chosen(pts, idx), k1, k2, k2) == kw && Off(d, Chosen(pts, idx), k1, k2, kw) > tol
  {
    var first, last := idx[k1], idx[k2];
    assert idx[k1 + 1] in idx;
    SelectedBetweenSplits(d, pts, idx, tol, first, last, idx[k1 + 1]);
    var w := Worst(d, pts, first, last, last);
    kw :| kw < |idx| && idx[kw] == w;
    assert k1 < kw < k2;
    WorstIsSelected(d, pts, idx, k1, k2, kw);
    assert Off(d, Chosen(pts, idx), k1, k2, kw) == Off(d, pts, first, last, w);
  }

  lemma {:induction false} SelectedAreAllKept(d: Metric, pts: seq<Point>, idx: seq<nat>, tol: real, k1: nat, k2: nat)
    requires StrictlyIncreasing(idx) && forall k :: 0 <= k < |idx| ==> idx[k] < |pts|
    requires k1 < k2 < |idx| && SelectedBetween(d, pts, idx, tol, idx[k1], idx[k2])
    ensures forall k :: k1 < k < k2 ==> k in Kept(d, Chosen(pts, idx), tol, k1, k2)
    decreases k2 - k1
  {
    if k2 > k1 + 1 {
      var kw := SelectedSplit(d, pts, idx, tol, k1, k2);
      SelectedAreAllKept(d, pts, idx, tol, k1, kw);
      SelectedAreAllKept(d, pts, idx, tol, kw, k2);
    }
  }

  /** The points of a simplified line are all kept when it is simplified again. */
  lemma SimplificationIsIdempotent(d: Metric, pts: seq<Point>, tol: real, idx: seq<nat>)
    requires StrictlyIncreasing(idx) && forall i :: i in idx <==> Keeps(d, pts, tol, i)
    requires forall k :: 0 <= k < |idx| ==> idx[k] < |pts|
    ensures forall k :: 0 <= k < |idx| ==> Keeps(d, Chosen(pts, idx), tol, k)
  {
    if |idx| >= 3 {
      var n := |pts|;
      assert idx[0] < idx[1] < idx[2] < n;
      KeptIsInside(d, pts, tol, 0, n - 1);
      assert 0 in idx && n - 1 in idx;
      assert Keeps(d, pts, tol, idx[0]) && Keeps(d, pts, tol, idx[|idx| - 1]);
      assert idx[0] == 0 && idx[|idx| - 1] == n - 1;
      SelectedAreAllKept(d, pts, idx, tol, 0, |idx| - 1);
    }
  }

  // ----- The same for the indices the loop returns --------------------------------------

  lemma {:induction false} KeptBelowIsAll(pts: seq<Point>, toleranceM: real, n: nat)
    requires toleranceM <= 0.0 || forall i :: 0 <= i < n ==> Keeps(Distance2, pts, Tolerance2(toleranceM), i)
    ensures |KeptBelow(pts, toleranceM, n)| == n
    ensures forall i :: 0 <= i < n ==> KeptBelow(pts, toleranceM, n)[i] == i
  {
    if n > 0 {
      KeptBelowIsAll(pts, toleranceM, n - 1);
    }
  }

  /** Simplifying a simplified line at the same tolerance gives it back. */
  lemma SimplifyIsIdempotent(pts: seq<Point>, toleranceM: real, once: seq<Point>)
    requires forall k :: 0 <= k < |KeptIndices(pts, toleranceM)| ==> KeptIndices(pts, toleranceM)[k] < |pts|
    requires once == Chosen(pts, KeptIndices(pts, toleranceM))
    ensures forall k :: 0 <= k < |KeptIndices(once, toleranceM)| ==> KeptIndices(once, toleranceM)[k] < |once|
    ensures Chosen(once, KeptIndices(once, toleranceM)) == once
  {
    if toleranceM > 0.0 {
      KeptBelowSpec(pts, toleranceM, |pts|);
      SimplificationIsIdempotent(Distance2, pts, Tolerance2(toleranceM), KeptIndices(pts, toleranceM));
    }
    KeptBelowIsAll(once, toleranceM, |once|);
  }

  lemma SquareGrows(a: real, b: real)
    requires 0.0 <= a <= b
    ensures Sq(a) <= Sq(b)
  {
    assert a * a <= a * b <= b * b;
  }

  /** A coarser tolerance never keeps a point a finer one drops. */
  lemma CoarserKeepsFewer(pts: seq<Point>, toleranceM: real, coarserM: real, i: nat)
    requires toleranceM <= coarserM && i in KeptIndices(pts, coarserM)
    ensures i in KeptIndices(pts, toleranceM)
  {
    KeptBelowSpec(pts, toleranceM, |pts|);
    KeptBelowSpec(pts, coarserM, |pts|);
    if toleranceM > 0.0 && |pts| >= 3 {
      SquareGrows(toleranceM / METRES_PER_DEGREE, coarserM / METRES_PER_DEGREE);
      SimplificationIsNested(Distance2, pts, Tolerance2(toleranceM), Tolerance2(coarserM),
                             0, |pts| - 1);
    }
  }

  /** A dropped fix is within tolerance of the infinite line through the two kept fixes around it. It is
      within tolerance of the segment drawn between them exactly when that segment covers it. */
  lemma DroppedFixIsNear(pts: seq<Point>, toleranceM: real, i: nat) returns (k: nat)
    requires i < |pts| && i !in KeptIndices(pts, toleranceM)
    ensures var (kept, tol) := (KeptIndices(pts, toleranceM), Tolerance2(toleranceM));
            && k + 1 < |kept| && kept[k] < i < kept[k + 1] < |pts|
            && Distance2(pts[kept[k]], pts[kept[k + 1]], pts[i]) <= tol
            && (NearSegment(pts[kept[k]], pts[kept[k + 1]], pts[i], tol)
                <==> Covers(pts[kept[k]], pts[kept[k + 1]], pts[i], tol))
  {
    var kept, tol := KeptIndices(pts, toleranceM), Tolerance2(toleranceM);
    KeptBelowSpec(pts, toleranceM, |pts|);
    var before, after := DroppedPointIsNear(Distance2, pts, tol, 0, |pts| - 1, i);
    assert before in kept && after in kept;
    k :| k < |kept| && kept[k] == before;
    var j: nat :| j < |kept| && kept[j] == after;
    assert k < j;
    assert kept[k + 1] in kept;
    assert before < kept[k + 1] <= after;
    SegmentIsNearIff(pts[before], pts[after], pts[i], tol);
  }

  /** In metres, at 111320 to a degree, a dropped fix is no farther from that line than the tolerance. */
  lemma DroppedFixIsWithinMetres(pts: seq<Point>, toleranceM: real, i: nat) returns (k: nat)
    requires i < |pts| && i !in KeptIndices(pts, toleranceM)
    ensures var kept := KeptIndices(pts, toleranceM);
            && k + 1 < |kept| && kept[k] < i < kept[k + 1] < |pts|
            && Sq(111320.0) * Distance2(pts[kept[k]], pts[kept[k + 1]], pts[i]) <= Sq(toleranceM)
  {
    hide KeptIndices, Distance2, NearSegment, Covers;
    k := DroppedFixIsNear(pts, toleranceM, i);
    var kept := KeptIndices(pts, toleranceM);
    ToleranceInMetres(toleranceM, Distance2(pts[kept[k]], pts[kept[k + 1]], pts[i]));
  }

  lemma ToleranceInMetres(toleranceM: real, distance2: real)
    ensures distance2 <= Tolerance2(toleranceM) ==> Sq(111320.0) * distance2 <= Sq(toleranceM)
  {
    var degrees := toleranceM / METRES_PER_DEGREE;
    assert degrees * 111320.0 == toleranceM;
    assert Sq(111320.0) * Sq(degrees) == (degrees * 111320.0) * (degrees * 111320.0);
    assert Sq(111320.0) * (Sq(degrees) - distance2) == Sq(111320.0) * Sq(degrees) - Sq(111320.0) * distance2;
  }

  lemma FlatKeepsNothing(d: Metric, pts: seq<Point>, tol: real)
    requires |pts| == 3 && d(pts[0], pts[2], pts[1]) <= tol
    ensures Keeps(d, pts, tol, 0) && !Keeps(d, pts, tol, 1) && Keeps(d, pts, tol, 2)
  {
    assert Worst(d, pts, 0, 2, 2) == 1;
    assert Off(d, pts, 0, 2, 1) <= tol;
    assert Kept(d, pts, tol, 0, 2) == {};
  }

  lemma KeptOfThree(pts: seq<Point>, toleranceM: real)
    requires toleranceM > 0.0
    requires var tol := Tolerance2(toleranceM);
             Keeps(Distance2, pts, tol, 0) && !Keeps(Distance2, pts, tol, 1) && Keeps(Distance2, pts, tol, 2)
    ensures KeptBelow(pts, toleranceM, 3) == [0, 2]
  {
    assert KeptBelow(pts, toleranceM, 0) == [];
    assert KeptBelow(pts, toleranceM, 1) == [0];
    assert KeptBelow(pts, toleranceM, 2) == [0];
  }

  lemma DroppedBetween(a: Point, p: Point, b: Point, toleranceM: real)
    requires toleranceM > 0.0 && Distance2(a, b, p) <= Tolerance2(toleranceM)
    ensures KeptIndices([a, p, b], toleranceM) == [0, 2]
  {
    FlatKeepsNothing(Distance2, [a, p, b], Tolerance2(toleranceM));
    KeptOfThree([a, p, b], toleranceM);
  }

  /** A spur out along a line and back is dropped however long it is: its far end lies on the line of the
      chord, but beyond the segment that is drawn. */
  lemma SpurDisappears(a: Point, p: Point, b: Point, toleranceM: real)
    requires toleranceM > 0.0 && Norm2(a, b) > 0.0 && Cross(a, b, p) == 0.0 && !Covers(a, b, p, Tolerance2(toleranceM))
    ensures KeptIndices([a, p, b], toleranceM) == [0, 2]
    ensures !NearSegment(a, b, p, Tolerance2(toleranceM))
  {
    OnTheLine(a, b, p);
    ToleranceIsNonNegative(toleranceM);
    DroppedBetween(a, p, b, toleranceM);
    SegmentIsNearIff(a, b, p, Tolerance2(toleranceM));
  }

  lemma ToleranceIsNonNegative(toleranceM: real)
    ensures Tolerance2(toleranceM) >= 0.0
  {
    SquareIsNonNegative(toleranceM / METRES_PER_DEGREE);
  }

  lemma BelowADegree(toleranceM: real)
    requires 0.0 < toleranceM < METRES_PER_DEGREE
    ensures Tolerance2(toleranceM) < 1.0
  {
    var q := toleranceM / METRES_PER_DEGREE;
    QuotientBounds(toleranceM, METRES_PER_DEGREE, 1.0);
    assert q < 1.0;
    assert q * q <= q;
  }

  lemma OutIsOnTheLine()
    ensures Cross(Point(0.0, 0.0), Point(1.0, 0.0), Point(2.0, 0.0)) == 0.0
  {
  }

  lemma BackIsOneLong()
    ensures Norm2(Point(0.0, 0.0), Point(1.0, 0.0)) == 1.0
  {
  }

  lemma OutIsBeyond()
    ensures Dot(Point(0.0, 0.0), Point(1.0, 0.0), Point(2.0, 0.0)) == 2.0
  {
  }

  lemma OutIsFar()
    ensures Norm2(Point(0.0, 0.0), Point(2.0, 0.0)) == 4.0
    ensures Norm2(Point(1.0, 0.0), Point(2.0, 0.0)) == 1.0
  {
  }

  lemma OutIsUncovered(tol: real)
    requires tol < 1.0
    ensures !Covers(Point(0.0, 0.0), Point(1.0, 0.0), Point(2.0, 0.0), tol)
  {
    BackIsOneLong();
    OutIsBeyond();
    OutIsFar();
  }

  /** Two degrees out and one back: at five metres, or at any tolerance below a degree, the far end is
      dropped, a whole degree from what is drawn. */
  lemma OutAndBackDisappears(toleranceM: real)
    requires 0.0 < toleranceM < METRES_PER_DEGREE
    ensures KeptIndices([Point(0.0, 0.0), Point(2.0, 0.0), Point(1.0, 0.0)], toleranceM) == [0, 2]
    ensures !NearSegment(Point(0.0, 0.0), Point(1.0, 0.0), Point(2.0, 0.0), Tolerance2(toleranceM))
  {
    BelowADegree(toleranceM);
    OutIsOnTheLine();
    BackIsOneLong();
    OutIsUncovered(Tolerance2(toleranceM));
    SpurDisappears(Point(0.0, 0.0), Point(2.0, 0.0), Point(1.0, 0.0), toleranceM);
  }
}
