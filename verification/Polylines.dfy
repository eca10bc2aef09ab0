/** Splitting fixes into drawable runs and simplifying each (backend/app/api/geometry.py:100-193). */
module Polylines {
  import opened Options
  import opened ChordDistance
  import opened DouglasPeucker
  import opened Sequences

  datatype Sample = Sample(lat: real, lon: real, seconds: Option<real>)

  /** What breaks a line: the limits, the great-circle distance and the pipeline's own marks. */
  datatype Breaks = Breaks(maxGapS: real, maxJumpM: real, metres: (Point, Point) -> real, marks: Option<seq<bool>>)

  function At(s: Sample): Point {
    Point(s.lat, s.lon)
  }

  /** Sample `i` must start a new line rather than continue from sample `i - 1`. */
  predicate Cut(samples: seq<Sample>, b: Breaks, i: nat)
    requires 0 < i < |samples|
  {
    var (p, s) := (samples[i - 1], samples[i]);
    || (p.seconds.Some? && s.seconds.Some? && s.seconds.value - p.seconds.value > b.maxGapS)
    || b.metres(At(p), At(s)) > b.maxJumpM
    || (b.marks.Some? && i < |b.marks.value| && b.marks.value[i])
  }

  ghost predicate Uncut(samples: seq<Sample>, b: Breaks, first: nat, end: nat)
    requires end <= |samples|
  {
    forall k :: first < k < end ==> !Cut(samples, b, k)
  }

  // ----- Maximal uncut runs -------------------------------------------------------------

  /** A run of the samples `first` up to, not including, `end`. */
  datatype Run = Run(first: nat, end: nat) {
    ghost predicate Within(samples: seq<Sample>) {
      first < end <= |samples|
    }

    /** A maximal stretch of samples with no cut inside it. */
    ghost predicate Maximal(samples: seq<Sample>, b: Breaks) {
      && Within(samples)
      && (first == 0 || Cut(samples, b, first))
      && (end == |samples| || Cut(samples, b, end))
      && Uncut(samples, b, first, end)
    }

    function Indices(): (s: seq<nat>)
      ensures |s| == (if end <= first then 0 else end - first)
      ensures forall k :: 0 <= k < |s| ==> s[k] == first + k
      decreases end
    {
      if end <= first then [] else Run(first, end - 1).Indices() + [end - 1]
    }
  }

  ghost function IndicesOf(runs: seq<Run>): (s: seq<seq<nat>>)
    ensures |s| == |runs| && forall r :: 0 <= r < |s| ==> s[r] == runs[r].Indices()
  {
    seq(|runs|, r requires 0 <= r < |runs| => runs[r].Indices())
  }

  /** Where the run that contains `i - 1` ends, looking from `i` on. */
  ghost function RunEnd(samples: seq<Sample>, b: Breaks, i: nat): (end: nat)
    requires 0 < i <= |samples|
    ensures i <= end <= |samples| && (end == |samples| || Cut(samples, b, end))
    ensures forall k :: i <= k < end ==> !Cut(samples, b, k)
    decreases |samples| - i
  {
    if i == |samples| || Cut(samples, b, i) then i else RunEnd(samples, b, i + 1)
  }

  ghost function RunStart(samples: seq<Sample>, b: Breaks, i: nat): (first: nat)
    requires i < |samples|
    ensures first <= i && (first == 0 || Cut(samples, b, first))
    ensures forall k :: first < k <= i ==> !Cut(samples, b, k)
  {
    if i == 0 || Cut(samples, b, i) then i else RunStart(samples, b, i - 1)
  }

  ghost function Drawn(run: Run): seq<Run> {
    if run.end - run.first > 1 then [run] else []
  }

  /** The runs of two or more samples from `a` on. */
  ghost function RunsFrom(samples: seq<Sample>, b: Breaks, a: nat): seq<Run>
    requires a <= |samples|
    decreases |samples| - a
  {
    if a == |samples| then []
    else
      var end := RunEnd(samples, b, a + 1);
      Drawn(Run(a, end)) + RunsFrom(samples, b, end)
  }

  lemma {:induction false} RunEndIs(samples: seq<Sample>, b: Breaks, i: nat, end: nat)
    requires 0 < i <= end <= |samples| && (end == |samples| || Cut(samples, b, end))
    requires forall k :: i <= k < end ==> !Cut(samples, b, k)
    ensures RunEnd(samples, b, i) == end
    decreases end - i
  {
    if i < end {
      RunEndIs(samples, b, i + 1, end);
    }
  }

  ghost function Extended(samples: seq<Sample>, b: Breaks, done: seq<Run>, start: nat): seq<Run>
    requires start <= |samples|
  {
    done + RunsFrom(samples, b, start)
  }

  lemma DrawRun(done: seq<Run>, run: Run)
    ensures IndicesOf(done + Drawn(run)) == IndicesOf(done) + if |run.Indices()| > 1 then [run.Indices()] else []
  {
    var drawn := if |run.Indices()| > 1 then [run.Indices()] else [];
    if drawn == [] {
      assert done + Drawn(run) == done;
    }
    assert forall r :: 0 <= r < |done + Drawn(run)| ==>
        (done + Drawn(run))[r].Indices() == (IndicesOf(done) + drawn)[r];
  }

  lemma RunsFromRun(samples: seq<Sample>, b: Breaks, run: Run)
    requires run.Within(samples) && Uncut(samples, b, run.first, run.end)
    requires run.end == |samples| || Cut(samples, b, run.end)
    ensures RunsFrom(samples, b, run.first) == Drawn(run) + RunsFrom(samples, b, run.end)
  {
    RunEndIs(samples, b, run.first + 1, run.end);
    assert run == Run(run.first, run.end);
  }

  /** Closing the current run at a cut, or at the end, accounts for it. */
  lemma CloseRun(samples: seq<Sample>, b: Breaks, done: seq<Run>, run: Run)
    requires run.Within(samples) && Uncut(samples, b, run.first, run.end)
    requires run.end == |samples| || Cut(samples, b, run.end)
    ensures Extended(samples, b, done, run.first) == Extended(samples, b, done + Drawn(run), run.end)
    ensures IndicesOf(done + Drawn(run)) == IndicesOf(done) + if |run.Indices()| > 1 then [run.Indices()] else []
  {
    DrawRun(done, run);
    RunsFromRun(samples, b, run);
    Associates(done, Drawn(run), RunsFrom(samples, b, run.end));
  }

  /** The runs closed so far, and that the rest follow from `start`. */
  ghost predicate SplitUpTo(samples: seq<Sample>, b: Breaks, runs: seq<seq<nat>>, done: seq<Run>, start: nat) {
    && start <= |samples| && runs == IndicesOf(done)
    && Extended(samples, b, done, start) == RunsFrom(samples, b, 0)
  }

  lemma SplitOneMore(samples: seq<Sample>, b: Breaks, runs: seq<seq<nat>>, done: seq<Run>, run: Run)
    requires SplitUpTo(samples, b, runs, done, run.first)
    requires run.Within(samples) && Uncut(samples, b, run.first, run.end)
    requires run.end == |samples| || Cut(samples, b, run.end)
    ensures SplitUpTo(samples, b, runs + if |run.Indices()| > 1 then [run.Indices()] else [], done + Drawn(run), run.end)
  {
    CloseRun(samples, b, done, run);
  }

  lemma SplitStarts(samples: seq<Sample>, b: Breaks)
    ensures SplitUpTo(samples, b, [], [], 0)
  {
  }

  lemma SplitEnds(samples: seq<Sample>, b: Breaks, runs: seq<seq<nat>>, done: seq<Run>)
    requires SplitUpTo(samples, b, runs, done, |samples|)
    ensures runs == IndicesOf(RunsFrom(samples, b, 0))
  {
    assert done + [] == done;
  }

  /** `split_indices`: grow the current run, close it at a cut, keep it if it has two samples. */
  method SplitIndices(samples: seq<Sample>, b: Breaks) returns (runs: seq<seq<nat>>)
    ensures runs == IndicesOf(RunsFrom(samples, b, 0))
  {
    hide Cut, RunsFrom, SplitUpTo, Drawn;
    runs := [];
    var current: seq<nat> := [];
    ghost var start: nat, done: seq<Run> := 0, [];
    SplitStarts(samples, b);
    for index := 0 to |samples|
      invariant start <= index && (start < index || index == 0)
      invariant current == Run(start, index).Indices()
      invariant Uncut(samples, b, start, index)
      invariant SplitUpTo(samples, b, runs, done, start)
    {
      if index > 0 && Cut(samples, b, index) {
        SplitOneMore(samples, b, runs, done, Run(start, index));
        done := done + Drawn(Run(start, index));
        assert runs + [] == runs;
        if |current| > 1 {
          runs := runs + [current];
        }
        current := [];
        start := index;
      }
      current := current + [index];
    }
    if |samples| > 0 {
      SplitOneMore(samples, b, runs, done, Run(start, |samples|));
      done := done + Drawn(Run(start, |samples|));
      assert runs + [] == runs;
    }
    if |current| > 1 {
      runs := runs + [current];
    }
    SplitEnds(samples, b, runs, done);
  }

  /** Exactly the maximal runs of two or more samples are drawn. */
  lemma {:induction false} RunsAreMaximal(samples: seq<Sample>, b: Breaks, a: nat, run: Run)
    requires a <= |samples| && (a == 0 || a == |samples| || Cut(samples, b, a))
    ensures run in RunsFrom(samples, b, a)
       <==> a <= run.first && run.end - run.first > 1 && run.Maximal(samples, b)
    decreases |samples| - a
  {
    if a < |samples| {
      var end := RunEnd(samples, b, a + 1);
      RunsAreMaximal(samples, b, end, run);
      if run.Maximal(samples, b) {
        if run.first == a {
          RunEndIs(samples, b, a + 1, run.end);
        } else {
          assert a < run.first ==> run.first >= end;
        }
      }
    }
  }

  /** Runs from `a` on, each inside the samples and none overlapping a later one. */
  ghost predicate InOrder(samples: seq<Sample>, a: nat, runs: seq<Run>) {
    && (forall r :: 0 <= r < |runs| ==> a <= runs[r].first && runs[r].Within(samples))
    && forall r, s :: 0 <= r < s < |runs| ==> runs[r].end <= runs[s].first
  }

  lemma {:induction false} RunsAreInOrder(samples: seq<Sample>, b: Breaks, a: nat)
    requires a <= |samples|
    ensures InOrder(samples, a, RunsFrom(samples, b, a))
    decreases |samples| - a
  {
    if a < |samples| {
      var end := RunEnd(samples, b, a + 1);
      RunsAreInOrder(samples, b, end);
    }
  }

  ghost predicate IsDrawn(samples: seq<Sample>, b: Breaks, i: nat) {
    exists run :: run in RunsFrom(samples, b, 0) && i in run.Indices()
  }

  /** Cut off from both neighbours. */
  predicate Isolated(samples: seq<Sample>, b: Breaks, i: nat)
    requires i < |samples|
  {
    && (i == 0 || Cut(samples, b, i))
    && (i + 1 == |samples| || Cut(samples, b, i + 1))
  }

  lemma OnlyIsolatedSamplesAreDropped(samples: seq<Sample>, b: Breaks, i: nat)
    requires i < |samples|
    ensures IsDrawn(samples, b, i) <==> !Isolated(samples, b, i)
  {
    var own := Run(RunStart(samples, b, i), RunEnd(samples, b, i + 1));
    RunsAreMaximal(samples, b, 0, own);
    if !Isolated(samples, b, i) {
      assert own.first <= i < own.end && own.end - own.first > 1;
      assert own.Indices()[i - own.first] == i;
    }
    forall run | run in RunsFrom(samples, b, 0) && i in run.Indices()
      ensures !Isolated(samples, b, i)
    {
      RunsAreMaximal(samples, b, 0, run);
    }
  }

  // ----- Lines --------------------------------------------------------------------------

  function PointsAt(samples: seq<Sample>, indices: seq<nat>): (pts: seq<Point>)
    requires forall k :: 0 <= k < |indices| ==> indices[k] < |samples|
    ensures |pts| == |indices| && forall k :: 0 <= k < |pts| ==> pts[k] == At(samples[indices[k]])
  {
    seq(|indices|, k requires 0 <= k < |indices| => At(samples[indices[k]]))
  }

  /** One run simplified, as sample indices. */
  ghost function Line(samples: seq<Sample>, run: Run, toleranceM: real): (line: seq<nat>)
    requires run.Within(samples)
    ensures StrictlyIncreasing(line)
    ensures |line| > 0 && line[0] == run.first && line[|line| - 1] == run.end - 1
    ensures forall k :: 0 <= k < |line| ==> run.first <= line[k] < run.end
  {
    var pts := PointsAt(samples, run.Indices());
    var kept := KeptIndices(pts, toleranceM);
    KeptIndicesSpec(pts, toleranceM);
    Chosen(run.Indices(), kept)
  }

  /** Every drawn run simplified. */
  ghost function Lines(samples: seq<Sample>, runs: seq<Run>, toleranceM: real): (lines: seq<seq<nat>>)
    requires InOrder(samples, 0, runs)
    ensures |lines| == |runs| && forall r :: 0 <= r < |runs| ==> lines[r] == Line(samples, runs[r], toleranceM)
  {
    seq(|runs|, r requires 0 <= r < |runs| => Line(samples, runs[r], toleranceM))
  }

  ghost function PolylineIndices(samples: seq<Sample>, b: Breaks, toleranceM: real): seq<seq<nat>> {
    RunsAreInOrder(samples, b, 0);
    Lines(samples, RunsFrom(samples, b, 0), toleranceM)
  }

  ghost predicate Below(indices: seq<nat>, n: nat) {
    forall k :: 0 <= k < |indices| ==> indices[k] < n
  }

  /** What one turn of either drawing loop computes is the line, and it is never too short to draw. */
  lemma PolylineAt(samples: seq<Sample>, b: Breaks, toleranceM: real, r: nat)
    requires r < |RunsFrom(samples, b, 0)|
    ensures var (run, lines) := (RunsFrom(samples, b, 0)[r].Indices(), PolylineIndices(samples, b, toleranceM));
            && Below(run, |samples|) && r < |lines| && Below(lines[r], |samples|)
            && var pts := PointsAt(samples, run);
            var kept := KeptIndices(pts, toleranceM);
            && Below(kept, |run|) && |kept| > 1
            && Chosen(run, kept) == lines[r] && Chosen(pts, kept) == PointsAt(samples, lines[r])
  {
    RunsAreInOrder(samples, b, 0);
    var run := RunsFrom(samples, b, 0)[r];
    RunsAreMaximal(samples, b, 0, run);
    KeptIndicesSpec(PointsAt(samples, run.Indices()), toleranceM);
  }

  /** `build_polyline_indices`: the filter on short lines never drops one. */
  method BuildPolylineIndices(samples: seq<Sample>, b: Breaks, toleranceM: real) returns (lines: seq<seq<nat>>)
    ensures lines == PolylineIndices(samples, b, toleranceM)
  {
    hide KeptIndices;
    var split := SplitIndices(samples, b);
    lines := [];
    for r := 0 to |split|
      invariant r <= |PolylineIndices(samples, b, toleranceM)|
      invariant lines == PolylineIndices(samples, b, toleranceM)[..r]
    {
      PolylineAt(samples, b, toleranceM, r);
      var run := split[r];
      var points := PointsAt(samples, run);
      var at := SimplifyIndices(points, toleranceM);
      var kept := Chosen(run, at);
      if |kept| > 1 {
        lines := lines + [kept];
      }
    }
  }

  /** `simplify`: the kept points themselves. */
  method Simplify(points: seq<Point>, toleranceM: real) returns (kept: seq<Point>)
    ensures Below(KeptIndices(points, toleranceM), |points|)
    ensures kept == Chosen(points, KeptIndices(points, toleranceM))
  {
    var at := SimplifyIndices(points, toleranceM);
    KeptIndicesSpec(points, toleranceM);
    kept := Chosen(points, at);
  }

  /** Each point of the line has the latitude and the longitude of the sample it stands for. */
  ghost predicate Draws(samples: seq<Sample>, line: seq<Point>, indices: seq<nat>) {
    && Below(indices, |samples|) && |line| == |indices|
    && forall k :: 0 <= k < |line| ==> line[k] == Point(samples[indices[k]].lat, samples[indices[k]].lon)
  }

  /** `build_polylines` draws the points of exactly the lines `build_polyline_indices` names. */
  method BuildPolylines(samples: seq<Sample>, b: Breaks, toleranceM: real) returns (lines: seq<seq<Point>>)
    ensures |lines| == |PolylineIndices(samples, b, toleranceM)|
    ensures forall r :: 0 <= r < |lines| ==> Draws(samples, lines[r], PolylineIndices(samples, b, toleranceM)[r])
  {
    hide KeptIndices, Cut;
    var split := SplitIndices(samples, b);
    lines := [];
    for r := 0 to |split|
      invariant |lines| == r <= |PolylineIndices(samples, b, toleranceM)|
      invariant forall q :: 0 <= q < r ==> Draws(samples, lines[q], PolylineIndices(samples, b, toleranceM)[q])
    {
      PolylineAt(samples, b, toleranceM, r);
      var segment := PointsAt(samples, split[r]);
      var simplified := Simplify(segment, toleranceM);
      if |simplified| > 1 {
        lines := lines + [simplified];
      }
    }
  }

  /** No drawn segment crosses a cut: samples joined by a line have nothing cut between them. */
  lemma NoSegmentCrossesACut(samples: seq<Sample>, b: Breaks, toleranceM: real, r: nat, k: nat, cut: nat)
    requires r < |PolylineIndices(samples, b, toleranceM)|
    requires k + 1 < |PolylineIndices(samples, b, toleranceM)[r]|
    ensures var line := PolylineIndices(samples, b, toleranceM)[r];
            && line[k] < line[k + 1] < |samples|
            && (line[k] < cut <= line[k + 1] ==> !Cut(samples, b, cut))
  {
    RunsAreInOrder(samples, b, 0);
    RunsAreMaximal(samples, b, 0, RunsFrom(samples, b, 0)[r]);
  }

  /** The time from the sample before is known to be too long. */
  predicate IsLate(samples: seq<Sample>, maxGapS: real, i: nat)
    requires 0 < i < |samples|
  {
    match (samples[i - 1].seconds, samples[i].seconds)
    case (Some(before), Some(now)) => before + maxGapS < now
    case _ => false
  }

  /** A sample and the one before it are drawn on one line exactly when they are not too far apart in time,
      as far as both times are known, nor in place, and the pipeline has not marked the later one. */
  lemma JoinedIff(samples: seq<Sample>, b: Breaks, i: nat)
    requires 0 < i < |samples|
    ensures var (p, s) := (samples[i - 1], samples[i]);
            (exists run :: run in RunsFrom(samples, b, 0) && run.first < i < run.end)
            <==> && !IsLate(samples, b.maxGapS, i)
                 && b.metres(Point(p.lat, p.lon), Point(s.lat, s.lon)) <= b.maxJumpM
                 && (b.marks.Some? && i < |b.marks.value| ==> !b.marks.value[i])
  {
    if Cut(samples, b, i) {
      forall run | run in RunsFrom(samples, b, 0)
        ensures !(run.first < i < run.end)
      {
        RunsAreMaximal(samples, b, 0, run);
      }
    } else {
      var own := Run(RunStart(samples, b, i), RunEnd(samples, b, i + 1));
      assert own.first < i;
      RunsAreMaximal(samples, b, 0, own);
    }
  }
}
