/** What one tracker update computes, on values (backend/app/ai/tracker.py:138-332).

    The overlap of a track's predicted box with a detection is a parameter of each update, by
    track key: the motion filter and the best-frame choice are not part of this model. */
module TrackerModel {
  import opened GreedyMatch

  const HIGH_CONFIDENCE: real := 0.5
  const MATCH_IOU_HIGH: real := 0.25
  const MATCH_IOU_LOW: real := 0.15
  const DEFAULT_TRACK_BUFFER: int := 8

  datatype Detection = Detection(classLabel: string, confidence: real, x: real, y: real, w: real, h: real)

  /** One sighting. The source keeps the detection's fields other than its label. */
  datatype Sample = Sample(offset: real, detection: Detection)

  datatype TrackView = TrackView(
    key: nat, classLabel: string, first: real, last: real, frameCount: nat,
    confidenceMax: real, confidenceSum: real, misses: nat, samples: seq<Sample>)

  type Overlap = (nat, Detection) -> real

  // ----- One track ----------------------------------------------------------------------

  function Started(key: nat, d: Detection, offset: real): TrackView {
    TrackView(key, d.classLabel, offset, offset, 1, d.confidence, d.confidence, 0, [Sample(offset, d)])
  }

  function Absorbed(t: TrackView, d: Detection, offset: real): TrackView {
    t.(last := offset, frameCount := t.frameCount + 1,
       confidenceMax := if d.confidence > t.confidenceMax then d.confidence else t.confidenceMax,
       confidenceSum := t.confidenceSum + d.confidence, misses := 0,
       samples := t.samples + [Sample(offset, d)])
  }

  function Missed(t: TrackView): TrackView {
    t.(misses := t.misses + 1)
  }

  // ----- One association pass -----------------------------------------------------------

  /** Indices into the tracks, each at most once. */
  ghost predicate Candidates(tracks: seq<TrackView>, candidates: seq<nat>) {
    && (forall r :: 0 <= r < |candidates| ==> candidates[r] < |tracks|)
    && (forall q, r :: 0 <= q < r < |candidates| ==> candidates[q] != candidates[r])
  }

  /** The overlaps, with -1 wherever the classes differ. */
  function ScoresFor(tracks: seq<TrackView>, candidates: seq<nat>, detections: seq<Detection>, overlap: Overlap): Scores
    requires forall r :: 0 <= r < |candidates| ==> candidates[r] < |tracks|
  {
    Scores(|candidates|, |detections|,
      (r: nat, c: nat) =>
        if r < |candidates| && c < |detections| && tracks[candidates[r]].classLabel == detections[c].classLabel
        then overlap(tracks[candidates[r]].key, detections[c])
        else -1.0)
  }

  ghost predicate Fits(pairs: seq<Cell>, rows: nat, cols: nat) {
    forall k :: 0 <= k < |pairs| ==> pairs[k].0 < rows && pairs[k].1 < cols
  }

  /** Give each paired detection to its track. */
  ghost function AbsorbAll(tracks: seq<TrackView>, candidates: seq<nat>, detections: seq<Detection>,
                           pairs: seq<Cell>, offset: real): (absorbed: seq<TrackView>)
    requires Candidates(tracks, candidates) && Fits(pairs, |candidates|, |detections|)
    ensures |absorbed| == |tracks|
  {
    if pairs == [] then tracks
    else
      var rest := AbsorbAll(tracks, candidates, detections, pairs[..|pairs| - 1], offset);
      var (row, col) := pairs[|pairs| - 1];
      rest[candidates[row] := Absorbed(rest[candidates[row]], detections[col], offset)]
  }

  ghost function MatchedCols(pairs: seq<Cell>): set<nat> {
    if pairs == [] then {} else MatchedCols(pairs[..|pairs| - 1]) + {pairs[|pairs| - 1].1}
  }

  ghost function MatchedTracks(candidates: seq<nat>, pairs: seq<Cell>): set<nat>
    requires forall k :: 0 <= k < |pairs| ==> pairs[k].0 < |candidates|
  {
    if pairs == [] then {}
    else MatchedTracks(candidates, pairs[..|pairs| - 1]) + {candidates[pairs[|pairs| - 1].0]}
  }

  ghost function Elements(s: seq<nat>): (e: set<nat>)
    ensures forall i :: i in e <==> i in s
  {
    if s == [] then {}
    else
      assert s == s[..|s| - 1] + [s[|s| - 1]];
      Elements(s[..|s| - 1]) + {s[|s| - 1]}
  }

  /** The members of `s` below `n`, ascending. */
  ghost function Sorted(s: set<nat>, n: nat): (sorted: seq<nat>)
    ensures forall i :: i in sorted <==> i in s && i < n
    ensures forall q, r :: 0 <= q < r < |sorted| ==> sorted[q] < sorted[r]
  {
    if n == 0 then []
    else
      var rest := Sorted(s, n - 1);
      assert forall r :: 0 <= r < |rest| ==> rest[r] in rest;
      if n - 1 in s then rest + [n - 1] else rest
  }

  /** New tracks for the first `n` detections that no pair took. */
  ghost function StartAll(nextKey: nat, detections: seq<Detection>, taken: set<nat>, n: nat, offset: real): seq<TrackView>
    requires n <= |detections|
  {
    if n == 0 then []
    else
      var before := StartAll(nextKey, detections, taken, n - 1, offset);
      if n - 1 in taken then before else before + [Started(nextKey + |before|, detections[n - 1], offset)]
  }

  datatype Pass = Pass(tracks: seq<TrackView>, started: seq<TrackView>, unmatched: seq<nat>)

  ghost function Pairs(tracks: seq<TrackView>, candidates: seq<nat>, detections: seq<Detection>,
                       threshold: real, overlap: Overlap): (pairs: seq<Cell>)
    requires Candidates(tracks, candidates)
  {
    Matching(ScoresFor(tracks, candidates, detections, overlap), threshold)
  }

  /** `_associate`. */
  ghost function Associated(tracks: seq<TrackView>, nextKey: nat, candidates: seq<nat>, detections: seq<Detection>,
                            threshold: real, offset: real, overlap: Overlap, allowNew: bool): (pass: Pass)
    requires Candidates(tracks, candidates)
  {
    if detections == [] then Pass(tracks, [], candidates)
    else
      var pairs := Pairs(tracks, candidates, detections, threshold, overlap);
      PairsFit(tracks, candidates, detections, threshold, overlap);
      Pass(AbsorbAll(tracks, candidates, detections, pairs, offset),
           if allowNew then StartAll(nextKey, detections, MatchedCols(pairs), |detections|, offset) else [],
           Sorted(Elements(candidates) - MatchedTracks(candidates, pairs), |tracks|))
  }

  // ----- One update ---------------------------------------------------------------------

  function HighOf(detections: seq<Detection>): seq<Detection> {
    if detections == [] then []
    else
      var last := detections[|detections| - 1];
      var rest := HighOf(detections[..|detections| - 1]);
      if last.confidence >= HIGH_CONFIDENCE then rest + [last] else rest
  }

  function LowOf(detections: seq<Detection>): seq<Detection> {
    if detections == [] then []
    else
      var last := detections[|detections| - 1];
      var rest := LowOf(detections[..|detections| - 1]);
      if last.confidence < HIGH_CONFIDENCE then rest + [last] else rest
  }

  function Range(n: nat): (s: seq<nat>)
    ensures |s| == n && forall k :: 0 <= k < n ==> s[k] == k
  {
    if n == 0 then [] else Range(n - 1) + [n - 1]
  }

  ghost function MissAll(tracks: seq<TrackView>, unmatched: seq<nat>): (missed: seq<TrackView>)
    requires Candidates(tracks, unmatched)
    ensures |missed| == |tracks|
    ensures forall i :: 0 <= i < |tracks| ==> missed[i] == if i in unmatched then Missed(tracks[i]) else tracks[i]
  {
    seq(|tracks|, i requires 0 <= i < |tracks| => if i in unmatched then Missed(tracks[i]) else tracks[i])
  }

  ghost function Survivors(tracks: seq<TrackView>, buffer: int): seq<TrackView> {
    if tracks == [] then []
    else
      var last := tracks[|tracks| - 1];
      var rest := Survivors(tracks[..|tracks| - 1], buffer);
      if last.misses > buffer then rest else rest + [last]
  }

  ghost function Closed(tracks: seq<TrackView>, buffer: int): seq<TrackView> {
    if tracks == [] then []
    else
      var last := tracks[|tracks| - 1];
      var rest := Closed(tracks[..|tracks| - 1], buffer);
      if last.misses > buffer then rest + [last] else rest
  }

  ghost function WorthStoring(tracks: seq<TrackView>, minFrames: nat): seq<TrackView> {
    if tracks == [] then []
    else
      var last := tracks[|tracks| - 1];
      var rest := WorthStoring(tracks[..|tracks| - 1], minFrames);
      if last.frameCount >= minFrames then rest + [last] else rest
  }

  datatype Tracker = Tracker(active: seq<TrackView>, finished: seq<TrackView>, nextKey: nat, buffer: int)

  ghost function HighPass(s: Tracker, detections: seq<Detection>, offset: real, overlap: Overlap): (pass: Pass)
    ensures |pass.tracks| == |s.active|
    ensures Candidates(pass.tracks + pass.started, pass.unmatched)
    ensures forall i :: i in pass.unmatched ==> i < |s.active|
  {
    var range := Range(|s.active|);
    PassUnmatched(s.active, s.nextKey, range, HighOf(detections), MATCH_IOU_HIGH, offset, overlap, true);
    assert forall i :: i in range ==> i < |s.active|;
    Associated(s.active, s.nextKey, range, HighOf(detections), MATCH_IOU_HIGH, offset, overlap, true)
  }

  ghost function LowPass(s: Tracker, high: Pass, detections: seq<Detection>, offset: real, overlap: Overlap): (pass: Pass)
    requires Candidates(high.tracks + high.started, high.unmatched)
    ensures |pass.tracks| == |high.tracks| + |high.started| && pass.started == []
    ensures Candidates(pass.tracks, pass.unmatched)
    ensures forall i :: i in pass.unmatched ==> i in high.unmatched
  {
    var (tracks, nextKey) := (high.tracks + high.started, s.nextKey + |high.started|);
    PassUnmatched(tracks, nextKey, high.unmatched, LowOf(detections), MATCH_IOU_LOW, offset, overlap, false);
    Associated(tracks, nextKey, high.unmatched, LowOf(detections), MATCH_IOU_LOW, offset, overlap, false)
  }

  /** Every track after both passes, the unmatched ones marked missed. */
  ghost function Seen(s: Tracker, detections: seq<Detection>, offset: real, overlap: Overlap): (seen: seq<TrackView>)
    ensures |seen| == |s.active| + |HighPass(s, detections, offset, overlap).started|
  {
    var low := LowPass(s, HighPass(s, detections, offset, overlap), detections, offset, overlap);
    MissAll(low.tracks, low.unmatched)
  }

  /** `update`. */
  ghost function Updated(s: Tracker, detections: seq<Detection>, offset: real, overlap: Overlap): Tracker {
    var seen := Seen(s, detections, offset, overlap);
    Tracker(Survivors(seen, s.buffer), s.finished + Closed(seen, s.buffer),
            s.nextKey + |HighPass(s, detections, offset, overlap).started|, s.buffer)
  }

  // ----- Well-formedness of the passes --------------------------------------------------

  lemma PairsFit(tracks: seq<TrackView>, candidates: seq<nat>, detections: seq<Detection>,
                 threshold: real, overlap: Overlap)
    requires Candidates(tracks, candidates)
    ensures Fits(Pairs(tracks, candidates, detections, threshold, overlap), |candidates|, |detections|)
  {
    var s := ScoresFor(tracks, candidates, detections, overlap);
    GreedyStaysInside(s, threshold, UpTo(s.rows), UpTo(s.cols));
  }

  lemma {:induction false} GreedyStaysInside(s: Scores, threshold: real, rows: set<nat>, cols: set<nat>)
    ensures forall k :: 0 <= k < |Greedy(s, threshold, rows, cols)| ==>
              Greedy(s, threshold, rows, cols)[k].0 in rows && Greedy(s, threshold, rows, cols)[k].1 in cols
    decreases |rows|
  {
    if HasBest(s, threshold, rows, cols) {
      var p :| IsBest(s, threshold, rows, cols, p);
      BestIsUnique(s, threshold, rows, cols, p);
      GreedyStaysInside(s, threshold, rows - {p.0}, cols - {p.1});
    }
  }

  /** What a pass leaves unmatched is some of what it was given. */
  lemma PassUnmatched(tracks: seq<TrackView>, nextKey: nat, candidates: seq<nat>, detections: seq<Detection>,
                      threshold: real, offset: real, overlap: Overlap, allowNew: bool)
    requires Candidates(tracks, candidates)
    ensures var pass := Associated(tracks, nextKey, candidates, detections, threshold, offset, overlap, allowNew);
            && |pass.tracks| == |tracks| && (!allowNew ==> pass.started == [])
            && Candidates(pass.tracks, pass.unmatched)
            && forall i :: i in pass.unmatched ==> i in candidates
  {
    var pass := Associated(tracks, nextKey, candidates, detections, threshold, offset, overlap, allowNew);
    assert forall r :: 0 <= r < |pass.unmatched| ==> pass.unmatched[r] in pass.unmatched;
  }
}
