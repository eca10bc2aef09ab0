/** Which detection a track is given, in terms of overlap and class alone (backend/app/ai/tracker.py:201-281). */
module TrackerOverlap {
  import opened GreedyMatch
  import opened GreedyMatchLaws
  import opened TrackerModel
  import opened TrackerLaws

  /** The detection is of the track's class and overlaps it enough. */
  predicate Meets(t: TrackView, d: Detection, overlap: Overlap, threshold: real) {
    t.classLabel == d.classLabel && overlap(t.key, d) >= threshold
  }

  // ----- Pairs and what they do ---------------------------------------------------------

  lemma PairMeets(tracks: seq<TrackView>, candidates: seq<nat>, detections: seq<Detection>, threshold: real,
                  overlap: Overlap, k: nat)
    requires Candidates(tracks, candidates) && threshold > -1.0
    requires k < |Pairs(tracks, candidates, detections, threshold, overlap)|
    ensures var (row, col) := Pairs(tracks, candidates, detections, threshold, overlap)[k];
            row < |candidates| && col < |detections|
            && Meets(tracks[candidates[row]], detections[col], overlap, threshold)
  {
    hide Greedy;
    var s := ScoresFor(tracks, candidates, detections, overlap);
    PairsFit(tracks, candidates, detections, threshold, overlap);
    GreedyIsAMatching(s, threshold, UpTo(s.rows), UpTo(s.cols));
    assert Eligible(s, threshold, UpTo(s.rows), UpTo(s.cols), Pairs(tracks, candidates, detections, threshold, overlap)[k]);
  }

  /** Each pair gives its track its detection. */
  lemma {:induction false} PairIsGiven(tracks: seq<TrackView>, candidates: seq<nat>, detections: seq<Detection>,
                                       pairs: seq<Cell>, offset: real, k: nat)
    requires Candidates(tracks, candidates) && GoodPairs(tracks, candidates, detections, pairs) && k < |pairs|
    ensures var i := candidates[pairs[k].0];
            AbsorbAll(tracks, candidates, detections, pairs, offset)[i]
            == Absorbed(tracks[i], detections[pairs[k].1], offset)
  {
    var fewer, last := pairs[..|pairs| - 1], |pairs| - 1;
    GoodPrefix(tracks, candidates, detections, pairs);
    if k < last {
      PairIsGiven(tracks, candidates, detections, fewer, offset, k);
    } else {
      LastTrackIsNew(tracks, candidates, fewer, pairs[last].0);
      AbsorbAllAt(tracks, candidates, detections, fewer, offset, candidates[pairs[last].0]);
    }
  }

  lemma {:induction false} MatchedHasPair(candidates: seq<nat>, pairs: seq<Cell>, i: nat) returns (k: nat)
    requires forall k :: 0 <= k < |pairs| ==> pairs[k].0 < |candidates|
    requires i in MatchedTracks(candidates, pairs)
    ensures k < |pairs| && candidates[pairs[k].0] == i
  {
    if i in MatchedTracks(candidates, pairs[..|pairs| - 1]) {
      k := MatchedHasPair(candidates, pairs[..|pairs| - 1], i);
    } else {
      k := |pairs| - 1;
    }
  }

  // ----- One pass -----------------------------------------------------------------------

  /** `after` is `before` with a detection that meets the threshold. */
  ghost predicate IsGiven(before: TrackView, after: TrackView, detections: seq<Detection>, offset: real,
                          overlap: Overlap, threshold: real) {
    exists d :: d in detections && Meets(before, d, overlap, threshold) && after == Absorbed(before, d, offset)
  }

  /** A pass gives a track only a detection of its class that overlaps it enough, and leaves every track it gives
      none as it was. */
  lemma PassGivesOverlapping(tracks: seq<TrackView>, nextKey: nat, candidates: seq<nat>, detections: seq<Detection>,
                             threshold: real, offset: real, overlap: Overlap, allowNew: bool, i: nat)
    requires Candidates(tracks, candidates) && threshold > -1.0 && i < |tracks|
    ensures var pass := Associated(tracks, nextKey, candidates, detections, threshold, offset, overlap, allowNew);
            && |pass.tracks| == |tracks|
            && if i in candidates && i !in pass.unmatched
               then IsGiven(tracks[i], pass.tracks[i], detections, offset, overlap, threshold)
               else pass.tracks[i] == tracks[i]
  {
    PassMoves(tracks, nextKey, candidates, detections, threshold, offset, overlap, allowNew, i);
    if detections != [] {
      var pairs := Pairs(tracks, candidates, detections, threshold, overlap);
      PairsAreGood(tracks, candidates, detections, threshold, overlap);
      if i in MatchedTracks(candidates, pairs) {
        var k := MatchedHasPair(candidates, pairs, i);
        PairIsGiven(tracks, candidates, detections, pairs, offset, k);
        PairMeets(tracks, candidates, detections, threshold, overlap, k);
        assert detections[pairs[k].1] in detections;
      }
    }
  }

  /** The pass gives track `i` of the candidates detection `c`. */
  ghost predicate Gives(tracks: seq<TrackView>, pass: Pass, detections: seq<Detection>, offset: real, i: nat, c: nat) {
    && i < |tracks| == |pass.tracks| && c < |detections|
    && i !in pass.unmatched && pass.tracks[i] == Absorbed(tracks[i], detections[c], offset)
  }

  /** A candidate and a detection that meet the threshold are paired, or lose to a pair with the same track or the
      same detection that overlaps at least as much. */
  lemma OverlappingIsGivenOrLoses(tracks: seq<TrackView>, nextKey: nat, candidates: seq<nat>, detections: seq<Detection>,
                                  threshold: real, offset: real, overlap: Overlap, allowNew: bool, i: nat, c: nat)
      returns (j: nat, d: nat)
    requires Candidates(tracks, candidates) && threshold > -1.0 && i in candidates && c < |detections|
    requires i < |tracks| && Meets(tracks[i], detections[c], overlap, threshold)
    ensures j in candidates && (j == i || d == c)
    ensures var pass := Associated(tracks, nextKey, candidates, detections, threshold, offset, overlap, allowNew);
            && Gives(tracks, pass, detections, offset, j, d)
            && tracks[j].classLabel == detections[d].classLabel
            && overlap(tracks[j].key, detections[d]) >= overlap(tracks[i].key, detections[c])
  {
    var s, pairs := ScoresFor(tracks, candidates, detections, overlap),
                    Pairs(tracks, candidates, detections, threshold, overlap);
    var r: nat :| r < |candidates| && candidates[r] == i;
    var k := EligiblePairIsBlocked(s, threshold, UpTo(s.rows), UpTo(s.cols), (r, c));
    PairMeets(tracks, candidates, detections, threshold, overlap, k);
    PairsAreGood(tracks, candidates, detections, threshold, overlap);
    j, d := candidates[pairs[k].0], pairs[k].1;
    PairIsGiven(tracks, candidates, detections, pairs, offset, k);
    PairIsMatched(candidates, pairs, k);
  }

  lemma {:induction false} PairIsMatched(candidates: seq<nat>, pairs: seq<Cell>, k: nat)
    requires (forall k :: 0 <= k < |pairs| ==> pairs[k].0 < |candidates|) && k < |pairs|
    ensures candidates[pairs[k].0] in MatchedTracks(candidates, pairs)
  {
    if k < |pairs| - 1 {
      PairIsMatched(candidates, pairs[..|pairs| - 1], k);
    }
  }

  // ----- One update ---------------------------------------------------------------------

  /** The tracker holds the track, still open or closed. */
  ghost predicate Holds(s: Tracker, t: TrackView) {
    t in s.active || t in s.finished
  }

  lemma {:induction false} PartsHoldAll(tracks: seq<TrackView>, buffer: int, i: nat)
    requires i < |tracks|
    ensures tracks[i] in Survivors(tracks, buffer) || tracks[i] in Closed(tracks, buffer)
  {
    if i < |tracks| - 1 {
      PartsHoldAll(tracks[..|tracks| - 1], buffer, i);
    }
  }

  lemma SeenIsHeld(s: Tracker, detections: seq<Detection>, offset: real, overlap: Overlap, i: nat)
    requires i < |Seen(s, detections, offset, overlap)|
    ensures Holds(Updated(s, detections, offset, overlap), Seen(s, detections, offset, overlap)[i])
  {
    hide Seen, HighPass, Survivors, Closed;
    PartsHoldAll(Seen(s, detections, offset, overlap), s.buffer, i);
  }

  /** What the second pass and the misses make of a track of the first. */
  lemma LowPassGives(s: Tracker, high: Pass, detections: seq<Detection>, offset: real, overlap: Overlap, i: nat)
    requires Candidates(high.tracks + high.started, high.unmatched) && i < |high.tracks| + |high.started|
    ensures var tracks := high.tracks + high.started;
            var low := LowPass(s, high, detections, offset, overlap);
            var after := MissAll(low.tracks, low.unmatched)[i];
            || (i !in high.unmatched && after == tracks[i])
            || (i in high.unmatched && IsGiven(tracks[i], after, LowOf(detections), offset, overlap, MATCH_IOU_LOW))
            || (i in high.unmatched && after == Missed(tracks[i]))
  {
    hide IsGiven;
    PassGivesOverlapping(high.tracks + high.started, s.nextKey + |high.started|, high.unmatched, LowOf(detections),
                         MATCH_IOU_LOW, offset, overlap, false, i);
  }

  lemma HighPassGives(s: Tracker, detections: seq<Detection>, offset: real, overlap: Overlap, i: nat)
    requires i < |s.active|
    ensures var high := HighPass(s, detections, offset, overlap);
            if i !in high.unmatched
            then IsGiven(s.active[i], high.tracks[i], HighOf(detections), offset, overlap, MATCH_IOU_HIGH)
            else high.tracks[i] == s.active[i]
  {
    hide IsGiven;
    assert Range(|s.active|)[i] == i;
    PassGivesOverlapping(s.active, s.nextKey, Range(|s.active|), HighOf(detections), MATCH_IOU_HIGH, offset, overlap,
                         true, i);
  }

  /** An update misses an active track, or gives it a detection of its class: a confident one that overlaps it by
      0.25 or more, or another that overlaps it by 0.15 or more. */
  lemma UpdateGivesOverlapping(s: Tracker, detections: seq<Detection>, offset: real, overlap: Overlap, i: nat)
      returns (after: TrackView)
    requires i < |s.active|
    ensures Holds(Updated(s, detections, offset, overlap), after)
    ensures || after == Missed(s.active[i])
            || IsGiven(s.active[i], after, HighOf(detections), offset, overlap, MATCH_IOU_HIGH)
            || IsGiven(s.active[i], after, LowOf(detections), offset, overlap, MATCH_IOU_LOW)
  {
    hide IsGiven, LowPass, MissAll, HighPass, HighOf, LowOf;
    var high := HighPass(s, detections, offset, overlap);
    HighPassGives(s, detections, offset, overlap, i);
    LowPassGives(s, high, detections, offset, overlap, i);
    SeenIsHeld(s, detections, offset, overlap, i);
    after := Seen(s, detections, offset, overlap)[i];
    assert (high.tracks + high.started)[i] == high.tracks[i];
  }

  /** A confident detection and an active track that meet 0.25 are put together, or lose to a pair with the same
      track or detection that overlaps at least as much; the update holds that pair's track with its detection. */
  lemma ConfidentOverlapIsGivenOrLoses(s: Tracker, detections: seq<Detection>, offset: real, overlap: Overlap, i: nat,
                                       c: nat) returns (j: nat, d: nat)
    requires i < |s.active| && c < |HighOf(detections)|
    requires Meets(s.active[i], HighOf(detections)[c], overlap, MATCH_IOU_HIGH)
    ensures j < |s.active| && d < |HighOf(detections)| && (j == i || d == c)
    ensures s.active[j].classLabel == HighOf(detections)[d].classLabel
    ensures overlap(s.active[j].key, HighOf(detections)[d]) >= overlap(s.active[i].key, HighOf(detections)[c])
    ensures Holds(Updated(s, detections, offset, overlap), Absorbed(s.active[j], HighOf(detections)[d], offset))
  {
    hide LowPass, MissAll, HighOf, LowOf, Updated;
    var high := HighPass(s, detections, offset, overlap);
    assert Range(|s.active|)[i] == i;
    j, d := OverlappingIsGivenOrLoses(s.active, s.nextKey, Range(|s.active|), HighOf(detections), MATCH_IOU_HIGH, offset,
                                      overlap, true, i, c);
    LowPassGives(s, high, detections, offset, overlap, j);
    SeenIsHeld(s, detections, offset, overlap, j);
    assert (high.tracks + high.started)[j] == high.tracks[j];
  }

  /** The track is given no confident detection. */
  ghost predicate LeftOver(s: Tracker, detections: seq<Detection>, offset: real, overlap: Overlap, i: nat) {
    i in HighPass(s, detections, offset, overlap).unmatched
  }

  /** A track is left over exactly when the first pass leaves it as it was. */
  lemma LeftOverIff(s: Tracker, detections: seq<Detection>, offset: real, overlap: Overlap, i: nat)
    requires i < |s.active|
    ensures LeftOver(s, detections, offset, overlap, i) ==>
              HighPass(s, detections, offset, overlap).tracks[i] == s.active[i]
    ensures !LeftOver(s, detections, offset, overlap, i) ==>
              IsGiven(s.active[i], HighPass(s, detections, offset, overlap).tracks[i], HighOf(detections), offset, overlap,
                      MATCH_IOU_HIGH)
  {
    hide IsGiven, HighPass;
    HighPassGives(s, detections, offset, overlap, i);
  }

  /** Among the tracks left over, the same for the other detections at 0.15. */
  lemma FaintOverlapIsGivenOrLoses(s: Tracker, detections: seq<Detection>, offset: real, overlap: Overlap, i: nat, c: nat)
      returns (j: nat, d: nat)
    requires i < |s.active| && c < |LowOf(detections)| && LeftOver(s, detections, offset, overlap, i)
    requires Meets(s.active[i], LowOf(detections)[c], overlap, MATCH_IOU_LOW)
    ensures j < |s.active| && d < |LowOf(detections)| && (j == i || d == c)
    ensures LeftOver(s, detections, offset, overlap, j) && s.active[j].classLabel == LowOf(detections)[d].classLabel
    ensures overlap(s.active[j].key, LowOf(detections)[d]) >= overlap(s.active[i].key, LowOf(detections)[c])
    ensures Holds(Updated(s, detections, offset, overlap), Absorbed(s.active[j], LowOf(detections)[d], offset))
  {
    hide HighOf, LowOf, HighPass, Updated, IsGiven;
    var high := HighPass(s, detections, offset, overlap);
    var tracks := high.tracks + high.started;
    HighPassGives(s, detections, offset, overlap, i);
    assert tracks[i] == high.tracks[i];
    j, d := OverlappingIsGivenOrLoses(tracks, s.nextKey + |high.started|, high.unmatched, LowOf(detections), MATCH_IOU_LOW,
                                      offset, overlap, false, i, c);
    HighPassGives(s, detections, offset, overlap, j);
    assert tracks[j] == high.tracks[j];
    SeenIsHeld(s, detections, offset, overlap, j);
  }
}
