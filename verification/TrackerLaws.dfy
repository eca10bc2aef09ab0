/** What every tracker update keeps, and what whole runs guarantee (backend/app/ai/tracker.py:201-332). */
module TrackerLaws {
  import opened GreedyMatch
  import opened GreedyMatchLaws
  import opened TrackerModel

  // ----- What a pass does to each track -------------------------------------------------

  /** `after` is `before` with one of the detections, of its own class, added. */
  ghost predicate Continues(before: TrackView, after: TrackView, detections: seq<Detection>, offset: real) {
    exists d :: d in detections && d.classLabel == before.classLabel && after == Absorbed(before, d, offset)
  }

  ghost predicate IsNew(t: TrackView, key: nat, detections: seq<Detection>, offset: real) {
    exists d :: d in detections && t == Started(key, d, offset)
  }

  /** Pairs of distinct rows and columns whose classes agree. */
  ghost predicate GoodPairs(tracks: seq<TrackView>, candidates: seq<nat>, detections: seq<Detection>, pairs: seq<Cell>)
    requires Candidates(tracks, candidates)
  {
    && Fits(pairs, |candidates|, |detections|) && Injective(pairs)
    && forall k :: 0 <= k < |pairs| ==>
         tracks[candidates[pairs[k].0]].classLabel == detections[pairs[k].1].classLabel
  }

  lemma PairsAreGood(tracks: seq<TrackView>, candidates: seq<nat>, detections: seq<Detection>,
                     threshold: real, overlap: Overlap)
    requires Candidates(tracks, candidates) && threshold > -1.0
    ensures GoodPairs(tracks, candidates, detections, Pairs(tracks, candidates, detections, threshold, overlap))
  {
    var s := ScoresFor(tracks, candidates, detections, overlap);
    PairsFit(tracks, candidates, detections, threshold, overlap);
    GreedyIsAMatching(s, threshold, UpTo(s.rows), UpTo(s.cols));
  }

  lemma GoodPrefix(tracks: seq<TrackView>, candidates: seq<nat>, detections: seq<Detection>, pairs: seq<Cell>)
    requires Candidates(tracks, candidates) && GoodPairs(tracks, candidates, detections, pairs) && pairs != []
    ensures GoodPairs(tracks, candidates, detections, pairs[..|pairs| - 1])
  {
  }

  lemma {:induction false} LastTrackIsNew(tracks: seq<TrackView>, candidates: seq<nat>, pairs: seq<Cell>, row: nat)
    requires Candidates(tracks, candidates) && row < |candidates|
    requires forall k :: 0 <= k < |pairs| ==> pairs[k].0 < |candidates| && pairs[k].0 != row
    ensures candidates[row] !in MatchedTracks(candidates, pairs)
  {
    if pairs != [] {
      LastTrackIsNew(tracks, candidates, pairs[..|pairs| - 1], row);
    }
  }

  /** A matched track gains its detection, once; every other track is left as it was. */
  lemma {:induction false} AbsorbAllAt(tracks: seq<TrackView>, candidates: seq<nat>, detections: seq<Detection>,
                                       pairs: seq<Cell>, offset: real, i: nat)
    requires Candidates(tracks, candidates) && GoodPairs(tracks, candidates, detections, pairs) && i < |tracks|
    ensures var absorbed := AbsorbAll(tracks, candidates, detections, pairs, offset);
            if i in MatchedTracks(candidates, pairs) then Continues(tracks[i], absorbed[i], detections, offset)
            else absorbed[i] == tracks[i]
  {
    if pairs != [] {
      GoodPrefix(tracks, candidates, detections, pairs);
      AbsorbAllAt(tracks, candidates, detections, pairs[..|pairs| - 1], offset, i);
      var (row, col) := pairs[|pairs| - 1];
      LastTrackIsNew(tracks, candidates, pairs[..|pairs| - 1], row);
      if candidates[row] == i {
        assert detections[col] in detections;
      }
    }
  }

  lemma {:induction false} StartAllAt(nextKey: nat, detections: seq<Detection>, taken: set<nat>, n: nat, offset: real,
                                     k: nat)
    requires n <= |detections| && k < |StartAll(nextKey, detections, taken, n, offset)|
    ensures IsNew(StartAll(nextKey, detections, taken, n, offset)[k], nextKey + k, detections, offset)
  {
    var before := StartAll(nextKey, detections, taken, n - 1, offset);
    if k < |before| {
      StartAllAt(nextKey, detections, taken, n - 1, offset, k);
    } else {
      assert detections[n - 1] in detections;
    }
  }

  lemma PassMoves(tracks: seq<TrackView>, nextKey: nat, candidates: seq<nat>, detections: seq<Detection>,
                  threshold: real, offset: real, overlap: Overlap, allowNew: bool, i: nat)
    requires Candidates(tracks, candidates) && threshold > -1.0 && i < |tracks|
    ensures var pass := Associated(tracks, nextKey, candidates, detections, threshold, offset, overlap, allowNew);
            && |pass.tracks| == |tracks|
            && if i in candidates && i !in pass.unmatched then Continues(tracks[i], pass.tracks[i], detections, offset)
               else pass.tracks[i] == tracks[i]
  {
    if detections != [] {
      var pairs := Pairs(tracks, candidates, detections, threshold, overlap);
      PairsAreGood(tracks, candidates, detections, threshold, overlap);
      AbsorbAllAt(tracks, candidates, detections, pairs, offset, i);
      MatchedAreCandidates(candidates, pairs);
    }
  }

  lemma {:induction false} MatchedAreCandidates(candidates: seq<nat>, pairs: seq<Cell>)
    requires forall k :: 0 <= k < |pairs| ==> pairs[k].0 < |candidates|
    ensures MatchedTracks(candidates, pairs) <= Elements(candidates)
  {
    if pairs != [] {
      MatchedAreCandidates(candidates, pairs[..|pairs| - 1]);
      assert candidates[pairs[|pairs| - 1].0] in candidates;
    }
  }

  // ----- What an update does to each track ----------------------------------------------

  lemma {:induction false} PartsOf(detections: seq<Detection>)
    ensures forall d :: d in HighOf(detections) <==> d in detections && d.confidence >= HIGH_CONFIDENCE
    ensures forall d :: d in LowOf(detections) <==> d in detections && d.confidence < HIGH_CONFIDENCE
  {
    if detections != [] {
      PartsOf(detections[..|detections| - 1]);
      assert detections == detections[..|detections| - 1] + [detections[|detections| - 1]];
    }
  }

  /** Every detection goes to one of the two passes, as often as it was made. */
  lemma {:induction false} PartsAddUp(detections: seq<Detection>)
    ensures multiset(HighOf(detections)) + multiset(LowOf(detections)) == multiset(detections)
  {
    if detections != [] {
      PartsAddUp(detections[..|detections| - 1]);
      assert detections == detections[..|detections| - 1] + [detections[|detections| - 1]];
    }
  }

  /** What the second pass and the misses do to one track of the first. */
  lemma LowPassMoves(s: Tracker, high: Pass, detections: seq<Detection>, offset: real, overlap: Overlap, i: nat)
    requires Candidates(high.tracks + high.started, high.unmatched) && i < |high.tracks| + |high.started|
    ensures var tracks := high.tracks + high.started;
            var low := LowPass(s, high, detections, offset, overlap);
            var after := MissAll(low.tracks, low.unmatched)[i];
            || (i !in high.unmatched && after == tracks[i])
            || (i in high.unmatched && Continues(tracks[i], after, LowOf(detections), offset))
            || (i in high.unmatched && after == Missed(tracks[i]))
  {
    PassMoves(high.tracks + high.started, s.nextKey + |high.started|, high.unmatched, LowOf(detections),
              MATCH_IOU_LOW, offset, overlap, false, i);
  }

  /** A track that was active gains one sample of its own class or is missed once. */
  lemma ActiveTrackMoves(s: Tracker, detections: seq<Detection>, offset: real, overlap: Overlap, i: nat)
    requires i < |s.active|
    ensures var after := Seen(s, detections, offset, overlap)[i];
            Continues(s.active[i], after, detections, offset) || after == Missed(s.active[i])
  {
    var high := HighPass(s, detections, offset, overlap);
    assert Range(|s.active|)[i] == i;
    PartsOf(detections);
    PassMoves(s.active, s.nextKey, Range(|s.active|), HighOf(detections), MATCH_IOU_HIGH, offset, overlap, true, i);
    LowPassMoves(s, high, detections, offset, overlap, i);
  }

  lemma HighPassStarts(s: Tracker, detections: seq<Detection>, offset: real, overlap: Overlap, k: nat)
    requires k < |HighPass(s, detections, offset, overlap).started|
    ensures IsNew(HighPass(s, detections, offset, overlap).started[k], s.nextKey + k, HighOf(detections), offset)
  {
    var pairs := Pairs(s.active, Range(|s.active|), HighOf(detections), MATCH_IOU_HIGH, overlap);
    StartAllAt(s.nextKey, HighOf(detections), MatchedCols(pairs), |HighOf(detections)|, offset, k);
  }

  /** Only a high-confidence detection starts a track. */
  lemma NewTracksAreHigh(s: Tracker, detections: seq<Detection>, offset: real, overlap: Overlap, k: nat)
    requires |s.active| + k < |Seen(s, detections, offset, overlap)|
    ensures IsNew(Seen(s, detections, offset, overlap)[|s.active| + k], s.nextKey + k, HighOf(detections), offset)
  {
    hide HighPass, LowPass, MissAll, IsNew, Candidates;
    var high, i := HighPass(s, detections, offset, overlap), |s.active| + k;
    HighPassStarts(s, detections, offset, overlap, k);
    assert i !in high.unmatched;
    assert (high.tracks + high.started)[i] == high.started[k];
    UntouchedByLowPass(s, high, detections, offset, overlap, i);
  }

  lemma UntouchedByLowPass(s: Tracker, high: Pass, detections: seq<Detection>, offset: real, overlap: Overlap, i: nat)
    requires Candidates(high.tracks + high.started, high.unmatched) && i < |high.tracks| + |high.started|
    requires i !in high.unmatched
    ensures var low := LowPass(s, high, detections, offset, overlap);
            MissAll(low.tracks, low.unmatched)[i] == (high.tracks + high.started)[i]
  {
    LowPassMoves(s, high, detections, offset, overlap, i);
  }

  ghost predicate Moves(before: TrackView, after: TrackView, detections: seq<Detection>, offset: real) {
    Continues(before, after, detections, offset) || after == Missed(before)
  }

  /** The old tracks, each moved on once, then the new ones, numbered on from the next key. */
  ghost predicate SeenFrom(s: Tracker, detections: seq<Detection>, offset: real, seen: seq<TrackView>) {
    && |seen| >= |s.active|
    && (forall i :: 0 <= i < |s.active| ==> Moves(s.active[i], seen[i], detections, offset))
    && (forall i :: |s.active| <= i < |seen| ==>
          IsNew(seen[i], s.nextKey + (i - |s.active|), HighOf(detections), offset))
  }

  /** `after` keeps the tracks the buffer allows and closes the others. */
  ghost predicate Steps(s: Tracker, detections: seq<Detection>, offset: real, seen: seq<TrackView>, after: Tracker) {
    && SeenFrom(s, detections, offset, seen)
    && after == Tracker(Survivors(seen, s.buffer), s.finished + Closed(seen, s.buffer),
                        s.nextKey + (|seen| - |s.active|), s.buffer)
  }

  lemma NewTrackAt(s: Tracker, detections: seq<Detection>, offset: real, overlap: Overlap, i: nat, k: nat)
    requires i == |s.active| + k < |Seen(s, detections, offset, overlap)|
    ensures IsNew(Seen(s, detections, offset, overlap)[i], s.nextKey + k, HighOf(detections), offset)
  {
    hide *;
    NewTracksAreHigh(s, detections, offset, overlap, k);
  }

  lemma SeenIsFrom(s: Tracker, detections: seq<Detection>, offset: real, overlap: Overlap)
    ensures SeenFrom(s, detections, offset, Seen(s, detections, offset, overlap))
  {
    var seen := Seen(s, detections, offset, overlap);
    forall i | 0 <= i < |s.active|
      ensures Moves(s.active[i], seen[i], detections, offset)
    {
      ActiveTrackMoves(s, detections, offset, overlap, i);
    }
    forall i | |s.active| <= i < |seen|
      ensures IsNew(seen[i], s.nextKey + (i - |s.active|), HighOf(detections), offset)
    {
      NewTrackAt(s, detections, offset, overlap, i, i - |s.active|);
    }
  }

  /** What an update does to every track. */
  lemma UpdateSteps(s: Tracker, detections: seq<Detection>, offset: real, overlap: Overlap) returns (seen: seq<TrackView>)
    ensures Steps(s, detections, offset, seen, Updated(s, detections, offset, overlap))
  {
    seen := Seen(s, detections, offset, overlap);
    SeenIsFrom(s, detections, offset, overlap);
  }

  // ----- Every high detection is one sample, in one track -------------------------------

  ghost function SampleBag(tracks: seq<TrackView>): multiset<Sample> {
    if tracks == [] then multiset{}
    else SampleBag(tracks[..|tracks| - 1]) + multiset(tracks[|tracks| - 1].samples)
  }

  ghost function SamplesOf(detections: seq<Detection>, offset: real): multiset<Sample> {
    if detections == [] then multiset{}
    else SamplesOf(detections[..|detections| - 1], offset) + multiset{Sample(offset, detections[|detections| - 1])}
  }

  lemma Regrouped<T>(a: multiset<T>, b: multiset<T>, c: multiset<T>)
    ensures (a + b) + c == a + (b + c) == (a + c) + b
  {
  }

  lemma BothMore<T>(a: multiset<T>, b: multiset<T>, x: multiset<T>, y: multiset<T>)
    requires a <= b && x <= y
    ensures a + x <= b + y
  {
  }

  lemma NothingMore<T>(a: multiset<T>)
    ensures a + multiset{} == a
  {
  }

  lemma SampleBagOfOneMore(tracks: seq<TrackView>, t: TrackView)
    ensures SampleBag(tracks + [t]) == SampleBag(tracks) + multiset(t.samples)
  {
    assert (tracks + [t])[..|tracks|] == tracks;
  }

  lemma SampleBagOfNone()
    ensures SampleBag([]) == multiset{}
  {
  }

  lemma {:induction false} SampleBagOfConcat(a: seq<TrackView>, b: seq<TrackView>)
    ensures SampleBag(a + b) == SampleBag(a) + SampleBag(b)
  {
    hide SampleBag;
    if b == [] {
      assert a + b == a;
      SampleBagOfNone();
      NothingMore(SampleBag(a));
    } else {
      var front, last := b[..|b| - 1], b[|b| - 1];
      SampleBagOfConcat(a, front);
      assert b == front + [last] && a + b == (a + front) + [last];
      SampleBagOfOneMore(a + front, last);
      SampleBagOfOneMore(front, last);
      Regrouped(SampleBag(a), SampleBag(front), multiset(last.samples));
    }
  }

  lemma SampleBagOfUpdate(tracks: seq<TrackView>, i: nat, t: TrackView, x: Sample)
    requires i < |tracks| && t.samples == tracks[i].samples + [x]
    ensures SampleBag(tracks[i := t]) == SampleBag(tracks) + multiset{x}
  {
    hide SampleBag;
    var before, old_, after := tracks[..i], tracks[i], tracks[i + 1..];
    assert tracks == (before + [old_]) + after && tracks[i := t] == (before + [t]) + after;
    SampleBagOfConcat(before + [old_], after);
    SampleBagOfConcat(before + [t], after);
    SampleBagOfOneMore(before, old_);
    SampleBagOfOneMore(before, t);
    Regrouped(SampleBag(before), multiset(old_.samples), multiset{x});
    Regrouped(SampleBag(before + [old_]), multiset{x}, SampleBag(after));
  }

  /** The samples of the detections whose index is in `cols`, or, among the first `n`, outside it. */
  ghost function Inside(detections: seq<Detection>, cols: set<nat>, n: nat, offset: real): multiset<Sample>
    requires n <= |detections|
  {
    if n == 0 then multiset{}
    else Inside(detections, cols, n - 1, offset) + SampleIf(n - 1 in cols, detections[n - 1], offset)
  }

  ghost function SampleIf(counts: bool, d: Detection, offset: real): multiset<Sample> {
    if counts then multiset{Sample(offset, d)} else multiset{}
  }

  lemma SampleIfNot(d: Detection, offset: real)
    ensures SampleIf(false, d, offset) == multiset{}
  {
  }

  lemma NoneInside(detections: seq<Detection>, cols: set<nat>, offset: real)
    ensures Inside(detections, cols, 0, offset) == multiset{}
  {
  }

  lemma OneMoreInside(detections: seq<Detection>, cols: set<nat>, n: nat, offset: real)
    requires 0 < n <= |detections|
    ensures Inside(detections, cols, n, offset)
         == Inside(detections, cols, n - 1, offset) + SampleIf(n - 1 in cols, detections[n - 1], offset)
  {
  }

  lemma {:induction false} InsideWithOneMore(detections: seq<Detection>, cols: set<nat>, c: nat, n: nat, offset: real)
    requires n <= |detections| && c < |detections| && c !in cols
    ensures Inside(detections, cols + {c}, n, offset)
         == Inside(detections, cols, n, offset) + SampleIf(c < n, detections[c], offset)
  {
    hide Inside, SampleIf;
    if n == 0 {
      NoneInside(detections, cols, offset);
      NoneInside(detections, cols + {c}, offset);
      SampleIfNot(detections[c], offset);
      NothingMore(Inside(detections, cols, 0, offset));
    } else {
      InsideWithOneMore(detections, cols, c, n - 1, offset);
      OneMoreInside(detections, cols, n, offset);
      OneMoreInside(detections, cols + {c}, n, offset);
      if c == n - 1 {
        SampleIfNot(detections[c], offset);
        NothingMore(Inside(detections, cols, n - 1, offset));
      } else {
        Regrouped(Inside(detections, cols, n - 1, offset), SampleIf(c < n - 1, detections[c], offset),
                  SampleIf(n - 1 in cols, detections[n - 1], offset));
      }
    }
  }

  lemma {:induction false} ColsArePairs(pairs: seq<Cell>, c: nat)
    requires c in MatchedCols(pairs)
    ensures exists k :: 0 <= k < |pairs| && pairs[k].1 == c
  {
    if c in MatchedCols(pairs[..|pairs| - 1]) {
      ColsArePairs(pairs[..|pairs| - 1], c);
    } else {
      assert pairs[|pairs| - 1].1 == c;
    }
  }

  lemma {:induction false} AbsorbedSamples(tracks: seq<TrackView>, candidates: seq<nat>, detections: seq<Detection>,
                                           pairs: seq<Cell>, offset: real)
    requires Candidates(tracks, candidates) && GoodPairs(tracks, candidates, detections, pairs)
    ensures SampleBag(AbsorbAll(tracks, candidates, detections, pairs, offset))
         == SampleBag(tracks) + Inside(detections, MatchedCols(pairs), |detections|, offset)
  {
    if pairs == [] {
      NothingInside(detections, |detections|, offset);
    } else {
      var fewer := pairs[..|pairs| - 1];
      var (row, col) := pairs[|pairs| - 1];
      GoodPrefix(tracks, candidates, detections, pairs);
      AbsorbedSamples(tracks, candidates, detections, fewer, offset);
      var rest := AbsorbAll(tracks, candidates, detections, fewer, offset);
      SampleBagOfUpdate(rest, candidates[row], Absorbed(rest[candidates[row]], detections[col], offset),
                        Sample(offset, detections[col]));
      if col in MatchedCols(fewer) {
        ColsArePairs(fewer, col);
        assert false;
      }
      InsideWithOneMore(detections, MatchedCols(fewer), col, |detections|, offset);
    }
  }

  lemma {:induction false} NothingInside(detections: seq<Detection>, n: nat, offset: real)
    requires n <= |detections|
    ensures Inside(detections, {}, n, offset) == multiset{}
  {
    if n > 0 {
      NothingInside(detections, n - 1, offset);
    }
  }

  lemma SamplesOfPrefix(detections: seq<Detection>, n: nat, offset: real)
    requires 0 < n <= |detections|
    ensures SamplesOf(detections[..n], offset)
         == SamplesOf(detections[..n - 1], offset) + SampleIf(true, detections[n - 1], offset)
  {
    assert detections[..n][..n - 1] == detections[..n - 1];
  }

  lemma NoSamples(nextKey: nat, detections: seq<Detection>, taken: set<nat>, offset: real)
    ensures SampleBag(StartAll(nextKey, detections, taken, 0, offset)) == SamplesOf(detections[..0], offset) == multiset{}
  {
  }

  lemma OneMoreStarted(nextKey: nat, detections: seq<Detection>, taken: set<nat>, n: nat, offset: real)
    requires 0 < n <= |detections|
    ensures SampleBag(StartAll(nextKey, detections, taken, n, offset))
         == SampleBag(StartAll(nextKey, detections, taken, n - 1, offset))
            + SampleIf(n - 1 !in taken, detections[n - 1], offset)
  {
    var before := StartAll(nextKey, detections, taken, n - 1, offset);
    SampleBagOfOneMore(before, Started(nextKey + |before|, detections[n - 1], offset));
  }

  /** What the pairs took and what was started make up all the detections. */
  lemma {:induction false} StartedSamples(nextKey: nat, detections: seq<Detection>, taken: set<nat>, n: nat, offset: real)
    requires n <= |detections|
    ensures Inside(detections, taken, n, offset) + SampleBag(StartAll(nextKey, detections, taken, n, offset))
         == SamplesOf(detections[..n], offset)
  {
    hide Inside, SampleBag, SamplesOf, SampleIf, StartAll;
    if n == 0 {
      NoneInside(detections, taken, offset);
      NoSamples(nextKey, detections, taken, offset);
      NothingMore(SamplesOf(detections[..0], offset));
    } else {
      var inside, d := Inside(detections, taken, n - 1, offset), detections[n - 1];
      var started := SampleBag(StartAll(nextKey, detections, taken, n - 1, offset));
      StartedSamples(nextKey, detections, taken, n - 1, offset);
      SamplesOfPrefix(detections, n, offset);
      OneMoreInside(detections, taken, n, offset);
      OneMoreStarted(nextKey, detections, taken, n, offset);
      SampleIfNot(d, offset);
      NothingMore(inside);
      NothingMore(started);
      Regrouped(inside, started, SampleIf(true, d, offset));
    }
  }

  lemma {:induction false} InsideIsSome(detections: seq<Detection>, cols: set<nat>, n: nat, offset: real)
    requires n <= |detections|
    ensures Inside(detections, cols, n, offset) <= SamplesOf(detections[..n], offset)
  {
    hide Inside, SamplesOf, SampleIf;
    if n == 0 {
      NoneInside(detections, cols, offset);
    } else {
      var d := detections[n - 1];
      InsideIsSome(detections, cols, n - 1, offset);
      OneMoreInside(detections, cols, n, offset);
      SamplesOfPrefix(detections, n, offset);
      SampleIfNot(d, offset);
      BothMore(Inside(detections, cols, n - 1, offset), SamplesOf(detections[..n - 1], offset),
               SampleIf(n - 1 in cols, d, offset), SampleIf(true, d, offset));
    }
  }

  lemma PassSamples(tracks: seq<TrackView>, nextKey: nat, candidates: seq<nat>, detections: seq<Detection>,
                    threshold: real, offset: real, overlap: Overlap, allowNew: bool)
      returns (gained: multiset<Sample>)
    requires Candidates(tracks, candidates) && threshold > -1.0
    ensures var pass := Associated(tracks, nextKey, candidates, detections, threshold, offset, overlap, allowNew);
            SampleBag(pass.tracks) + SampleBag(pass.started) == SampleBag(tracks) + gained
    ensures gained <= SamplesOf(detections, offset) && (allowNew ==> gained == SamplesOf(detections, offset))
  {
    hide SampleBag, SamplesOf, Inside, AbsorbAll, StartAll, MatchedCols, MatchedTracks, Sorted, Elements, GoodPairs;
    SampleBagOfNone();
    if detections == [] {
      gained := multiset{};
      NoSamples(nextKey, detections, {}, offset);
      assert detections[..0] == detections;
      NothingMore(SampleBag(tracks));
    } else {
      var pairs := Pairs(tracks, candidates, detections, threshold, overlap);
      var n := |detections|;
      PairsAreGood(tracks, candidates, detections, threshold, overlap);
      AbsorbedSamples(tracks, candidates, detections, pairs, offset);
      InsideIsSome(detections, MatchedCols(pairs), n, offset);
      StartedSamples(nextKey, detections, MatchedCols(pairs), n, offset);
      assert detections[..n] == detections;
      var inside, started := Inside(detections, MatchedCols(pairs), n, offset),
                             SampleBag(StartAll(nextKey, detections, MatchedCols(pairs), n, offset));
      Regrouped(SampleBag(tracks), inside, started);
      NothingMore(SampleBag(tracks) + inside);
      gained := if allowNew then SamplesOf(detections, offset) else Inside(detections, MatchedCols(pairs), n, offset);
    }
  }

  lemma {:induction false} PartedSamples(tracks: seq<TrackView>, buffer: int)
    ensures SampleBag(Survivors(tracks, buffer)) + SampleBag(Closed(tracks, buffer)) == SampleBag(tracks)
  {
    hide SampleBag;
    if tracks == [] {
      SampleBagOfNone();
      NothingMore(SampleBag([]));
    } else {
      var front, last := tracks[..|tracks| - 1], tracks[|tracks| - 1];
      PartedSamples(front, buffer);
      assert tracks == front + [last];
      SampleBagOfOneMore(front, last);
      SampleBagOfOneMore(Closed(front, buffer), last);
      SampleBagOfOneMore(Survivors(front, buffer), last);
      Regrouped(SampleBag(Survivors(front, buffer)), SampleBag(Closed(front, buffer)), multiset(last.samples));
    }
  }

  lemma {:induction false} MissedSamples(tracks: seq<TrackView>, missed: seq<TrackView>)
    requires |missed| == |tracks| && forall i :: 0 <= i < |tracks| ==> missed[i].samples == tracks[i].samples
    ensures SampleBag(missed) == SampleBag(tracks)
  {
    if tracks != [] {
      MissedSamples(tracks[..|tracks| - 1], missed[..|missed| - 1]);
    }
  }

  ghost function AllSamples(s: Tracker): multiset<Sample> {
    SampleBag(s.finished) + SampleBag(s.active)
  }

  lemma HighPassSamples(s: Tracker, detections: seq<Detection>, offset: real, overlap: Overlap)
    ensures var high := HighPass(s, detections, offset, overlap);
            SampleBag(high.tracks + high.started) == SampleBag(s.active) + SamplesOf(HighOf(detections), offset)
  {
    var high := HighPass(s, detections, offset, overlap);
    var gained := PassSamples(s.active, s.nextKey, Range(|s.active|), HighOf(detections), MATCH_IOU_HIGH, offset,
                              overlap, true);
    SampleBagOfConcat(high.tracks, high.started);
  }

  lemma LowPassSamples(s: Tracker, high: Pass, detections: seq<Detection>, offset: real, overlap: Overlap)
      returns (low: multiset<Sample>)
    requires Candidates(high.tracks + high.started, high.unmatched)
    ensures var pass := LowPass(s, high, detections, offset, overlap);
            SampleBag(MissAll(pass.tracks, pass.unmatched)) == SampleBag(high.tracks + high.started) + low
    ensures low <= SamplesOf(LowOf(detections), offset)
  {
    var pass := LowPass(s, high, detections, offset, overlap);
    low := PassSamples(high.tracks + high.started, s.nextKey + |high.started|, high.unmatched, LowOf(detections),
                       MATCH_IOU_LOW, offset, overlap, false);
    MissedSamples(pass.tracks, MissAll(pass.tracks, pass.unmatched));
  }

  lemma SeenSamples(s: Tracker, detections: seq<Detection>, offset: real, overlap: Overlap)
      returns (low: multiset<Sample>)
    ensures SampleBag(Seen(s, detections, offset, overlap))
         == SampleBag(s.active) + SamplesOf(HighOf(detections), offset) + low
    ensures low <= SamplesOf(LowOf(detections), offset)
  {
    hide HighPass, LowPass, MissAll, HighOf, LowOf, SampleBag, SamplesOf, Candidates;
    HighPassSamples(s, detections, offset, overlap);
    low := LowPassSamples(s, HighPass(s, detections, offset, overlap), detections, offset, overlap);
  }

  /** Moving tracks from one list to the other loses no samples. */
  lemma Balanced<T>(finished: multiset<T>, closed: multiset<T>, survivors: multiset<T>, active: multiset<T>,
                    high: multiset<T>, low: multiset<T>)
    requires survivors + closed == active + high + low
    ensures (finished + closed) + survivors == (finished + active) + high + low
  {
    assert (finished + closed) + survivors == finished + (survivors + closed);
    assert finished + (active + high + low) == (finished + active) + high + low;
  }

  /** An update adds one sample for every high-confidence detection, at most one for each other
      detection, and loses none. */
  lemma SamplesAreConserved(s: Tracker, detections: seq<Detection>, offset: real, overlap: Overlap)
      returns (low: multiset<Sample>)
    ensures AllSamples(Updated(s, detections, offset, overlap))
         == AllSamples(s) + SamplesOf(HighOf(detections), offset) + low
    ensures low <= SamplesOf(LowOf(detections), offset)
  {
    hide Seen, HighPass, HighOf, LowOf, SampleBag, SamplesOf, Survivors, Closed;
    var seen := Seen(s, detections, offset, overlap);
    low := SeenSamples(s, detections, offset, overlap);
    PartedSamples(seen, s.buffer);
    SampleBagOfConcat(s.finished, Closed(seen, s.buffer));
    Balanced(SampleBag(s.finished), SampleBag(Closed(seen, s.buffer)), SampleBag(Survivors(seen, s.buffer)),
             SampleBag(s.active), SamplesOf(HighOf(detections), offset), low);
  }
}
