/** Whole runs of the tracker (backend/app/ai/tracker.py:192-332). */
module TrackerRuns {
  import opened TrackerModel
  import opened TrackerLaws

  // ----- The invariant ------------------------------------------------------------------

  ghost function ConfidenceSum(samples: seq<Sample>): real {
    if samples == [] then 0.0
    else ConfidenceSum(samples[..|samples| - 1]) + samples[|samples| - 1].detection.confidence
  }

  ghost predicate IsMaxConfidence(samples: seq<Sample>, most: real) {
    && (forall k :: 0 <= k < |samples| ==> samples[k].detection.confidence <= most)
    && exists k :: 0 <= k < |samples| && samples[k].detection.confidence == most
  }

  /** The track's running figures say what its samples say, and every sample is of its class. */
  ghost predicate Sound(t: TrackView) {
    && t.frameCount == |t.samples| && |t.samples| > 0
    && t.first == t.samples[0].offset && t.last == t.samples[|t.samples| - 1].offset
    && (forall k :: 0 <= k < |t.samples| ==> t.samples[k].detection.classLabel == t.classLabel)
    && t.confidenceSum == ConfidenceSum(t.samples) && IsMaxConfidence(t.samples, t.confidenceMax)
  }

  lemma StartedIsSound(key: nat, d: Detection, offset: real)
    ensures Sound(Started(key, d, offset))
  {
    var samples := [Sample(offset, d)];
    assert samples[..0] == [];
    assert samples[0].detection.confidence == d.confidence;
  }

  lemma AbsorbedIsSound(t: TrackView, d: Detection, offset: real)
    requires Sound(t) && d.classLabel == t.classLabel
    ensures Sound(Absorbed(t, d, offset))
  {
    var after := Absorbed(t, d, offset);
    assert after.samples[..|t.samples|] == t.samples;
    var k :| 0 <= k < |t.samples| && t.samples[k].detection.confidence == t.confidenceMax;
    assert after.samples[k].detection.confidence == t.confidenceMax;
    assert after.samples[|t.samples|].detection.confidence == d.confidence;
  }

  /** How many of the tracks carry the key. */
  ghost function KeyCount(tracks: seq<TrackView>, key: nat): nat {
    if tracks == [] then 0
    else KeyCount(tracks[..|tracks| - 1], key) + if tracks[|tracks| - 1].key == key then 1 else 0
  }

  ghost predicate UniqueKeys(s: Tracker) {
    forall key: nat :: KeyCount(s.finished, key) + KeyCount(s.active, key) <= 1
  }

  /** How many misses close a track. */
  function Limit(buffer: int): nat {
    if buffer < 0 then 0 else buffer + 1
  }

  ghost predicate ActiveOk(s: Tracker) {
    forall t :: t in s.active ==> Sound(t) && t.key < s.nextKey && t.misses <= s.buffer
  }

  ghost predicate FinishedOk(s: Tracker) {
    forall t :: t in s.finished ==> Sound(t) && t.key < s.nextKey && t.misses == Limit(s.buffer)
  }

  ghost predicate Inv(s: Tracker) {
    ActiveOk(s) && FinishedOk(s) && UniqueKeys(s)
  }

  // ----- Keys ---------------------------------------------------------------------------

  lemma KeyCountOfOneMore(tracks: seq<TrackView>, t: TrackView, key: nat)
    ensures KeyCount(tracks + [t], key) == KeyCount(tracks, key) + if t.key == key then 1 else 0
  {
    assert (tracks + [t])[..|tracks|] == tracks;
  }

  lemma {:induction false} KeyCountOfConcat(a: seq<TrackView>, b: seq<TrackView>, key: nat)
    ensures KeyCount(a + b, key) == KeyCount(a, key) + KeyCount(b, key)
  {
    if b == [] {
      assert a + b == a;
    } else {
      var front := b[..|b| - 1];
      KeyCountOfConcat(a, front, key);
      assert (a + b)[..|a + b| - 1] == a + front;
    }
  }

  /** Old tracks keep their keys and new ones are numbered on from `base`. */
  ghost predicate Renumbered(before: seq<TrackView>, after: seq<TrackView>, base: nat) {
    && |before| <= |after|
    && forall i :: 0 <= i < |after| ==> after[i].key == if i < |before| then before[i].key else base + (i - |before|)
  }

  lemma {:induction false} RenumberedKeys(before: seq<TrackView>, after: seq<TrackView>, base: nat, key: nat)
    requires Renumbered(before, after, base) && forall i :: 0 <= i < |before| ==> before[i].key < base
    ensures key < base ==> KeyCount(after, key) == KeyCount(before, key)
    ensures key >= base ==> KeyCount(after, key) == if key - base < |after| - |before| then 1 else 0
    decreases |after|
  {
    if |after| > |before| {
      RenumberedKeys(before, after[..|after| - 1], base, key);
    } else if after != [] {
      RenumberedKeys(before[..|before| - 1], after[..|after| - 1], base, key);
    }
  }

  lemma {:induction false} KeysBelow(tracks: seq<TrackView>, bound: nat, key: nat)
    requires bound <= key && forall t :: t in tracks ==> t.key < bound
    ensures KeyCount(tracks, key) == 0
  {
    if tracks != [] {
      assert tracks[|tracks| - 1] in tracks;
      KeysBelow(tracks[..|tracks| - 1], bound, key);
    }
  }

  lemma {:induction false} KeyIsCounted(tracks: seq<TrackView>, i: nat)
    requires i < |tracks|
    ensures KeyCount(tracks, tracks[i].key) >= 1
  {
    if i < |tracks| - 1 {
      KeyIsCounted(tracks[..|tracks| - 1], i);
    }
  }

  lemma {:induction false} SharedKeyIsCountedTwice(tracks: seq<TrackView>, i: nat, j: nat)
    requires i < j < |tracks| && tracks[i].key == tracks[j].key
    ensures KeyCount(tracks, tracks[i].key) >= 2
  {
    if j < |tracks| - 1 {
      SharedKeyIsCountedTwice(tracks[..|tracks| - 1], i, j);
    } else {
      KeyIsCounted(tracks[..|tracks| - 1], i);
    }
  }

  /** No two tracks ever share a key. */
  lemma KeysAreUnique(s: Tracker, i: nat, j: nat)
    requires UniqueKeys(s) && i < j < |s.finished + s.active|
    ensures (s.finished + s.active)[i].key != (s.finished + s.active)[j].key
  {
    var all := s.finished + s.active;
    KeyCountOfConcat(s.finished, s.active, all[i].key);
    if all[i].key == all[j].key {
      SharedKeyIsCountedTwice(all, i, j);
    }
  }

  // ----- Every update keeps the invariant -----------------------------------------------

  lemma {:induction false} PartedTracks(tracks: seq<TrackView>, buffer: int, t: TrackView)
    ensures t in Survivors(tracks, buffer) <==> t in tracks && t.misses <= buffer
    ensures t in Closed(tracks, buffer) <==> t in tracks && t.misses > buffer
  {
    if tracks != [] {
      PartedTracks(tracks[..|tracks| - 1], buffer, t);
      assert tracks == tracks[..|tracks| - 1] + [tracks[|tracks| - 1]];
    }
  }

  lemma {:induction false} PartedKeys(tracks: seq<TrackView>, buffer: int, key: nat)
    ensures KeyCount(Survivors(tracks, buffer), key) + KeyCount(Closed(tracks, buffer), key) == KeyCount(tracks, key)
  {
    if tracks != [] {
      var front, last := tracks[..|tracks| - 1], tracks[|tracks| - 1];
      PartedKeys(front, buffer, key);
      KeyCountOfOneMore(Closed(front, buffer), last, key);
      KeyCountOfOneMore(Survivors(front, buffer), last, key);
    }
  }

  lemma ContinuedIsSound(before: TrackView, after: TrackView, detections: seq<Detection>, offset: real)
    requires Sound(before) && Continues(before, after, detections, offset)
    ensures Sound(after) && after.key == before.key && after.misses == 0
  {
    var d :| d in detections && d.classLabel == before.classLabel && after == Absorbed(before, d, offset);
    AbsorbedIsSound(before, d, offset);
  }

  lemma NewIsSound(t: TrackView, key: nat, detections: seq<Detection>, offset: real)
    requires IsNew(t, key, detections, offset)
    ensures Sound(t) && t.key == key && t.misses == 0
  {
    var d :| d in detections && t == Started(key, d, offset);
    StartedIsSound(key, d, offset);
  }

  lemma SeenIsSound(s: Tracker, detections: seq<Detection>, offset: real, seen: seq<TrackView>, i: nat)
    requires ActiveOk(s) && SeenFrom(s, detections, offset, seen) && i < |seen|
    ensures Sound(seen[i]) && seen[i].misses <= Limit(s.buffer)
    ensures seen[i].key == if i < |s.active| then s.active[i].key else s.nextKey + (i - |s.active|)
  {
    if i < |s.active| {
      var before := s.active[i];
      assert before in s.active && Moves(before, seen[i], detections, offset);
      if Continues(before, seen[i], detections, offset) {
        ContinuedIsSound(before, seen[i], detections, offset);
      }
    } else {
      NewIsSound(seen[i], s.nextKey + (i - |s.active|), HighOf(detections), offset);
    }
  }

  lemma SeenKeys(s: Tracker, detections: seq<Detection>, offset: real, seen: seq<TrackView>, key: nat)
    requires Inv(s) && SeenFrom(s, detections, offset, seen)
    ensures KeyCount(s.finished, key) + KeyCount(seen, key) <= 1
  {
    forall i | 0 <= i < |seen|
      ensures seen[i].key == if i < |s.active| then s.active[i].key else s.nextKey + (i - |s.active|)
    {
      SeenIsSound(s, detections, offset, seen, i);
    }
    assert Renumbered(s.active, seen, s.nextKey);
    assert forall i :: 0 <= i < |s.active| ==> s.active[i] in s.active;
    RenumberedKeys(s.active, seen, s.nextKey, key);
    if key >= s.nextKey {
      KeysBelow(s.finished, s.nextKey, key);
    }
  }

  lemma StepKeepsTracks(s: Tracker, detections: seq<Detection>, offset: real, seen: seq<TrackView>, after: Tracker)
    requires Inv(s) && Steps(s, detections, offset, seen, after)
    ensures ActiveOk(after) && FinishedOk(after)
  {
    forall t | t in after.active || t in Closed(seen, s.buffer)
      ensures Sound(t) && t.key < after.nextKey && (t in after.active ==> t.misses <= s.buffer)
      ensures t in Closed(seen, s.buffer) ==> t.misses == Limit(s.buffer)
    {
      PartedTracks(seen, s.buffer, t);
      var i :| 0 <= i < |seen| && seen[i] == t;
      SeenIsSound(s, detections, offset, seen, i);
      assert i < |s.active| ==> s.active[i] in s.active;
    }
  }

  lemma StepKeepsInv(s: Tracker, detections: seq<Detection>, offset: real, seen: seq<TrackView>, after: Tracker)
    requires Inv(s) && Steps(s, detections, offset, seen, after)
    ensures Inv(after)
  {
    StepKeepsTracks(s, detections, offset, seen, after);
    forall key: nat
      ensures KeyCount(after.finished, key) + KeyCount(after.active, key) <= 1
    {
      SeenKeys(s, detections, offset, seen, key);
      PartedKeys(seen, s.buffer, key);
      KeyCountOfConcat(s.finished, Closed(seen, s.buffer), key);
    }
  }

  lemma UpdateKeepsInv(s: Tracker, detections: seq<Detection>, offset: real, overlap: Overlap)
    requires Inv(s)
    ensures Inv(Updated(s, detections, offset, overlap))
  {
    var seen := UpdateSteps(s, detections, offset, overlap);
    StepKeepsInv(s, detections, offset, seen, Updated(s, detections, offset, overlap));
  }

  // ----- Runs ---------------------------------------------------------------------------

  datatype Frame = Frame(detections: seq<Detection>, offset: real, overlap: Overlap)

  function Initial(buffer: int): Tracker {
    Tracker([], [], 1, buffer)
  }

  ghost function After(s: Tracker, f: Frame): Tracker {
    Updated(s, f.detections, f.offset, f.overlap)
  }

  ghost predicate StepsAt(run: seq<Tracker>, frames: seq<Frame>, i: nat)
    requires |run| == |frames| + 1 && i < |frames|
  {
    run[i + 1] == After(run[i], frames[i])
  }

  /** The states of a tracker through the given updates. */
  ghost predicate IsRun(buffer: int, run: seq<Tracker>, frames: seq<Frame>) {
    && |run| == |frames| + 1 && run[0] == Initial(buffer)
    && forall i :: 0 <= i < |frames| ==> StepsAt(run, frames, i)
  }

  lemma RunStepKeepsInv(buffer: int, run: seq<Tracker>, frames: seq<Frame>, i: nat)
    requires IsRun(buffer, run, frames) && i < |frames| && Inv(run[i])
    ensures Inv(run[i + 1]) && run[i + 1].buffer == run[i].buffer
  {
    assert StepsAt(run, frames, i);
    UpdateKeepsInv(run[i], frames[i].detections, frames[i].offset, frames[i].overlap);
  }

  lemma {:induction false} RunKeepsInv(buffer: int, run: seq<Tracker>, frames: seq<Frame>, n: nat)
    requires IsRun(buffer, run, frames) && n < |run|
    ensures Inv(run[n]) && run[n].buffer == buffer
  {
    if n > 0 {
      RunKeepsInv(buffer, run, frames, n - 1);
      RunStepKeepsInv(buffer, run, frames, n - 1);
    }
  }

  /** The high-confidence detections of the first `n` updates, and the others. */
  ghost function HighSamples(frames: seq<Frame>, n: nat): multiset<Sample>
    requires n <= |frames|
  {
    if n == 0 then multiset{}
    else HighSamples(frames, n - 1) + SamplesOf(HighOf(frames[n - 1].detections), frames[n - 1].offset)
  }

  ghost function LowSamples(frames: seq<Frame>, n: nat): multiset<Sample>
    requires n <= |frames|
  {
    if n == 0 then multiset{}
    else LowSamples(frames, n - 1) + SamplesOf(LowOf(frames[n - 1].detections), frames[n - 1].offset)
  }

  /** A sample is held as often as it was seen with high confidence, and at most as often as it was
      seen at all. */
  ghost predicate HeldAsSeen(s: Tracker, frames: seq<Frame>, n: nat, x: Sample)
    requires n <= |frames|
  {
    HighSamples(frames, n)[x] <= AllSamples(s)[x] <= HighSamples(frames, n)[x] + LowSamples(frames, n)[x]
  }

  lemma StepHolds(buffer: int, run: seq<Tracker>, frames: seq<Frame>, n: nat, x: Sample)
    requires IsRun(buffer, run, frames) && n < |frames| && HeldAsSeen(run[n], frames, n, x)
    ensures HeldAsSeen(run[n + 1], frames, n + 1, x)
  {
    assert StepsAt(run, frames, n);
    var low := SamplesAreConserved(run[n], frames[n].detections, frames[n].offset, frames[n].overlap);
  }

  lemma StartHolds(buffer: int, run: seq<Tracker>, frames: seq<Frame>, x: Sample)
    requires IsRun(buffer, run, frames)
    ensures HeldAsSeen(run[0], frames, 0, x)
  {
  }

  /** Over a run, the tracks hold every high-confidence detection exactly once, and otherwise only
      low-confidence detections, each at most once. */
  lemma {:induction false} RunKeepsEveryHighDetection(buffer: int, run: seq<Tracker>, frames: seq<Frame>, n: nat, x: Sample)
    requires IsRun(buffer, run, frames) && n < |run|
    ensures HeldAsSeen(run[n], frames, n, x)
  {
    hide HeldAsSeen;
    if n == 0 {
      StartHolds(buffer, run, frames, x);
    } else {
      RunKeepsEveryHighDetection(buffer, run, frames, n - 1, x);
      StepHolds(buffer, run, frames, n - 1, x);
    }
  }

  ghost predicate Grown(s: Tracker, f: Frame, t: TrackView) {
    exists b :: b in s.active && Continues(b, t, f.detections, f.offset)
  }

  ghost predicate Born(f: Frame, t: TrackView) {
    exists key :: IsNew(t, key, HighOf(f.detections), f.offset)
  }

  /** Update `f` of `s` gave track `t` its last sample. */
  ghost predicate Extends(s: Tracker, f: Frame, t: TrackView) {
    Grown(s, f, t) || Born(f, t)
  }

  ghost predicate WasMissed(s: Tracker, t: TrackView) {
    exists b :: b in s.active && t == Missed(b)
  }

  /** Where an active track comes from, and a closed one that was not closed before. */
  lemma TrackOrigin(s: Tracker, f: Frame, seen: seq<TrackView>, after: Tracker, t: TrackView)
    requires Steps(s, f.detections, f.offset, seen, after)
    requires t in after.active || (t in after.finished && t !in s.finished)
    ensures Extends(s, f, t) || WasMissed(s, t)
  {
    PartedTracks(seen, s.buffer, t);
    var i :| 0 <= i < |seen| && seen[i] == t;
    if i < |s.active| {
      assert s.active[i] in s.active && Moves(s.active[i], t, f.detections, f.offset);
    } else {
      BornAt(f, t, s.nextKey + (i - |s.active|));
    }
  }

  lemma BornAt(f: Frame, t: TrackView, key: nat)
    requires IsNew(t, key, HighOf(f.detections), f.offset)
    ensures Born(f, t)
  {
  }

  lemma StepOrigin(buffer: int, run: seq<Tracker>, frames: seq<Frame>, i: nat, t: TrackView)
    requires IsRun(buffer, run, frames) && i < |frames|
    requires t in run[i + 1].active || (t in run[i + 1].finished && t !in run[i].finished)
    ensures Extends(run[i], frames[i], t) || WasMissed(run[i], t)
  {
    assert StepsAt(run, frames, i);
    var seen := UpdateSteps(run[i], frames[i].detections, frames[i].offset, frames[i].overlap);
    TrackOrigin(run[i], frames[i], seen, run[i + 1], t);
  }

  /** A closed track is never touched again. */
  lemma ClosedForGood(buffer: int, run: seq<Tracker>, frames: seq<Frame>, i: nat)
    requires IsRun(buffer, run, frames) && i < |frames|
    ensures run[i].finished <= run[i + 1].finished
  {
    assert StepsAt(run, frames, i);
  }

  /** A track's misses count the updates since its last sample. */
  lemma {:induction false} MissesCountUpdates(buffer: int, run: seq<Tracker>, frames: seq<Frame>, n: nat, t: TrackView)
    requires IsRun(buffer, run, frames) && n < |run| && t in run[n].active
    ensures t.misses < n && Extends(run[n - t.misses - 1], frames[n - t.misses - 1], t.(misses := 0))
  {
    var before, f := run[n - 1], frames[n - 1];
    StepOrigin(buffer, run, frames, n - 1, t);
    if Extends(before, f, t) {
      ExtendedHasNoMisses(before, f, t);
    } else {
      var b :| b in before.active && t == Missed(b);
      MissesCountUpdates(buffer, run, frames, n - 1, b);
      assert b.(misses := 0) == t.(misses := 0);
    }
  }

  lemma ExtendedHasNoMisses(s: Tracker, f: Frame, t: TrackView)
    requires Extends(s, f, t)
    ensures t.misses == 0
  {
  }

  /** Consecutive samples of a track are at most buffer + 1 updates apart: when update `n` gives
      track `t` a sample, some update `p` no further back gave it the one before. */
  lemma SamplesAreCloseTogether(buffer: int, run: seq<Tracker>, frames: seq<Frame>, n: nat, t: TrackView) returns (p: nat)
    requires IsRun(buffer, run, frames) && n < |frames| && t in run[n].active
    ensures p < n && n - p <= buffer + 1 && Extends(run[p], frames[p], t.(misses := 0))
  {
    MissesCountUpdates(buffer, run, frames, n, t);
    RunKeepsInv(buffer, run, frames, n);
    p := n - t.misses - 1;
  }

  // ----- What is handed over ----------------------------------------------------------------

  /** Handing over keeps exactly the tracks seen often enough, in order: those of the one part, then those of
      the other. */
  lemma {:induction false} HandedOverIff(a: seq<TrackView>, b: seq<TrackView>, minFrames: nat)
    ensures forall t :: t in WorthStoring(a, minFrames) <==> t in a && minFrames <= t.frameCount
    ensures WorthStoring(a + b, minFrames) == WorthStoring(a, minFrames) + WorthStoring(b, minFrames)
    decreases |a| + |b|
  {
    if b != [] {
      HandedOverIff(a, b[..|b| - 1], minFrames);
      assert (a + b)[..|a + b| - 1] == a + b[..|b| - 1];
    } else {
      assert a + b == a;
      if a != [] {
        HandedOverIff(a[..|a| - 1], [], minFrames);
        assert a == a[..|a| - 1] + [a[|a| - 1]];
      }
    }
  }
}
