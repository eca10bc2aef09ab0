/** The tracker itself, updating its tracks in place (backend/app/ai/tracker.py:138-332). */
module ByteTracker {
  import opened GreedyMatch
  import opened TrackerModel

  class Track {
    const key: nat
    const classLabel: string
    const first: real
    var last: real
    var frameCount: nat
    var confidenceMax: real
    var confidenceSum: real
    var misses: nat
    var samples: seq<Sample>

    function View(): TrackView
      reads this
    {
      TrackView(key, classLabel, first, last, frameCount, confidenceMax, confidenceSum, misses, samples)
    }

    /** `_start`, up to putting the track on the list. */
    constructor (key: nat, d: Detection, offset: real)
      ensures View() == Started(key, d, offset)
    {
      this.key, classLabel, first, last := key, d.classLabel, offset, offset;
      frameCount, confidenceMax, confidenceSum, misses := 1, d.confidence, d.confidence, 0;
      samples := [Sample(offset, d)];
    }

    /** `_absorb`. */
    method Absorb(d: Detection, offset: real)
      modifies this
      ensures View() == Absorbed(old(View()), d, offset)
    {
      last, frameCount, confidenceSum := offset, frameCount + 1, confidenceSum + d.confidence;
      if d.confidence > confidenceMax {
        confidenceMax := d.confidence;
      }
      misses := 0;
      samples := samples + [Sample(offset, d)];
    }
  }

  function Views(tracks: seq<Track>): (views: seq<TrackView>)
    reads tracks
    ensures |views| == |tracks| && forall i :: 0 <= i < |tracks| ==> views[i] == tracks[i].View()
  {
    seq(|tracks|, i requires 0 <= i < |tracks| reads tracks => tracks[i].View())
  }

  ghost predicate Distinct(tracks: seq<Track>) {
    forall i, j :: 0 <= i < j < |tracks| ==> tracks[i] != tracks[j]
  }

  lemma KeepDistinct(a: seq<Track>, b: seq<Track>, t: Track, c: seq<Track>)
    requires Distinct(a + b + ([t] + c))
    ensures Distinct((a + [t]) + b + c) && Distinct(a + (b + [t]) + c)
  {
    var all, other := a + b + ([t] + c), (a + [t]) + b + c;
    assert a + (b + [t]) + c == all;
    forall i, j | 0 <= i < j < |other|
      ensures other[i] != other[j]
    {
      var (p, q) := (Moved(|a|, |b|, i), Moved(|a|, |b|, j));
      assert other[i] == all[p] && other[j] == all[q] && p != q;
    }
  }

  /** No two tracks are the same among those on the two lists and those still to be moved. */
  ghost predicate Parted(finished: seq<Track>, survivors: seq<Track>, active: seq<Track>, i: nat) {
    i <= |active| && Distinct(finished + survivors + active[i..])
  }

  lemma NothingMoved(finished: seq<Track>, active: seq<Track>)
    requires Distinct(finished + active)
    ensures Parted(finished, [], active, 0)
  {
    assert finished + [] + active[0..] == finished + active;
  }

  /** The next track may go to either list. */
  lemma MoveOne(finished: seq<Track>, survivors: seq<Track>, active: seq<Track>, i: nat)
    requires i < |active| && Parted(finished, survivors, active, i)
    ensures Parted(finished + [active[i]], survivors, active, i + 1)
    ensures Parted(finished, survivors + [active[i]], active, i + 1)
  {
    assert active[i..] == [active[i]] + active[i + 1..];
    KeepDistinct(finished, survivors, active[i], active[i + 1..]);
  }

  lemma AllMoved(finished: seq<Track>, survivors: seq<Track>, active: seq<Track>)
    requires Parted(finished, survivors, active, |active|)
    ensures Distinct(finished + survivors)
  {
    assert finished + survivors + active[|active|..] == finished + survivors;
  }

  lemma ViewsOneMore(tracks: seq<Track>, track: Track)
    ensures Views(tracks + [track]) == Views(tracks) + [track.View()]
  {
  }

  lemma PartOneMore(tracks: seq<TrackView>, i: nat, buffer: int)
    requires i < |tracks|
    ensures var (kept, closed) := (Survivors(tracks[..i], buffer), Closed(tracks[..i], buffer));
            && (tracks[i].misses > buffer ==>
                  Survivors(tracks[..i + 1], buffer) == kept && Closed(tracks[..i + 1], buffer) == closed + [tracks[i]])
            && (tracks[i].misses <= buffer ==>
                  Survivors(tracks[..i + 1], buffer) == kept + [tracks[i]] && Closed(tracks[..i + 1], buffer) == closed)
  {
    assert tracks[..i + 1][..i] == tracks[..i];
  }

  /** Where an index comes from when the element behind `b` moves before it. */
  function Moved(a: nat, b: nat, i: nat): nat {
    if i < a then i else if i == a then a + b else if i <= a + b then i - 1 else i
  }

  lemma UpdatedIs(s: Tracker, detections: seq<Detection>, offset: real, overlap: Overlap,
                  tracks: seq<TrackView>, unmatched: seq<nat>)
    requires Candidates(tracks, unmatched)
    requires var low := LowPass(s, HighPass(s, detections, offset, overlap), detections, offset, overlap);
             tracks == low.tracks && unmatched == low.unmatched
    ensures var seen := MissAll(tracks, unmatched);
            Updated(s, detections, offset, overlap)
            == Tracker(Survivors(seen, s.buffer), s.finished + Closed(seen, s.buffer),
                       s.nextKey + |HighPass(s, detections, offset, overlap).started|, s.buffer)
  {
  }

  lemma Appended<T, U>(a: seq<T>, b: seq<T>, x: T, c: seq<U>, d: seq<U>, y: U)
    ensures (a + b) + [x] == a + (b + [x]) && (c + d) + [y] == c + (d + [y])
  {
  }

  /** `sorted` of the members of a set, all below `n`. */
  method SortedList(s: set<nat>, n: nat) returns (sorted: seq<nat>)
    ensures sorted == Sorted(s, n)
  {
    sorted := [];
    for i := 0 to n
      invariant sorted == Sorted(s, i)
    {
      if i in s {
        sorted := sorted + [i];
      }
    }
  }

  class ByteTracker {
    var active: seq<Track>
    var finished: seq<Track>
    var nextKey: nat
    const buffer: int

    ghost predicate Valid()
      reads this
    {
      Distinct(finished + active)
    }

    ghost function State(): Tracker
      reads this, active, finished
    {
      Tracker(Views(active), Views(finished), nextKey, buffer)
    }

    constructor (trackBuffer: int)
      ensures Valid() && State() == Tracker([], [], 1, trackBuffer)
    {
      active, finished, nextKey, buffer := [], [], 1, trackBuffer;
    }

    /** `_associate`. */
    method Associate(detections: seq<Detection>, candidates: seq<nat>, threshold: real, offset: real,
                     overlap: Overlap, allowNew: bool) returns (unmatched: seq<nat>)
      requires Valid() && Candidates(Views(active), candidates) && threshold > -1.0
      modifies `active, `nextKey, active
      ensures Valid() && forall i :: 0 <= i < |active| ==> active[i] in old(active) || fresh(active[i])
      ensures var pass := Associated(old(Views(active)), old(nextKey), candidates, detections, threshold, offset,
                                     overlap, allowNew);
              && Views(active) == pass.tracks + pass.started && nextKey == old(nextKey) + |pass.started|
              && Views(finished) == old(Views(finished))
              && unmatched == pass.unmatched
    {
      hide AbsorbAll, StartAll, Sorted, Elements, MatchedCols, MatchedTracks, ScoresFor;
      if detections == [] {
        return candidates;
      }
      var tracks := Views(active);
      var pairs := Match(ScoresFor(tracks, candidates, detections, overlap), threshold);
      PairsFit(tracks, candidates, detections, threshold, overlap);
      var matched, stillUnmatched := AbsorbPairs(candidates, detections, pairs, offset);
      if allowNew {
        StartUnmatched(detections, matched, offset);
      }
      unmatched := SortedList(stillUnmatched, |tracks|);
    }

    method AbsorbPairs(candidates: seq<nat>, detections: seq<Detection>, pairs: seq<Cell>, offset: real)
        returns (matched: set<nat>, stillUnmatched: set<nat>)
      requires Valid() && Candidates(Views(active), candidates) && Fits(pairs, |candidates|, |detections|)
      modifies active
      ensures Views(active) == AbsorbAll(old(Views(active)), candidates, detections, pairs, offset)
      ensures Views(finished) == old(Views(finished)) && matched == MatchedCols(pairs)
      ensures stillUnmatched == Elements(candidates) - MatchedTracks(candidates, pairs)
    {
      matched, stillUnmatched := {}, set i | i in candidates;
      ghost var tracks := Views(active);
      for k := 0 to |pairs|
        invariant Views(active) == AbsorbAll(tracks, candidates, detections, pairs[..k], offset)
        invariant matched == MatchedCols(pairs[..k]) && Views(finished) == old(Views(finished))
        invariant stillUnmatched == Elements(candidates) - MatchedTracks(candidates, pairs[..k])
      {
        var (row, col) := pairs[k];
        assert pairs[..k + 1][..k] == pairs[..k];
        AbsorbAt(candidates[row], detections[col], offset);
        matched, stillUnmatched := matched + {col}, stillUnmatched - {candidates[row]};
      }
      assert pairs[..|pairs|] == pairs;
    }

    /** The active tracks are distinct objects, none of them a finished one. */
    lemma ActiveApart()
      requires Valid()
      ensures Distinct(active) && forall i, j :: 0 <= i < |finished| && 0 <= j < |active| ==> finished[i] != active[j]
    {
      var all := finished + active;
      assert forall i :: 0 <= i < |finished| ==> all[i] == finished[i];
      assert forall j :: 0 <= j < |active| ==> active[j] == all[|finished| + j];
    }

    method AbsorbAt(i: nat, d: Detection, offset: real)
      requires Valid() && i < |active|
      modifies active
      ensures Views(active) == old(Views(active))[i := Absorbed(old(Views(active))[i], d, offset)]
      ensures Views(finished) == old(Views(finished))
    {
      ActiveApart();
      active[i].Absorb(d, offset);
    }

    method StartUnmatched(detections: seq<Detection>, matched: set<nat>, offset: real)
      requires Valid()
      modifies `active, `nextKey
      ensures Valid() && forall i :: 0 <= i < |active| ==> active[i] in old(active) || fresh(active[i])
      ensures var started := StartAll(old(nextKey), detections, matched, |detections|, offset);
              Views(active) == old(Views(active)) + started && nextKey == old(nextKey) + |started|
    {
      ghost var views, started, added := Views(active), [], [];
      for col := 0 to |detections|
        invariant Valid() && active == old(active) + added && fresh(added)
        invariant started == StartAll(old(nextKey), detections, matched, col, offset)
        invariant Views(active) == views + started && nextKey == old(nextKey) + |started|
      {
        if col !in matched {
          ghost var t := Started(nextKey, detections[col], offset);
          ghost var track := Start(detections[col], offset);
          Appended(old(active), added, track, views, started, t);
          added, started := added + [track], started + [t];
        }
      }
    }

    /** `_start`. */
    method Start(d: Detection, offset: real) returns (ghost track: Track)
      requires Valid()
      modifies `active, `nextKey
      ensures Valid() && active == old(active) + [track] && fresh(track)
      ensures Views(active) == old(Views(active)) + [Started(old(nextKey), d, offset)]
      ensures nextKey == old(nextKey) + 1
    {
      var started := new Track(nextKey, d, offset);
      nextKey := nextKey + 1;
      assert forall t :: t in finished + active ==> t != started;
      assert finished + (active + [started]) == (finished + active) + [started];
      active := active + [started];
      track := started;
    }

    method MarkMissed(unmatched: seq<nat>)
      requires Valid() && Candidates(Views(active), unmatched)
      modifies active
      ensures Views(active) == MissAll(old(Views(active)), unmatched) && Views(finished) == old(Views(finished))
    {
      ghost var tracks := Views(active);
      for k := 0 to |unmatched|
        invariant Views(finished) == old(Views(finished))
        invariant forall i :: 0 <= i < |active| ==>
                    Views(active)[i] == if i in unmatched[..k] then Missed(tracks[i]) else tracks[i]
      {
        MarkMissedAt(unmatched[k]);
      }
      assert unmatched[..|unmatched|] == unmatched;
    }

    method MarkMissedAt(i: nat)
      requires Valid() && i < |active|
      modifies active
      ensures Views(active) == old(Views(active))[i := Missed(old(Views(active))[i])]
      ensures Views(finished) == old(Views(finished))
    {
      ActiveApart();
      active[i].misses := active[i].misses + 1;
    }

    /** Close the tracks missed more often than the buffer allows. */
    method Retire()
      requires Valid()
      modifies `active, `finished
      ensures Valid()
      ensures Views(active) == Survivors(old(Views(active)), buffer)
      ensures Views(finished) == old(Views(finished)) + Closed(old(Views(active)), buffer)
    {
      ghost var tracks, done := Views(active), Views(finished);
      NothingMoved(finished, active);
      var survivors: seq<Track> := [];
      for i := 0 to |active|
        invariant active == old(active)
        invariant Views(survivors) == Survivors(tracks[..i], buffer)
        invariant Views(finished) == done + Closed(tracks[..i], buffer)
        invariant Parted(finished, survivors, active, i)
      {
        var track := active[i];
        PartOneMore(tracks, i, buffer);
        MoveOne(finished, survivors, active, i);
        if track.misses > buffer {
          ViewsOneMore(finished, track);
          finished := finished + [track];
        } else {
          ViewsOneMore(survivors, track);
          survivors := survivors + [track];
        }
      }
      assert tracks[..|active|] == tracks;
      AllMoved(finished, survivors, active);
      active := survivors;
    }

    method MissAndRetire(unmatched: seq<nat>)
      requires Valid() && Candidates(Views(active), unmatched)
      modifies `active, `finished, active
      ensures Valid()
      ensures var missed := MissAll(old(Views(active)), unmatched);
              && Views(active) == Survivors(missed, buffer)
              && Views(finished) == old(Views(finished)) + Closed(missed, buffer)
    {
      MarkMissed(unmatched);
      Retire();
    }

    /** The two association passes: confident detections first, then the rest on what is left. */
    method Passes(ghost detections: seq<Detection>, high: seq<Detection>, low: seq<Detection>, offset: real,
                  overlap: Overlap) returns (unmatched: seq<nat>)
      requires Valid() && high == HighOf(detections) && low == LowOf(detections)
      modifies `active, `nextKey, active
      ensures Valid() && forall i :: 0 <= i < |active| ==> active[i] in old(active) || fresh(active[i])
      ensures var first := HighPass(old(State()), detections, offset, overlap);
              var second := LowPass(old(State()), first, detections, offset, overlap);
              && Views(active) == second.tracks && unmatched == second.unmatched
              && Views(finished) == old(Views(finished))
              && nextKey == old(nextKey) + |first.started|
    {
      ghost var first := HighPass(State(), detections, offset, overlap);
      unmatched := Associate(high, Range(|active|), MATCH_IOU_HIGH, offset, overlap, true);
      assert Views(active) == first.tracks + first.started && unmatched == first.unmatched;
      unmatched := Associate(low, unmatched, MATCH_IOU_LOW, offset, overlap, false);
    }

    method Split(detections: seq<Detection>) returns (high: seq<Detection>, low: seq<Detection>)
      ensures high == HighOf(detections) && low == LowOf(detections)
    {
      high, low := [], [];
      for k := 0 to |detections|
        invariant high == HighOf(detections[..k]) && low == LowOf(detections[..k])
      {
        assert detections[..k + 1][..k] == detections[..k];
        if detections[k].confidence >= HIGH_CONFIDENCE {
          high := high + [detections[k]];
        } else {
          low := low + [detections[k]];
        }
      }
      assert detections[..|detections|] == detections;
    }

    /** `update`. */
    method Update(detections: seq<Detection>, offset: real, overlap: Overlap)
      requires Valid()
      modifies this, active
      ensures Valid() && State() == Updated(old(State()), detections, offset, overlap)
    {
      ghost var s := State();
      var high, low := Split(detections);
      var unmatched := Passes(detections, high, low, offset, overlap);
      ghost var tracks := Views(active);
      MissAndRetire(unmatched);
      UpdatedIs(s, detections, offset, overlap, tracks, unmatched);
    }

    /** `finish`: hand over the tracks worth storing and forget them all. */
    method Finish(minFrames: nat) returns (tracks: seq<Track>)
      requires Valid()
      modifies `active, `finished
      ensures Valid() && State() == Tracker([], [], nextKey, buffer)
      ensures Views(tracks) == WorthStoring(old(Views(finished + active)), minFrames)
    {
      var all := finished + active;
      tracks := [];
      for i := 0 to |all|
        invariant Views(tracks) == WorthStoring(Views(all)[..i], minFrames)
      {
        assert Views(all)[..i + 1][..i] == Views(all)[..i];
        if all[i].frameCount >= minFrames {
          tracks := tracks + [all[i]];
        }
      }
      assert Views(all)[..|all|] == Views(all);
      active, finished := [], [];
    }
  }
}
