/** Whether the supporters of a vote are from different frames (backend/app/ai/plate_frames.py:97-136). */
module VoteSpacing {
  import opened StableSort
  import opened PlateClean
  import opened PlatePatterns
  import opened PlateNormalise
  import opened TemporalVote

  // ----- Supporters are from different frames ---------------------------------------------

  predicate OtherFrame(a: Reading, b: Reading) {
    !SameFrame(a, b)
  }

  ghost predicate DistinctFrames(readings: seq<Reading>) {
    Pairwise(readings, OtherFrame)
  }

  /** A reading that replaces one of its own frame is far enough from every later one. What a caller could
      test before adding it. */
  predicate JoinsCleanly(readings: seq<Reading>, r: Reading) {
    var d := DuplicateIn(readings, r, 0);
    d < |readings| && r.ocr > readings[d].ocr ==> forall k :: d < k < |readings| ==> OtherFrame(readings[k], r)
  }

  /** Distinct frames stay distinct exactly when the new reading joins cleanly. */
  lemma JoinedStaysDistinctIff(readings: seq<Reading>, r: Reading)
    requires DistinctFrames(readings)
    ensures DistinctFrames(Joined(readings, r)) <==> JoinsCleanly(readings, r)
  {
    var d, joined := DuplicateIn(readings, r, 0), Joined(readings, r);
    if d < |readings| && r.ocr > readings[d].ocr {
      assert joined[d] == r && forall k :: 0 <= k < |readings| && k != d ==> joined[k] == readings[k];
      if DistinctFrames(joined) {
        assert forall k :: d < k < |readings| ==> OtherFrame(joined[d], joined[k]);
      }
    }
  }

  function Others(readings: seq<Reading>, d: nat): (others: seq<Reading>)
    requires d < |readings|
    ensures |others| == |readings| - 1
    ensures forall k :: 0 <= k < |others| ==> others[k] == readings[if k < d then k else k + 1]
  {
    readings[..d] + readings[d + 1..]
  }

  /** Whether a group is of different frames once the reading has joined, whatever it was before: a member
      that is replaced takes its clashes with it. */
  ghost predicate DistinctOnceJoined(readings: seq<Reading>, r: Reading) {
    var d := DuplicateIn(readings, r, 0);
    if d < |readings| && r.ocr > readings[d].ocr
    then DistinctFrames(Others(readings, d)) && JoinsCleanly(readings, r)
    else DistinctFrames(readings)
  }

  lemma JoinedIsDistinctIff(readings: seq<Reading>, r: Reading)
    ensures DistinctFrames(Joined(readings, r)) <==> DistinctOnceJoined(readings, r)
  {
    var d := DuplicateIn(readings, r, 0);
    if d < |readings| && r.ocr > readings[d].ocr {
      if DistinctFrames(readings[d := r]) {
        ReplacedIsDistinct(readings, d, r);
      }
      if DistinctOnceJoined(readings, r) {
        DistinctIsReplaced(readings, d, r);
      }
    } else if d == |readings| {
      assert forall k :: 0 <= k < |readings| ==> (readings + [r])[k] == readings[k];
    }
  }

  lemma ReplacedIsDistinct(readings: seq<Reading>, d: nat, r: Reading)
    requires d < |readings| && DistinctFrames(readings[d := r])
    ensures DistinctFrames(Others(readings, d)) && forall k :: d < k < |readings| ==> OtherFrame(readings[k], r)
  {
    var after, others := readings[d := r], Others(readings, d);
    forall k | d < k < |readings|
      ensures OtherFrame(readings[k], r)
    {
      assert OtherFrame(after[d], after[k]);
    }
    forall j, k | 0 <= j < k < |others|
      ensures OtherFrame(others[j], others[k])
    {
      assert OtherFrame(after[if j < d then j else j + 1], after[if k < d then k else k + 1]);
    }
  }

  lemma DistinctIsReplaced(readings: seq<Reading>, d: nat, r: Reading)
    requires d < |readings| && DistinctFrames(Others(readings, d))
    requires forall k :: 0 <= k < |readings| && k != d ==> OtherFrame(readings[k], r)
    ensures DistinctFrames(readings[d := r])
  {
    var after, others := readings[d := r], Others(readings, d);
    forall j, k | 0 <= j < k < |after|
      ensures OtherFrame(after[j], after[k])
    {
      if j != d && k != d {
        assert OtherFrame(others[if j < d then j else j - 1], others[if k < d then k else k - 1]);
      }
    }
  }

  ghost predicate AllDistinct(groups: seq<Group>) {
    forall i :: 0 <= i < |groups| ==> DistinctFrames(groups[i].readings)
  }

  predicate AddsCleanly(groups: seq<Group>, text: string, r: Reading) {
    var g := GroupOf(groups, text, 0);
    g < |groups| ==> JoinsCleanly(groups[g].readings, r)
  }

  ghost predicate DistinctOnceAdded(groups: seq<Group>, text: string, r: Reading) {
    forall i :: 0 <= i < |groups| ==>
      if i == GroupOf(groups, text, 0) then DistinctOnceJoined(groups[i].readings, r)
      else DistinctFrames(groups[i].readings)
  }

  lemma AddedIsDistinctIff(groups: seq<Group>, text: string, r: Reading)
    ensures AllDistinct(Added(groups, text, r)) <==> DistinctOnceAdded(groups, text, r)
  {
    hide DistinctFrames, DistinctOnceJoined, Joined;
    var g, after := GroupOf(groups, text, 0), Added(groups, text, r);
    if g < |groups| {
      JoinedIsDistinctIff(groups[g].readings, r);
      assert after[g].readings == Joined(groups[g].readings, r);
      assert forall i :: 0 <= i < |groups| && i != g ==> after[i] == groups[i];
    } else {
      OneIsDistinct(r);
      assert after[g].readings == [r];
      assert forall i :: 0 <= i < |groups| ==> after[i] == groups[i];
    }
  }

  lemma OneIsDistinct(r: Reading)
    ensures DistinctFrames([r])
  {
  }

  lemma AddedStaysDistinctIff(groups: seq<Group>, text: string, r: Reading)
    requires AllDistinct(groups)
    ensures AllDistinct(Added(groups, text, r)) <==> AddsCleanly(groups, text, r)
  {
    var g, after := GroupOf(groups, text, 0), Added(groups, text, r);
    if g < |groups| {
      assert DistinctFrames(groups[g].readings);
      JoinedStaysDistinctIff(groups[g].readings, r);
      assert after[g].readings == Joined(groups[g].readings, r);
      assert forall i :: 0 <= i < |groups| && i != g ==> after[i] == groups[i];
    }
  }

  /** Reading `n` is added cleanly, if it counts at all. */
  ghost predicate StepIsClean(p: Policy, readings: seq<Reading>, n: nat)
    requires n < |readings|
  {
    Counts(p, readings[n]) ==> AddsCleanly(Grouped(p, readings, n), Result(p, readings[n]).normalised, readings[n])
  }

  ghost predicate DistinctAfter(p: Policy, readings: seq<Reading>, n: nat)
    requires n <= |readings|
  {
    AllDistinct(Grouped(p, readings, n))
  }

  ghost predicate DistinctThroughout(p: Policy, readings: seq<Reading>, n: nat)
    requires n <= |readings|
  {
    forall m: nat :: m <= n ==> DistinctAfter(p, readings, m)
  }

  ghost predicate CleanThroughout(p: Policy, readings: seq<Reading>, n: nat)
    requires n <= |readings|
  {
    forall m: nat :: m < n ==> StepIsClean(p, readings, m)
  }

  /** Whatever went before, the supporters of every identity are from different frames after one more reading
      exactly when none was left clashing once it joined. */
  lemma DistinctAfterIff(p: Policy, readings: seq<Reading>, n: nat)
    requires n < |readings|
    ensures DistinctAfter(p, readings, n + 1)
       <==> if Counts(p, readings[n])
            then DistinctOnceAdded(Grouped(p, readings, n), Result(p, readings[n]).normalised, readings[n])
            else DistinctAfter(p, readings, n)
  {
    hide DistinctOnceAdded;
    AddedIsDistinctIff(Grouped(p, readings, n), Result(p, readings[n]).normalised, readings[n]);
  }

  lemma StepStaysDistinctIff(p: Policy, readings: seq<Reading>, n: nat)
    requires n < |readings| && DistinctAfter(p, readings, n)
    ensures DistinctAfter(p, readings, n + 1) <==> StepIsClean(p, readings, n)
  {
    AddedStaysDistinctIff(Grouped(p, readings, n), Result(p, readings[n]).normalised, readings[n]);
  }

  lemma OneMoreReading(p: Policy, readings: seq<Reading>, n: nat)
    requires n < |readings|
    ensures DistinctThroughout(p, readings, n + 1)
       <==> DistinctThroughout(p, readings, n) && DistinctAfter(p, readings, n + 1)
    ensures CleanThroughout(p, readings, n + 1) <==> CleanThroughout(p, readings, n) && StepIsClean(p, readings, n)
  {
  }

  lemma NoReadings(p: Policy, readings: seq<Reading>)
    ensures DistinctThroughout(p, readings, 0) && CleanThroughout(p, readings, 0)
  {
    assert DistinctAfter(p, readings, 0);
  }

  lemma OneMoreIff(p: Policy, readings: seq<Reading>, n: nat)
    requires n < |readings| && (DistinctThroughout(p, readings, n) <==> CleanThroughout(p, readings, n))
    ensures DistinctThroughout(p, readings, n + 1) <==> CleanThroughout(p, readings, n + 1)
  {
    OneMoreReading(p, readings, n);
    if DistinctThroughout(p, readings, n) {
      assert DistinctAfter(p, readings, n);
      StepStaysDistinctIff(p, readings, n);
    }
  }

  /** For any readings in any order, the supporters of every identity are from different frames after every
      reading exactly when every reading is added cleanly. */
  lemma {:induction false} SupportersAreDistinctIff(p: Policy, readings: seq<Reading>, n: nat)
    requires n <= |readings|
    ensures DistinctThroughout(p, readings, n) <==> CleanThroughout(p, readings, n)
  {
    if n == 0 {
      NoReadings(p, readings);
    } else {
      SupportersAreDistinctIff(p, readings, n - 1);
      OneMoreIff(p, readings, n - 1);
    }
  }

  // ----- In time order every reading is added cleanly -------------------------------------

  ghost predicate InTimeOrder(readings: seq<Reading>) {
    forall j, k :: 0 <= j < k < |readings| ==> readings[j].offset <= readings[k].offset
  }

  /** In time order, none later than `last`, and no two from the same frame. */
  ghost predicate Spaced(readings: seq<Reading>, last: real) {
    && (forall j, k :: 0 <= j < k < |readings| ==> readings[j].offset + MIN_FRAME_SEPARATION_S <= readings[k].offset)
    && forall k :: 0 <= k < |readings| ==> readings[k].offset <= last
  }

  lemma JoinedSpaced(readings: seq<Reading>, r: Reading, last: real)
    requires Spaced(readings, last) && last <= r.offset
    ensures Spaced(Joined(readings, r), r.offset)
  {
    assert forall k :: 0 <= k < |readings| - 1 ==>
        readings[k].offset + MIN_FRAME_SEPARATION_S <= readings[|readings| - 1].offset;
  }

  lemma GroupedStep(p: Policy, readings: seq<Reading>, n: nat) returns (text: string)
    requires 0 < n <= |readings|
    ensures var before := Grouped(p, readings, n - 1);
            Grouped(p, readings, n) == before || Grouped(p, readings, n) == Added(before, text, readings[n - 1])
  {
    text := Result(p, readings[n - 1]).normalised;
  }

  ghost predicate AllSpaced(groups: seq<Group>, last: real) {
    forall g :: g in groups ==> Spaced(g.readings, last)
  }

  lemma AddedSpaced(groups: seq<Group>, text: string, r: Reading, last: real)
    requires AllSpaced(groups, last) && last <= r.offset
    ensures AllSpaced(Added(groups, text, r), r.offset) && AllSpaced(groups, r.offset)
  {
    var i := GroupOf(groups, text, 0);
    if i < |groups| {
      assert groups[i] in groups;
      JoinedSpaced(groups[i].readings, r, last);
    }
  }

  /** When readings arrive in time order, the supporters of an identity are at least half a second apart. */
  lemma {:induction false} SupportersAreSpaced(p: Policy, readings: seq<Reading>, n: nat)
    requires n <= |readings| && InTimeOrder(readings)
    ensures if n == 0 then Grouped(p, readings, n) == [] else AllSpaced(Grouped(p, readings, n), readings[n - 1].offset)
  {
    if n > 0 {
      SupportersAreSpaced(p, readings, n - 1);
      var r := readings[n - 1];
      var last := if n > 1 then readings[n - 2].offset else r.offset;
      var text := GroupedStep(p, readings, n);
      AddedSpaced(Grouped(p, readings, n - 1), text, r, last);
    }
  }

  // ----- The offsets a vote reports -------------------------------------------------------

  predicate FarApart(a: real, b: real) {
    VehicleViews.Distance(a, b) >= MIN_FRAME_SEPARATION_S
  }

  /** The offsets reported with a vote are at least half a second apart exactly when the supporters are from
      different frames. */
  lemma VoteOffsetsAreSpacedIff(p: Policy, groups: seq<Group>) returns (g: Group)
    requires NoneEmpty(groups) && Winner(p, groups).Some?
    ensures g in groups && Winner(p, groups).value.text == g.text
    ensures Pairwise(Winner(p, groups).value.offsets, FarApart) <==> DistinctFrames(g.readings)
  {
    var ranked := Sort(groups, RanksBefore);
    RankedSpec(groups);
    assert ranked[0] in ranked;
    g := ranked[0];
    SortedOffsets(g.readings);
  }

  lemma SortedOffsets(readings: seq<Reading>)
    ensures Pairwise(Sort(Offsets(readings), EarlierOffset), FarApart) <==> DistinctFrames(readings)
  {
    var offsets := Offsets(readings);
    var sorted := Sort(offsets, EarlierOffset);
    OffsetsSpec(readings);
    assert WeakOrder(EarlierOffset);
    SortSpec(offsets, EarlierOffset);
    assert Pairwise(offsets, FarApart) <==> DistinctFrames(readings);
    if Pairwise(offsets, FarApart) {
      PairwiseInAnyOrder(offsets, sorted, FarApart);
    }
    if Pairwise(sorted, FarApart) {
      PairwiseInAnyOrder(sorted, offsets, FarApart);
    }
  }

  // ----- Exactly when the vote's own supporters are spaced --------------------------------

  /** Reading `m` is one of those of the identity. */
  ghost predicate IsOf(p: Policy, readings: seq<Reading>, text: string, m: nat)
    requires m < |readings|
  {
    Counts(p, readings[m]) && Result(p, readings[m]).normalised == text
  }

  /** The supporters of one identity after the first `n` readings. */
  ghost function Support(p: Policy, readings: seq<Reading>, text: string, n: nat): seq<Reading>
    requires n <= |readings|
  {
    if n == 0 then []
    else
      var before := Support(p, readings, text, n - 1);
      if IsOf(p, readings, text, n - 1) then Joined(before, readings[n - 1]) else before
  }

  lemma NoSupport(p: Policy, readings: seq<Reading>, text: string)
    ensures Support(p, readings, text, 0) == []
  {
  }

  lemma OneMoreSupport(p: Policy, readings: seq<Reading>, text: string, n: nat)
    requires n < |readings|
    ensures Support(p, readings, text, n + 1) ==
      if IsOf(p, readings, text, n) then Joined(Support(p, readings, text, n), readings[n])
      else Support(p, readings, text, n)
  {
  }

  function ReadingsOf(groups: seq<Group>, text: string): seq<Reading> {
    var g := GroupOf(groups, text, 0);
    if g < |groups| then groups[g].readings else []
  }

  lemma GroupOfIs(groups: seq<Group>, text: string, g: nat)
    requires g <= |groups| && (g < |groups| ==> groups[g].text == text)
    requires forall k :: 0 <= k < g ==> groups[k].text != text
    ensures GroupOf(groups, text, 0) == g
  {
  }

  lemma AddedReadings(groups: seq<Group>, text: string, r: Reading, other: string)
    ensures ReadingsOf(Added(groups, text, r), other)
         == if other == text then Joined(ReadingsOf(groups, text), r) else ReadingsOf(groups, other)
  {
    var g, h, after := GroupOf(groups, text, 0), GroupOf(groups, other, 0), Added(groups, text, r);
    assert Joined([], r) == [r];
    assert forall i :: 0 <= i < |groups| ==> after[i].text == groups[i].text;
    GroupOfIs(after, other, if h < |groups| || other == text then h else |after|);
  }

  lemma {:induction false} GroupIsSupport(p: Policy, readings: seq<Reading>, text: string, n: nat)
    requires n <= |readings|
    ensures ReadingsOf(Grouped(p, readings, n), text) == Support(p, readings, text, n)
  {
    hide ReadingsOf, Joined, Added, Counts, Result;
    if n == 0 {
      NoReadingsOf(text);
    } else {
      GroupIsSupport(p, readings, text, n - 1);
      AddedReadings(Grouped(p, readings, n - 1), Result(p, readings[n - 1]).normalised, readings[n - 1], text);
    }
  }

  lemma NoReadingsOf(text: string)
    ensures ReadingsOf([], text) == []
  {
  }

  /** Reading `m` takes place `i` among the supporters, as a new one or for a weaker one of its frame. */
  ghost predicate Takes(p: Policy, readings: seq<Reading>, text: string, m: nat, i: nat)
    requires m < |readings|
  {
    && IsOf(p, readings, text, m)
    && var before := Support(p, readings, text, m);
    && i == DuplicateIn(before, readings[m], 0)
    && (i < |before| ==> readings[m].ocr > before[i].ocr)
  }

  /** Reading `m` takes a place before that of a reading of its frame. */
  ghost predicate Clashes(p: Policy, readings: seq<Reading>, text: string, m: nat, i: nat, k: nat)
    requires m < |readings|
  {
    && Takes(p, readings, text, m, i) && i < k < |Support(p, readings, text, m)|
    && SameFrame(Support(p, readings, text, m)[k], readings[m])
  }

  /** Neither place is taken again before reading `n`. */
  ghost predicate Lasts(p: Policy, readings: seq<Reading>, text: string, m: nat, n: nat, i: nat, k: nat)
    requires n <= |readings|
  {
    forall j: nat :: m < j < n ==> !Takes(p, readings, text, j, i) && !Takes(p, readings, text, j, k)
  }

  ghost predicate ClashLasts(p: Policy, readings: seq<Reading>, text: string, n: nat, i: nat, k: nat)
    requires n <= |readings|
  {
    exists m: nat :: m < n && Clashes(p, readings, text, m, i, k) && Lasts(p, readings, text, m, n, i, k)
  }

  lemma QuietStep(p: Policy, readings: seq<Reading>, text: string, n: nat, i: nat, k: nat)
    requires n < |readings| && !Takes(p, readings, text, n, i) && !Takes(p, readings, text, n, k)
    ensures ClashLasts(p, readings, text, n + 1, i, k) <==> ClashLasts(p, readings, text, n, i, k)
  {
    hide Takes, Support, SameFrame;
    if m: nat :| m < n && Clashes(p, readings, text, m, i, k) && Lasts(p, readings, text, m, n, i, k) {
      assert Lasts(p, readings, text, m, n + 1, i, k);
    }
    if m: nat :| m < n + 1 && Clashes(p, readings, text, m, i, k) && Lasts(p, readings, text, m, n + 1, i, k) {
      assert m < n && Lasts(p, readings, text, m, n, i, k);
    }
  }

  lemma TakenStep(p: Policy, readings: seq<Reading>, text: string, n: nat, i: nat, k: nat)
    requires n < |readings| && (Takes(p, readings, text, n, i) || Takes(p, readings, text, n, k))
    ensures ClashLasts(p, readings, text, n + 1, i, k) <==> Clashes(p, readings, text, n, i, k)
  {
    hide Takes, Clashes;
    var next := n + 1;
    assert Lasts(p, readings, text, n, next, i, k);
    assert forall m: nat :: m < n ==> !Lasts(p, readings, text, m, next, i, k);
  }

  /** What is at a place it does not take, the reading leaves there. */
  lemma PlacesStay(p: Policy, readings: seq<Reading>, text: string, n: nat, i: nat)
    requires n < |readings| && i < |Support(p, readings, text, n + 1)| && !Takes(p, readings, text, n, i)
    ensures i < |Support(p, readings, text, n)|
    ensures Support(p, readings, text, n + 1)[i] == Support(p, readings, text, n)[i]
  {
    OneMoreSupport(p, readings, text, n);
  }

  lemma PlaceTaken(p: Policy, readings: seq<Reading>, text: string, n: nat, i: nat)
    requires n < |readings| && Takes(p, readings, text, n, i)
    ensures i < |Support(p, readings, text, n + 1)| && Support(p, readings, text, n + 1)[i] == readings[n]
    ensures forall j :: 0 <= j < i ==>
              j < |Support(p, readings, text, n)| && !SameFrame(Support(p, readings, text, n)[j], readings[n])
    ensures forall j: nat :: j != i ==> !Takes(p, readings, text, n, j)
  {
    OneMoreSupport(p, readings, text, n);
  }

  /** Two supporters are of one frame exactly when the earlier place was taken from under the later, and neither
      was taken again. */
  lemma {:induction false} SameFrameIff(p: Policy, readings: seq<Reading>, text: string, n: nat, i: nat, k: nat)
    requires n <= |readings| && i < k < |Support(p, readings, text, n)|
    ensures SameFrame(Support(p, readings, text, n)[i], Support(p, readings, text, n)[k])
       <==> ClashLasts(p, readings, text, n, i, k)
  {
    hide Takes, ClashLasts, SameFrame, Support;
    if n == 0 {
      NoSupport(p, readings, text);
    } else if Takes(p, readings, text, n - 1, i) {
      EarlierTaken(p, readings, text, n - 1, i, k);
    } else if Takes(p, readings, text, n - 1, k) {
      LaterTaken(p, readings, text, n - 1, i, k);
    } else {
      PlacesStay(p, readings, text, n - 1, i);
      PlacesStay(p, readings, text, n - 1, k);
      QuietStep(p, readings, text, n - 1, i, k);
      SameFrameIff(p, readings, text, n - 1, i, k);
    }
  }

  lemma EarlierTaken(p: Policy, readings: seq<Reading>, text: string, n: nat, i: nat, k: nat)
    requires n < |readings| && Takes(p, readings, text, n, i) && i < k < |Support(p, readings, text, n + 1)|
    ensures SameFrame(Support(p, readings, text, n + 1)[i], Support(p, readings, text, n + 1)[k])
       <==> ClashLasts(p, readings, text, n + 1, i, k)
  {
    hide Takes, ClashLasts, Support;
    PlaceTaken(p, readings, text, n, i);
    PlacesStay(p, readings, text, n, k);
    TakenStep(p, readings, text, n, i, k);
  }

  lemma LaterTaken(p: Policy, readings: seq<Reading>, text: string, n: nat, i: nat, k: nat)
    requires n < |readings| && Takes(p, readings, text, n, k) && i < k < |Support(p, readings, text, n + 1)|
    ensures !SameFrame(Support(p, readings, text, n + 1)[i], Support(p, readings, text, n + 1)[k])
    ensures !ClashLasts(p, readings, text, n + 1, i, k)
  {
    hide Takes, ClashLasts, Support;
    PlaceTaken(p, readings, text, n, k);
    PlacesStay(p, readings, text, n, i);
    TakenStep(p, readings, text, n, i, k);
  }

  /** Some clash among the supporters of the identity is never mended. */
  ghost predicate SomeClashLasts(p: Policy, readings: seq<Reading>, text: string) {
    exists i: nat, k: nat :: i < k < |Support(p, readings, text, |readings|)|
                             && ClashLasts(p, readings, text, |readings|, i, k)
  }

  lemma SupportIsDistinctIff(p: Policy, readings: seq<Reading>, text: string)
    ensures DistinctFrames(Support(p, readings, text, |readings|)) <==> !SomeClashLasts(p, readings, text)
  {
    hide ClashLasts, Support;
    var support := Support(p, readings, text, |readings|);
    forall i: nat, k: nat | i < k < |support|
      ensures OtherFrame(support[i], support[k]) <==> !ClashLasts(p, readings, text, |readings|, i, k)
    {
      SameFrameIff(p, readings, text, |readings|, i, k);
    }
  }

  /** The supporters of the vote, in any order of readings, are at least half a second apart exactly when no
      reading took a place before that of one of its frame with neither place taken again. */
  lemma VoteIsSpacedIff(p: Policy, readings: seq<Reading>)
    requires NoneEmpty(Grouped(p, readings, |readings|)) && Winner(p, Grouped(p, readings, |readings|)).Some?
    ensures var vote := Winner(p, Grouped(p, readings, |readings|)).value;
            Pairwise(vote.offsets, FarApart) <==> !SomeClashLasts(p, readings, vote.text)
  {
    hide Winner, SomeClashLasts, DistinctFrames, Support, Grouped;
    var groups := Grouped(p, readings, |readings|);
    var g := VoteOffsetsAreSpacedIff(p, groups);
    GroupedOk(p, readings, |readings|);
    ReadingsOfMember(groups, g);
    GroupIsSupport(p, readings, g.text, |readings|);
    SupportIsDistinctIff(p, readings, g.text);
  }

  lemma ReadingsOfMember(groups: seq<Group>, g: Group)
    requires g in groups && forall j, k :: 0 <= j < k < |groups| ==> groups[j].text != groups[k].text
    ensures ReadingsOf(groups, g.text) == g.readings
  {
    var i :| 0 <= i < |groups| && groups[i] == g;
    assert GroupOf(groups, g.text, 0) == i;
  }

  // ----- Out of order, a vote can count one moment twice -----------------------------------

  const EARLY: Reading := Reading("A", 1.0, 0.8, 0.5)
  const LATE: Reading := Reading("A", 1.8, 0.8, 0.5)
  const BETWEEN: Reading := Reading("A", 1.4, 0.9, 0.5)
  const CLEARER: Reading := Reading("A", 1.2, 0.95, 0.5)

  /** No patterns: every usable reading of 0.8 confidence or more counts, for its cleaned text. */
  const ANYWHERE: Policy := Policy("", 0.0, false)

  lemma PlainReadingCounts(r: Reading)
    requires r.rawText == "A" && r.ocr >= 0.8
    ensures Counts(ANYWHERE, r) && Result(ANYWHERE, r).normalised == "A"
  {
    CleanKeepsPlateText("A");
    assert PatternsForRegion("") == [];
    assert !HasBest("A", []);
  }

  lemma PlainReadingIsAdded(readings: seq<Reading>, n: nat)
    requires n < |readings| && readings[n].rawText == "A" && readings[n].ocr >= 0.8
    ensures Grouped(ANYWHERE, readings, n + 1) == Added(Grouped(ANYWHERE, readings, n), "A", readings[n])
  {
    hide Counts, Result, Added;
    PlainReadingCounts(readings[n]);
  }

  lemma AddedToOnly(members: seq<Reading>, r: Reading)
    ensures Added([Group("A", members)], "A", r) == [Group("A", Joined(members, r))]
  {
  }

  lemma ReplacementMovesIn()
    ensures Joined([EARLY], LATE) == [EARLY, LATE] && Joined([EARLY, LATE], BETWEEN) == [BETWEEN, LATE]
    ensures Joined([BETWEEN, LATE], CLEARER) == [CLEARER, LATE]
    ensures SameFrame(BETWEEN, LATE) && !SameFrame(CLEARER, LATE)
  {
    assert DuplicateIn([EARLY], LATE, 0) == 1 && DuplicateIn([EARLY, LATE], BETWEEN, 0) == 0;
    assert DuplicateIn([BETWEEN, LATE], CLEARER, 0) == 0;
  }

  lemma CrowdedGroup(readings: seq<Reading>)
    requires |readings| >= 3 && readings[..3] == [EARLY, LATE, BETWEEN]
    ensures Grouped(ANYWHERE, readings, 3) == [Group("A", [BETWEEN, LATE])]
  {
    hide Joined, Added, Grouped, SameFrame;
    assert readings[0] == EARLY && readings[1] == LATE && readings[2] == BETWEEN by {
      assert readings[0] == readings[..3][0] && readings[1] == readings[..3][1] && readings[2] == readings[..3][2];
    }
    NoGroups(readings);
    PlainReadingIsAdded(readings, 0);
    PlainReadingIsAdded(readings, 1);
    PlainReadingIsAdded(readings, 2);
    ReplacementMovesIn();
    AddedToOnly([EARLY], LATE);
    AddedToOnly([EARLY, LATE], BETWEEN);
  }

  lemma NoGroups(readings: seq<Reading>)
    ensures Grouped(ANYWHERE, readings, 0) == [] && Added([], "A", EARLY) == [Group("A", [EARLY])]
  {
  }

  lemma OneGroupIsRanked(g: Group)
    ensures Sort([g], RanksBefore) == [g]
  {
    assert [g][..0] == [];
  }

  lemma TwoSupporters(a: Reading, b: Reading)
    requires a.offset < b.offset
    ensures NoneEmpty([Group("A", [a, b])])
    ensures var vote := Winner(ANYWHERE, [Group("A", [a, b])]);
            && vote.Some? && vote.value.text == "A" && vote.value.count == 2
            && vote.value.offsets == [a.offset, b.offset]
  {
    hide BestOf, SumOcr, SumDetection, Offsets, StandsAlone, Result, Sort, RanksBefore, EarlierOffset;
    OneGroupIsRanked(Group("A", [a, b]));
    TwoOffsets(a, b);
  }

  /** Seen at 1.0, 1.8 and then, more clearly, at 1.4 seconds: the vote counts two frames, 0.4 s apart. */
  lemma UnsortedReadingsCrowd()
    ensures NoneEmpty(Grouped(ANYWHERE, [EARLY, LATE, BETWEEN], 3))
    ensures var vote := Winner(ANYWHERE, Grouped(ANYWHERE, [EARLY, LATE, BETWEEN], 3));
            && vote.Some? && vote.value.text == "A" && vote.value.count == 2
            && vote.value.offsets == [1.4, 1.8] && !FarApart(1.4, 1.8)
  {
    hide Winner, Grouped;
    CrowdedGroup([EARLY, LATE, BETWEEN]);
    TwoSupporters(BETWEEN, LATE);
  }

  lemma TwoDistinctIff(a: Reading, b: Reading)
    ensures AllDistinct([Group("A", [a, b])]) <==> OtherFrame(a, b)
  {
    var groups := [Group("A", [a, b])];
    if AllDistinct(groups) {
      assert DistinctFrames(groups[0].readings);
      assert OtherFrame([a, b][0], [a, b][1]);
    }
  }

  /** A fourth reading at 1.2 seconds, clearer still, mends that. */
  lemma LaterReadingMends()
    ensures var readings := [EARLY, LATE, BETWEEN, CLEARER];
            && !DistinctAfter(ANYWHERE, readings, 3) && DistinctAfter(ANYWHERE, readings, 4)
            && NoneEmpty(Grouped(ANYWHERE, readings, 4))
            && Winner(ANYWHERE, Grouped(ANYWHERE, readings, 4)).Some?
            && Winner(ANYWHERE, Grouped(ANYWHERE, readings, 4)).value.offsets == [1.2, 1.8]
  {
    hide Winner, Grouped, Joined, AllDistinct;
    var readings := [EARLY, LATE, BETWEEN, CLEARER];
    TwoDistinctIff(BETWEEN, LATE);
    TwoDistinctIff(CLEARER, LATE);
    assert readings[..3] == [EARLY, LATE, BETWEEN];
    CrowdedGroup(readings);
    PlainReadingIsAdded(readings, 3);
    AddedToOnly([BETWEEN, LATE], CLEARER);
    ReplacementMovesIn();
    TwoSupporters(CLEARER, LATE);
  }

  lemma TwoOffsets(a: Reading, b: Reading)
    requires a.offset < b.offset
    ensures Sort(Offsets([a, b]), EarlierOffset) == [a.offset, b.offset]
  {
    assert [a, b][..1] == [a] && [a][..0] == [];
    assert Offsets([a]) == [a.offset] && Offsets([a, b]) == [a.offset, b.offset];
    assert [a.offset, b.offset][..1] == [a.offset] && [a.offset][..0] == [];
    assert Sort([a.offset], EarlierOffset) == [a.offset];
  }
}
