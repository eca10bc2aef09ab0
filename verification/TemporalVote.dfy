/** Agreeing on a plate across frames (backend/app/ai/plate_frames.py:74-136). Means are not rounded. */
module TemporalVote {
  import opened Options
  import opened Reals
  import opened StableSort
  import opened PlatePatterns
  import opened PlateNormalise
  import VehicleViews

  const MIN_FRAME_SEPARATION_S: real := VehicleViews.MIN_FRAME_SEPARATION_S

  datatype Reading = Reading(rawText: string, offset: real, ocr: real, detection: real)

  datatype Policy = Policy(region: string, minConfidence: real, storeUnmatched: bool)

  /** The readings of one identity; a frame counts once. */
  datatype Group = Group(text: string, readings: seq<Reading>)

  datatype Vote = Vote(text: string, ocr: real, detection: real, count: nat, best: Reading,
                       alternatives: seq<(string, nat)>, offsets: seq<real>)

  // ----- Which readings count -----------------------------------------------------------

  predicate Usable(r: Reading) {
    r.rawText != "" && r.ocr > 0.0
  }

  predicate HasPatterns(p: Policy) {
    PatternsForRegion(p.region) != []
  }

  predicate IsNamed(p: Policy, result: NormalisedPlate) {
    result.plausibleStates != [] || !HasPatterns(p) || p.storeUnmatched
  }

  /** The reading is kept, given what it normalised to. */
  predicate Admits(p: Policy, r: Reading, result: NormalisedPlate) {
    && (result.matched || !HasPatterns(p) || p.storeUnmatched)
    && r.ocr >= Max(p.minConfidence, if IsNamed(p, result) then 0.80 else 0.90)
  }

  ghost function Result(p: Policy, r: Reading): NormalisedPlate {
    NormaliseOf(r.rawText, p.region)
  }

  ghost predicate Counts(p: Policy, r: Reading) {
    Usable(r) && Admits(p, r, Result(p, r))
  }

  // ----- Grouping -----------------------------------------------------------------------

  predicate SameFrame(a: Reading, b: Reading) {
    VehicleViews.Distance(a.offset, b.offset) < MIN_FRAME_SEPARATION_S
  }

  /** The first reading of the group from the same frame, or its length. */
  function DuplicateIn(readings: seq<Reading>, r: Reading, i: nat): (d: nat)
    requires i <= |readings|
    ensures i <= d <= |readings| && (d < |readings| ==> SameFrame(readings[d], r))
    ensures forall k :: i <= k < d ==> !SameFrame(readings[k], r)
    decreases |readings| - i
  {
    if i == |readings| || SameFrame(readings[i], r) then i else DuplicateIn(readings, r, i + 1)
  }

  /** A frame already counted keeps the better of its readings. */
  function Joined(readings: seq<Reading>, r: Reading): (joined: seq<Reading>)
    ensures |joined| > 0
  {
    var d := DuplicateIn(readings, r, 0);
    if d == |readings| then readings + [r]
    else if r.ocr > readings[d].ocr then readings[d := r]
    else readings
  }

  function GroupOf(groups: seq<Group>, text: string, i: nat): (g: nat)
    requires i <= |groups|
    ensures i <= g <= |groups| && (g < |groups| ==> groups[g].text == text)
    ensures forall k :: i <= k < g ==> groups[k].text != text
    decreases |groups| - i
  {
    if i == |groups| || groups[i].text == text then i else GroupOf(groups, text, i + 1)
  }

  function Added(groups: seq<Group>, text: string, r: Reading): seq<Group> {
    var g := GroupOf(groups, text, 0);
    if g == |groups| then groups + [Group(text, [r])]
    else groups[g := Group(text, Joined(groups[g].readings, r))]
  }

  /** The groups after the first `n` readings. */
  ghost function Grouped(p: Policy, readings: seq<Reading>, n: nat): seq<Group>
    requires n <= |readings|
  {
    if n == 0 then []
    else
      var before, r := Grouped(p, readings, n - 1), readings[n - 1];
      if Counts(p, r) then Added(before, Result(p, r).normalised, r) else before
  }

  // ----- Choosing -----------------------------------------------------------------------

  function SumOcr(readings: seq<Reading>): real {
    if readings == [] then 0.0 else SumOcr(readings[..|readings| - 1]) + readings[|readings| - 1].ocr
  }

  function SumDetection(readings: seq<Reading>): real {
    if readings == [] then 0.0 else SumDetection(readings[..|readings| - 1]) + readings[|readings| - 1].detection
  }

  /** More support first, then more confidence. */
  predicate RanksBefore(a: Group, b: Group) {
    || |a.readings| > |b.readings|
    || (|a.readings| == |b.readings| && SumOcr(a.readings) > SumOcr(b.readings))
  }

  /** The first of the most confident readings. */
  function BestOf(readings: seq<Reading>): (best: Reading)
    requires readings != []
    ensures best in readings && forall r :: r in readings ==> r.ocr <= best.ocr
  {
    if |readings| == 1 then readings[0]
    else
      var n := |readings| - 1;
      var best := BestOf(readings[..n]);
      assert readings == readings[..n] + [readings[n]];
      if readings[n].ocr > best.ocr then readings[n] else best
  }

  function Offsets(readings: seq<Reading>): seq<real> {
    if readings == [] then [] else Offsets(readings[..|readings| - 1]) + [readings[|readings| - 1].offset]
  }

  predicate EarlierOffset(a: real, b: real) {
    a < b
  }

  /** Strong enough to stand on one frame alone. */
  predicate StandsAlone(p: Policy, best: Reading, result: NormalisedPlate) {
    IsNamed(p, result) && best.ocr >= Max(p.minConfidence, 0.92)
  }

  function VoteFor(ranked: seq<Group>): Vote
    requires ranked != [] && ranked[0].readings != []
  {
    var top := ranked[0];
    var n := |top.readings| as real;
    var others := if |ranked| < 4 then ranked[1..] else ranked[1..4];
    Vote(top.text, SumOcr(top.readings) / n, SumDetection(top.readings) / n, |top.readings|, BestOf(top.readings),
         seq(|others|, i requires 0 <= i < |others| => (others[i].text, |others[i].readings|)),
         Sort(Offsets(top.readings), EarlierOffset))
  }

  ghost predicate NoneEmpty(groups: seq<Group>) {
    forall g :: g in groups ==> g.readings != []
  }

  lemma RankedSpec(groups: seq<Group>)
    ensures var ranked := Sort(groups, RanksBefore);
            && |ranked| == |groups| && multiset(ranked) == multiset(groups) && Ordered(ranked, RanksBefore)
            && (forall g :: g in ranked <==> g in groups)
  {
    RankIsWeakOrder();
    SortSpec(groups, RanksBefore);
    var ranked := Sort(groups, RanksBefore);
    assert forall g :: (g in ranked <==> g in multiset(ranked)) && (g in groups <==> g in multiset(groups));
  }

  lemma RankIsWeakOrder()
    ensures WeakOrder(RanksBefore)
  {
  }

  /** The winner of the groups, or nobody. */
  ghost function Winner(p: Policy, groups: seq<Group>): Option<Vote>
    requires NoneEmpty(groups)
  {
    var ranked := Sort(groups, RanksBefore);
    RankedSpec(groups);
    if ranked == [] then None
    else
      assert ranked[0] in ranked;
      var top := ranked[0].readings;
      if |top| == 1 && !StandsAlone(p, BestOf(top), Result(p, BestOf(top))) then None
      else if |ranked| > 1 && |top| <= 2 * |ranked[1].readings| then None
      else Some(VoteFor(ranked))
  }

  lemma AddedIsNotEmpty(groups: seq<Group>, text: string, r: Reading)
    requires NoneEmpty(groups)
    ensures NoneEmpty(Added(groups, text, r))
  {
  }

  /** One turn of the loop. */
  method AddReading(groups: seq<Group>, r: Reading, p: Policy) returns (after: seq<Group>)
    requires NoneEmpty(groups)
    ensures NoneEmpty(after)
    ensures after == if Counts(p, r) then Added(groups, Result(p, r).normalised, r) else groups
  {
    after := groups;
    if Usable(r) {
      var result := Normalise(r.rawText, p.region);
      if Admits(p, r, result) {
        AddedIsNotEmpty(groups, result.normalised, r);
        after := Added(groups, result.normalised, r);
      }
    }
  }

  method Collect(readings: seq<Reading>, p: Policy) returns (groups: seq<Group>)
    ensures groups == Grouped(p, readings, |readings|) && NoneEmpty(groups)
  {
    groups := [];
    for i := 0 to |readings|
      invariant groups == Grouped(p, readings, i) && NoneEmpty(groups)
    {
      groups := AddReading(groups, readings[i], p);
    }
  }

  /** `temporal_vote`. */
  method Decide(readings: seq<Reading>, p: Policy) returns (vote: Option<Vote>)
    ensures NoneEmpty(Grouped(p, readings, |readings|))
    ensures vote == Winner(p, Grouped(p, readings, |readings|))
  {
    var groups := Collect(readings, p);
    if groups == [] {
      return None;
    }
    var ranked := Sort(groups, RanksBefore);
    RankedSpec(groups);
    assert ranked[0] in ranked;
    var top := ranked[0].readings;
    var best := BestOf(top);
    if |top| == 1 {
      var result := Normalise(best.rawText, p.region);
      if !StandsAlone(p, best, result) {
        return None;
      }
    }
    if |ranked| > 1 && |top| <= 2 * |ranked[1].readings| {
      return None;
    }
    return Some(VoteFor(ranked));
  }

  // ----- What a vote stands on ----------------------------------------------------------

  /** Every supporter is one of the readings, good enough to count, and read as this very text. */
  ghost predicate Supports(p: Policy, readings: seq<Reading>, text: string, r: Reading) {
    r in readings && Counts(p, r) && Result(p, r).normalised == text
  }

  ghost predicate AllSupport(p: Policy, readings: seq<Reading>, g: Group) {
    forall r :: r in g.readings ==> Supports(p, readings, g.text, r)
  }

  ghost predicate GroupsOk(p: Policy, readings: seq<Reading>, groups: seq<Group>) {
    && (forall j, k :: 0 <= j < k < |groups| ==> groups[j].text != groups[k].text)
    && NoneEmpty(groups)
    && forall g :: g in groups ==> AllSupport(p, readings, g)
  }

  lemma {:induction false} GroupedOk(p: Policy, readings: seq<Reading>, n: nat)
    requires n <= |readings|
    ensures GroupsOk(p, readings, Grouped(p, readings, n))
  {
    if n > 0 {
      GroupedOk(p, readings, n - 1);
      var before, r := Grouped(p, readings, n - 1), readings[n - 1];
      if Counts(p, r) {
        AddedOk(p, readings, before, Result(p, r).normalised, r);
      }
    }
  }

  lemma JoinedMembers(readings: seq<Reading>, r: Reading)
    ensures forall x :: x in Joined(readings, r) ==> x in readings || x == r
  {
  }

  lemma AddedOk(p: Policy, readings: seq<Reading>, groups: seq<Group>, text: string, r: Reading)
    requires GroupsOk(p, readings, groups) && Supports(p, readings, text, r)
    ensures GroupsOk(p, readings, Added(groups, text, r))
  {
    hide Joined, Supports;
    var g, after := GroupOf(groups, text, 0), Added(groups, text, r);
    forall k | 0 <= k < |after|
      ensures after[k].readings != [] && AllSupport(p, readings, after[k])
    {
      if k < |groups| {
        assert groups[k] in groups && AllSupport(p, readings, groups[k]);
        JoinedMembers(groups[k].readings, r);
      }
    }
  }

  /** `g` has more than twice the support of every other group. */
  ghost predicate Dominates(groups: seq<Group>, i: nat)
    requires i < |groups|
  {
    forall k :: 0 <= k < |groups| && k != i ==> |groups[i].readings| > 2 * |groups[k].readings|
  }

  ghost predicate MayWin(p: Policy, g: Group) {
    g.readings != [] && (|g.readings| == 1 ==> StandsAlone(p, BestOf(g.readings), Result(p, BestOf(g.readings))))
  }

  lemma RankedDominates(groups: seq<Group>)
    requires groups != [] && NoneEmpty(groups)
    ensures var ranked := Sort(groups, RanksBefore);
            |ranked| == |groups|
            && (Dominates(ranked, 0) <==> |ranked| == 1 || |ranked[0].readings| > 2 * |ranked[1].readings|)
  {
    RankedSpec(groups);
    var ranked := Sort(groups, RanksBefore);
    assert forall k :: 1 < k < |ranked| ==> !RanksBefore(ranked[k], ranked[1]);
  }

  lemma WinnerDominates(p: Policy, groups: seq<Group>) returns (top: nat)
    requires NoneEmpty(groups) && Winner(p, groups).Some?
    ensures top < |groups| && Dominates(groups, top) && MayWin(p, groups[top])
    ensures Winner(p, groups).value.text == groups[top].text
    ensures Winner(p, groups).value.count == |groups[top].readings| && Winner(p, groups).value.best in groups[top].readings
  {
    var ranked := Sort(groups, RanksBefore);
    RankedSpec(groups);
    RankedDominates(groups);
    assert ranked[0] in ranked;
    top :| top < |groups| && groups[top] == ranked[0];
    DominatesInAnyOrder(ranked, 0, groups, top);
  }

  lemma DominantIsFirst(groups: seq<Group>, i: nat)
    requires i < |groups| && Dominates(groups, i)
    ensures Sort(groups, RanksBefore) != [] && Sort(groups, RanksBefore)[0] == groups[i]
  {
    RankedSpec(groups);
    var ranked := Sort(groups, RanksBefore);
    assert groups[i] in ranked && ranked[0] in ranked;
    var k: nat :| k < |ranked| && ranked[k] == groups[i];
    var top: nat :| top < |groups| && groups[top] == ranked[0];
    assert k > 0 ==> !RanksBefore(ranked[k], ranked[0]);
    assert top == i || |groups[i].readings| > 2 * |groups[top].readings|;
  }

  lemma WinnerIs(p: Policy, groups: seq<Group>)
    requires NoneEmpty(groups) && groups != []
    requires var ranked := Sort(groups, RanksBefore);
             |ranked| == |groups| && MayWin(p, ranked[0]) && Dominates(ranked, 0)
    ensures Winner(p, groups).Some? && Winner(p, groups).value.text == Sort(groups, RanksBefore)[0].text
  {
    RankedDominates(groups);
  }

  lemma DominantWins(p: Policy, groups: seq<Group>, i: nat)
    requires NoneEmpty(groups) && i < |groups| && Dominates(groups, i) && MayWin(p, groups[i])
    ensures Winner(p, groups).Some? && Winner(p, groups).value.text == groups[i].text
  {
    RankedSpec(groups);
    DominantIsFirst(groups, i);
    DominatesInAnyOrder(groups, i, Sort(groups, RanksBefore), 0);
    WinnerIs(p, groups);
  }

  /** There is a vote exactly when some identity outnumbers every other more than two to one and is not
      one weak frame alone; the vote is for that identity. */
  lemma VoteIsDominant(p: Policy, groups: seq<Group>, i: nat)
    requires NoneEmpty(groups) && i < |groups| && forall j, k :: 0 <= j < k < |groups| ==> groups[j].text != groups[k].text
    ensures Winner(p, groups).Some? && Winner(p, groups).value.text == groups[i].text
       <==> Dominates(groups, i) && MayWin(p, groups[i])
  {
    if Winner(p, groups).Some? && Winner(p, groups).value.text == groups[i].text {
      var top := WinnerDominates(p, groups);
      assert top == i;
    }
    if Dominates(groups, i) && MayWin(p, groups[i]) {
      DominantWins(p, groups, i);
    }
  }

  /** What is voted for was read off some frame: every supporter is an admitted reading of that text. */
  lemma VoteWasRead(p: Policy, readings: seq<Reading>) returns (g: Group)
    requires NoneEmpty(Grouped(p, readings, |readings|)) && Winner(p, Grouped(p, readings, |readings|)).Some?
    ensures var vote := Winner(p, Grouped(p, readings, |readings|)).value;
            && g in Grouped(p, readings, |readings|) && vote.text == g.text && vote.count == |g.readings| > 0
            && vote.best in g.readings && AllSupport(p, readings, g)
  {
    var groups := Grouped(p, readings, |readings|);
    GroupedOk(p, readings, |readings|);
    var top := WinnerDominates(p, groups);
    g := groups[top];
    assert g in groups;
  }

  lemma DominatesInAnyOrder(a: seq<Group>, i: nat, b: seq<Group>, j: nat)
    requires i < |a| && j < |b| && a[i] == b[j] && Dominates(a, i) && multiset(a) == multiset(b)
    requires NoneEmpty(a)
    ensures Dominates(b, j)
  {
    forall k | 0 <= k < |b| && k != j
      ensures |b[j].readings| > 2 * |b[k].readings|
    {
      assert b[k] in multiset(b);
      assert b[k] in a;
      var m :| 0 <= m < |a| && a[m] == b[k];
      if m == i {
        TwoPlacesMeanTwice(b, if j < k then j else k, if j < k then k else j);
        OnePlace(a, i);
      }
    }
  }

  lemma OnePlace(a: seq<Group>, i: nat)
    requires i < |a| && Dominates(a, i) && NoneEmpty(a)
    ensures multiset(a)[a[i]] == 1
  {
    assert a == a[..i] + [a[i]] + a[i + 1..];
    assert a[i] !in a[..i] && a[i] !in a[i + 1..];
  }

  // ----- How far a vote is to be trusted ----------------------------------------------------

  /** The reading counts exactly when there is something to read, its text has the shape of a plate or need
      not have one, and it is sure enough: 0.9, or 0.8 where the text names states or need not. */
  lemma CountsIff(p: Policy, r: Reading)
    ensures var result, free := NormaliseOf(r.rawText, p.region), PatternsForRegion(p.region) == [] || p.storeUnmatched;
            Counts(p, r)
            <==> && r.rawText != "" && r.ocr > 0.0 && r.ocr >= p.minConfidence && (result.matched || free)
                 && (r.ocr >= 0.9 || (r.ocr >= 0.8 && (|result.plausibleStates| > 0 || free)))
  {
    hide NormaliseOf, PatternsForRegion;
  }

  /** A vote for one frame alone is for a reading of at least 0.92 whose text names states or need not. */
  lemma LoneFrameIsStrong(p: Policy, readings: seq<Reading>)
    requires NoneEmpty(Grouped(p, readings, |readings|)) && Winner(p, Grouped(p, readings, |readings|)).Some?
    ensures var vote := Winner(p, Grouped(p, readings, |readings|)).value;
            && vote.best in readings && Counts(p, vote.best)
            && (vote.count == 1 ==>
                  && vote.best.ocr >= 0.92 && vote.best.ocr >= p.minConfidence
                  && (|NormaliseOf(vote.best.rawText, p.region).plausibleStates| > 0
                      || PatternsForRegion(p.region) == [] || p.storeUnmatched))
  {
    hide NormaliseOf, PatternsForRegion, Winner, Dominates, VoteFor;
    var groups := Grouped(p, readings, |readings|);
    GroupedOk(p, readings, |readings|);
    var top := WinnerDominates(p, groups);
    assert groups[top] in groups && AllSupport(p, readings, groups[top]);
    var best := Winner(p, groups).value.best;
    assert Supports(p, readings, groups[top].text, best);
    if |groups[top].readings| == 1 {
      assert BestOf(groups[top].readings) == groups[top].readings[0] == best;
    }
  }

  // ----- What a vote reports ----------------------------------------------------------------

  lemma {:induction false} SumsAreAdditive(a: seq<Reading>, b: seq<Reading>)
    ensures SumOcr(a + b) == SumOcr(a) + SumOcr(b) && SumDetection(a + b) == SumDetection(a) + SumDetection(b)
    ensures |b| == 1 ==> SumOcr(b) == b[0].ocr && SumDetection(b) == b[0].detection
  {
    if b == [] {
      assert a + b == a;
    } else {
      SumsAreAdditive(a, b[..|b| - 1]);
      assert (a + b)[..|a + b| - 1] == a + b[..|b| - 1];
    }
  }

  lemma {:induction false} OffsetsSpec(readings: seq<Reading>)
    ensures |Offsets(readings)| == |readings|
    ensures forall k :: 0 <= k < |readings| ==> Offsets(readings)[k] == readings[k].offset
  {
    if readings != [] {
      OffsetsSpec(readings[..|readings| - 1]);
    }
  }

  /** One of the other identities, and how many readings it has. */
  ghost predicate IsAlternative(groups: seq<Group>, text: string, alternative: (string, nat)) {
    exists g :: g in groups && g.text != text && alternative == (g.text, |g.readings|)
  }

  /** Of two identities the first has more readings, or as many and more confidence in all, or as much. */
  ghost predicate NoLessSupported(groups: seq<Group>, a: string, b: string) {
    exists g, h :: g in groups && h in groups && g.text == a && h.text == b
                   && (|g.readings| > |h.readings|
                       || (|g.readings| == |h.readings| && SumOcr(g.readings) >= SumOcr(h.readings)))
  }

  predicate OtherText(a: Group, b: Group) {
    a.text != b.text
  }

  /** A vote reports the means of its supporters, the best of them, and their offsets in order. */
  lemma VoteReports(p: Policy, groups: seq<Group>) returns (top: Group)
    requires NoneEmpty(groups) && Winner(p, groups).Some?
    ensures var (vote, n) := (Winner(p, groups).value, |top.readings|);
            && top in groups && n > 0 && vote.text == top.text && vote.count == n
            && vote.ocr * n as real == SumOcr(top.readings) && vote.detection * n as real == SumDetection(top.readings)
            && vote.best in top.readings && (forall r :: r in top.readings ==> r.ocr <= vote.best.ocr)
            && multiset(vote.offsets) == multiset(Offsets(top.readings))
            && (forall j, k :: 0 <= j < k < |vote.offsets| ==> vote.offsets[j] <= vote.offsets[k])
  {
    hide SumOcr, SumDetection, Offsets, BestOf, Sort, MayWin, StandsAlone, Result;
    var ranked := Sort(groups, RanksBefore);
    RankedSpec(groups);
    assert ranked[0] in ranked;
    top := ranked[0];
    OffsetsInOrder(top.readings);
  }

  lemma AlternativesAreRanked(p: Policy, groups: seq<Group>)
    requires NoneEmpty(groups) && Winner(p, groups).Some?
    ensures var (vote, ranked) := (Winner(p, groups).value, Sort(groups, RanksBefore));
            && |vote.alternatives| == (if |groups| <= 4 then |groups| - 1 else 3)
            && ranked[0].text == vote.text
            && forall k :: 0 <= k < |vote.alternatives| ==>
                 vote.alternatives[k] == (ranked[k + 1].text, |ranked[k + 1].readings|)
  {
    hide SumOcr, SumDetection, Offsets, BestOf, StandsAlone, Result, Sort, Ordered, RanksBefore;
    RankedSpec(groups);
  }

  lemma RankedIsNoLess(groups: seq<Group>, j: nat, k: nat)
    requires j <= k < |groups|
    ensures var ranked := Sort(groups, RanksBefore); NoLessSupported(groups, ranked[j].text, ranked[k].text)
  {
    hide Sort, SumOcr, NoLessSupported;
    RankedSpec(groups);
    var ranked := Sort(groups, RanksBefore);
    assert ranked[j] in ranked && ranked[k] in ranked;
    NotBehind(groups, ranked[j], ranked[k]);
  }

  lemma NotBehind(groups: seq<Group>, g: Group, h: Group)
    requires g in groups && h in groups && !RanksBefore(h, g)
    ensures NoLessSupported(groups, g.text, h.text)
  {
    hide SumOcr;
  }

  lemma RankedIsOther(groups: seq<Group>, k: nat)
    requires 0 < k < |groups| && Pairwise(groups, OtherText)
    ensures var ranked := Sort(groups, RanksBefore);
            IsAlternative(groups, ranked[0].text, (ranked[k].text, |ranked[k].readings|))
  {
    RankedSpec(groups);
    var ranked := Sort(groups, RanksBefore);
    PairwiseInAnyOrder(groups, ranked, OtherText);
    assert ranked[k] in ranked && OtherText(ranked[0], ranked[k]);
  }

  /** With a vote come the three best supported of the other identities, the best first, each with how many
      readings it has; or all of them, if they are fewer. */
  lemma AlternativesAreTheBest(p: Policy, groups: seq<Group>)
    requires NoneEmpty(groups) && Winner(p, groups).Some? && Pairwise(groups, OtherText)
    ensures var (vote, others) := (Winner(p, groups).value, Winner(p, groups).value.alternatives);
            && |others| == (if |groups| <= 4 then |groups| - 1 else 3)
            && (forall k :: 0 <= k < |others| ==> IsAlternative(groups, vote.text, others[k]))
            && (forall j, k :: 0 <= j < k < |others| ==> NoLessSupported(groups, others[j].0, others[k].0))
  {
    hide Winner, Sort, Pairwise, NoLessSupported, IsAlternative;
    AlternativesAreRanked(p, groups);
    var others := Winner(p, groups).value.alternatives;
    forall k | 0 <= k < |others|
      ensures IsAlternative(groups, Winner(p, groups).value.text, others[k])
    {
      RankedIsOther(groups, k + 1);
    }
    forall j, k | 0 <= j < k < |others|
      ensures NoLessSupported(groups, others[j].0, others[k].0)
    {
      RankedIsNoLess(groups, j + 1, k + 1);
    }
  }

  /** Whoever is not among them has no more support than any of them. */
  lemma OthersAreNoBetter(p: Policy, groups: seq<Group>, g: Group, k: nat)
    requires NoneEmpty(groups) && Winner(p, groups).Some? && g in groups && g.text != Winner(p, groups).value.text
    requires k < |Winner(p, groups).value.alternatives|
    requires var others := Winner(p, groups).value.alternatives;
             forall i :: 0 <= i < |others| ==> others[i].0 != g.text
    ensures NoLessSupported(groups, Winner(p, groups).value.alternatives[k].0, g.text)
  {
    hide Winner, Sort, NoLessSupported;
    AlternativesAreRanked(p, groups);
    RankedSpec(groups);
    var ranked, others := Sort(groups, RanksBefore), Winner(p, groups).value.alternatives;
    assert g in ranked;
    var n: nat :| n < |ranked| && ranked[n] == g;
    forall i | 0 < i <= |others|
      ensures ranked[i].text != g.text
    {
      assert others[i - 1].0 == ranked[i].text;
    }
    RankedIsNoLess(groups, k + 1, n);
  }

  lemma OffsetsInOrder(readings: seq<Reading>)
    ensures var offsets := Sort(Offsets(readings), EarlierOffset);
            && multiset(offsets) == multiset(Offsets(readings))
            && forall j, k :: 0 <= j < k < |offsets| ==> offsets[j] <= offsets[k]
  {
    assert WeakOrder(EarlierOffset);
    SortSpec(Offsets(readings), EarlierOffset);
  }

  /** Of the readings of one frame the surest is kept: one of that frame at least as sure as the new one is
      there afterwards, and nothing else has come or gone but one of its frame. */
  lemma JoinedKeepsTheSurest(readings: seq<Reading>, r: Reading)
    ensures var joined := Joined(readings, r);
            && (exists x :: x in joined && (x == r || (SameFrame(x, r) && x.ocr >= r.ocr)))
            && (forall x :: x in joined ==> x in readings || x == r)
            && (forall x :: x in readings && !SameFrame(x, r) ==> x in joined)
            && |joined| == |readings| + if exists x :: x in readings && SameFrame(x, r) then 0 else 1
  {
    hide SameFrame;
    var d, joined := DuplicateIn(readings, r, 0), Joined(readings, r);
    if d < |readings| {
      assert readings[d] in readings && joined[d] in joined;
      forall x | x in readings && !SameFrame(x, r)
        ensures x in joined
      {
        var k :| 0 <= k < |readings| && readings[k] == x;
        assert joined[k] == x;
      }
    } else {
      assert joined[d] in joined;
      assert forall x :: x in readings ==> exists k :: 0 <= k < |readings| && readings[k] == x;
    }
  }
}
