/** Resolving one reading against the plate formats (backend/app/ai/normalise_au.py:459-592). */
module PlateNormalise {
  import opened Options
  import opened PlateAlphabet
  import opened PlateClean
  import opened PlatePatterns
  import opened PlateProject

  // Confidence adjustments, in ten-thousandths.
  const EXACT_MATCH_BONUS: int := 500
  const GENERIC_MATCH_BONUS: int := 250
  const SUBSTITUTION_COST: int := 200
  const NO_MATCH_PENALTY: int := -1000
  const IMPLAUSIBLE_LENGTH_PENALTY: int := -1500

  const MIN_PLAUSIBLE_LENGTH: nat := 4
  const MAX_PLAUSIBLE_LENGTH: nat := 8

  datatype NormalisedPlate = NormalisedPlate(
    raw: string,
    normalised: string,
    matched: bool,
    patternName: Option<string>,
    stateHint: Option<string>,
    confidenceDelta: int,
    cleaned: string,
    substitutions: nat,
    plausibleStates: seq<string>)

  function ConfidenceDelta(p: Pattern, substitutions: nat): int {
    var earned := (if p.Generic() then GENERIC_MATCH_BONUS else EXACT_MATCH_BONUS)
                  - substitutions * SUBSTITUTION_COST;
    if earned < NO_MATCH_PENALTY then NO_MATCH_PENALTY else earned
  }

  function Unmatched(raw: string, cleaned: string): NormalisedPlate {
    NormalisedPlate(raw, cleaned, false, None, None,
                    if MIN_PLAUSIBLE_LENGTH <= |cleaned| <= MAX_PLAUSIBLE_LENGTH
                    then NO_MATCH_PENALTY else IMPLAUSIBLE_LENGTH_PENALTY,
                    cleaned, 0, [])
  }

  function Matched(raw: string, cleaned: string, text: string, substitutions: nat, p: Pattern): NormalisedPlate {
    NormalisedPlate(raw, text, true, Some(p.name),
                    if |p.states| == 1 then Some(p.states[0]) else None,
                    ConfidenceDelta(p, substitutions), cleaned, substitutions, p.states)
  }

  // ----- Which pattern wins -------------------------------------------------------------

  /** A mask with digit slots must be shown at least one real digit in one of them. */
  predicate DigitEligible(cleaned: string, mask: string)
    requires |cleaned| == |mask|
  {
    DIGIT_SLOT in mask ==> exists i :: 0 <= i < |mask| && mask[i] == DIGIT_SLOT && IsDigit(cleaned[i])
  }

  ghost predicate IsCandidate(cleaned: string, p: Pattern) {
    |cleaned| == |p.mask| && DigitEligible(cleaned, p.mask) && Projectable(cleaned, p.mask)
  }

  ghost function Subs(cleaned: string, p: Pattern): nat
    requires IsCandidate(cleaned, p)
  {
    Changes(cleaned, SlotwiseText(cleaned, p.mask), |cleaned|)
  }

  /** Fewest changes first, then the most specific pattern, then the table order. */
  ghost predicate NoWorse(cleaned: string, ps: seq<Pattern>, i: nat, j: nat)
    requires i < |ps| && IsCandidate(cleaned, ps[i])
    requires j < |ps| && IsCandidate(cleaned, ps[j])
  {
    || Subs(cleaned, ps[i]) < Subs(cleaned, ps[j])
    || (Subs(cleaned, ps[i]) == Subs(cleaned, ps[j])
        && (ps[i].priority < ps[j].priority || (ps[i].priority == ps[j].priority && i <= j)))
  }

  /** `i` is the winner among the first `n` patterns. */
  ghost predicate IsBestOf(cleaned: string, ps: seq<Pattern>, n: nat, i: nat) {
    && i < n <= |ps| && IsCandidate(cleaned, ps[i])
    && forall j: nat :: j < n && IsCandidate(cleaned, ps[j]) ==> NoWorse(cleaned, ps, i, j)
  }

  ghost predicate IsBest(cleaned: string, ps: seq<Pattern>, i: nat) {
    IsBestOf(cleaned, ps, |ps|, i)
  }

  ghost predicate HasBest(cleaned: string, ps: seq<Pattern>) {
    exists i :: IsBest(cleaned, ps, i)
  }

  ghost function Best(cleaned: string, ps: seq<Pattern>): (i: nat)
    requires HasBest(cleaned, ps)
    ensures IsBest(cleaned, ps, i)
  {
    var i :| IsBest(cleaned, ps, i);
    i
  }

  ghost function Resolve(raw: string, cleaned: string, ps: seq<Pattern>): NormalisedPlate {
    if cleaned != "" && HasBest(cleaned, ps) then
      var p := ps[Best(cleaned, ps)];
      Matched(raw, cleaned, SlotwiseText(cleaned, p.mask), Subs(cleaned, p), p)
    else Unmatched(raw, cleaned)
  }

  ghost function NormaliseOf(raw: string, region: string): NormalisedPlate {
    Resolve(raw, Clean(raw), PatternsForRegion(region))
  }

  datatype Candidate = Candidate(subs: nat, priority: nat, rank: nat, index: nat, text: string)

  predicate Precedes(a: Candidate, b: Candidate) {
    || a.subs < b.subs
    || (a.subs == b.subs
        && (a.priority < b.priority
            || (a.priority == b.priority
                && (a.rank < b.rank || (a.rank == b.rank && a.index < b.index)))))
  }

  method Normalise(raw: string, region: string) returns (r: NormalisedPlate)
    ensures r == NormaliseOf(raw, region)
  {
    CleanIsPlateText(raw);
    var cleaned := Clean(raw);
    var ps := PatternsForRegion(region);
    if cleaned == "" {
      return NormalisedPlate(raw, "", false, None, None, IMPLAUSIBLE_LENGTH_PENALTY, "", 0, []);
    }
    r := ResolveAgainst(raw, cleaned, ps);
  }

  /** Collect a candidate for every pattern that fits, then take the least. */
  method ResolveAgainst(raw: string, cleaned: string, ps: seq<Pattern>) returns (r: NormalisedPlate)
    requires cleaned != "" && IsPlateText(cleaned)
    ensures r == Resolve(raw, cleaned, ps)
  {
    var candidates: seq<Candidate> := [];
    for index := 0 to |ps|
      invariant Collected(cleaned, ps, candidates, index)
    {
      var candidate := CandidateFor(cleaned, ps, index);
      CollectOne(cleaned, ps, candidates, candidate, index);
      if candidate.Some? {
        candidates := candidates + [candidate.value];
      }
    }
    if candidates == [] {
      assert !HasBest(cleaned, ps);
      return Unmatched(raw, cleaned);
    }
    var least := Least(candidates);
    LeastIsBest(cleaned, ps, candidates, least);
    r := Matched(raw, cleaned, least.text, least.subs, ps[least.index]);
  }

  method CandidateFor(cleaned: string, ps: seq<Pattern>, index: nat) returns (c: Option<Candidate>)
    requires IsPlateText(cleaned) && index < |ps|
    ensures c.Some? <==> IsCandidate(cleaned, ps[index])
    ensures c.Some? ==> c.value.index == index && DescribesCandidate(cleaned, ps, c.value)
  {
    var p := ps[index];
    if |p.mask| != |cleaned| || !DigitEligible(cleaned, p.mask) {
      return None;
    }
    var projected := Project(cleaned, p.mask);
    match projected
    case None => return None;
    case Some(v) => return Some(Candidate(v.subs, p.priority, v.rank, index, v.text));
  }

  method Least(candidates: seq<Candidate>) returns (least: Candidate)
    requires candidates != []
    ensures least in candidates
    ensures forall c :: c in candidates ==> !Precedes(c, least)
  {
    least := candidates[0];
    for k := 1 to |candidates|
      invariant least in candidates
      invariant forall j :: 0 <= j < k ==> !Precedes(candidates[j], least)
    {
      if Precedes(candidates[k], least) {
        least := candidates[k];
      }
    }
  }

  /** The candidates describe exactly the patterns among the first `n` that can be fitted. */
  ghost predicate Collected(cleaned: string, ps: seq<Pattern>, candidates: seq<Candidate>, n: nat) {
    && n <= |ps|
    && (forall c :: c in candidates ==> c.index < n && DescribesCandidate(cleaned, ps, c))
    && (forall j :: 0 <= j < n && IsCandidate(cleaned, ps[j]) ==> exists c :: c in candidates && c.index == j)
  }

  lemma CollectOne(cleaned: string, ps: seq<Pattern>, before: seq<Candidate>, next: Option<Candidate>, n: nat)
    requires n < |ps| && Collected(cleaned, ps, before, n)
    requires next.Some? <==> IsCandidate(cleaned, ps[n])
    requires next.Some? ==> next.value.index == n && DescribesCandidate(cleaned, ps, next.value)
    ensures Collected(cleaned, ps, if next.Some? then before + [next.value] else before, n + 1)
  {
    var after := if next.Some? then before + [next.value] else before;
    forall j | 0 <= j < n + 1 && IsCandidate(cleaned, ps[j])
      ensures exists c :: c in after && c.index == j
    {
      if j < n {
        var c :| c in before && c.index == j;
        assert c in after;
      } else {
        assert next.value in after;
      }
    }
  }

  ghost predicate DescribesCandidate(cleaned: string, ps: seq<Pattern>, c: Candidate) {
    && c.index < |ps| && IsCandidate(cleaned, ps[c.index])
    && c.subs == Subs(cleaned, ps[c.index]) && c.priority == ps[c.index].priority
    && c.rank == 0 && c.text == SlotwiseText(cleaned, ps[c.index].mask)
  }

  lemma LeastIsBest(cleaned: string, ps: seq<Pattern>, candidates: seq<Candidate>, least: Candidate)
    requires Collected(cleaned, ps, candidates, |ps|) && least in candidates
    requires forall c :: c in candidates ==> !Precedes(c, least)
    ensures HasBest(cleaned, ps) && Best(cleaned, ps) == least.index
    ensures DescribesCandidate(cleaned, ps, least)
  {
    LeastPrecedesAll(cleaned, ps, candidates, least);
    assert IsBest(cleaned, ps, least.index);
  }

  lemma LeastPrecedesAll(cleaned: string, ps: seq<Pattern>, candidates: seq<Candidate>, least: Candidate)
    requires Collected(cleaned, ps, candidates, |ps|) && least in candidates
    requires forall c :: c in candidates ==> !Precedes(c, least)
    ensures IsBest(cleaned, ps, least.index)
  {
    forall j | 0 <= j < |ps| && IsCandidate(cleaned, ps[j])
      ensures exists c :: c in candidates && c.index == j && DescribesCandidate(cleaned, ps, c) && !Precedes(c, least)
    {
      var c :| c in candidates && c.index == j;
    }
  }

}
