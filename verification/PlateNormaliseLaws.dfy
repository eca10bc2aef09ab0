/** What normalisation promises about every reading and every region. */
module PlateNormaliseLaws {
  import opened Options
  import opened PlateAlphabet
  import opened PlateClean
  import opened PlatePatterns
  import opened PlateProject
  import opened PlateNormalise
  import opened EditDistance
  import opened Text

  // ----- The candidate cap never fires for a shipped mask -------------------------------

  function Pow3(n: nat): nat {
    if n == 0 then 1 else 3 * Pow3(n - 1)
  }

  lemma {:induction false} CombinationsBound(cleaned: string, mask: string, n: nat)
    requires IsPlateText(cleaned) && n <= |mask| == |cleaned|
    ensures Combinations(PerSlot(cleaned, mask, n)) <= Pow3(LetterSlots(mask, n))
  {
    if n > 0 {
      CombinationsBound(cleaned, mask, n - 1);
      SlotOptionsSpec(cleaned[n - 1], mask[n - 1]);
      assert PerSlot(cleaned, mask, n)[..n - 1] == PerSlot(cleaned, mask, n - 1);
      var c, k := Combinations(PerSlot(cleaned, mask, n - 1)), |SlotOptions(cleaned[n - 1], mask[n - 1])|;
      var bound := if mask[n - 1] == LETTER_SLOT then 3 else 1;
      ProductsGrow(c, Pow3(LetterSlots(mask, n - 1)), k, bound);
    }
  }

  lemma ProductsGrow(a: nat, b: nat, k: nat, m: nat)
    requires a <= b && k <= m
    ensures a * k <= b * m
  {
    assert a * k <= b * k && b * k <= b * m;
  }

  lemma {:induction false} Pow3Grows(n: nat, m: nat)
    requires n <= m
    ensures Pow3(n) <= Pow3(m)
    decreases m - n
  {
    if n < m {
      Pow3Grows(n + 1, m);
    }
  }

  lemma CapNeverFires(cleaned: string, mask: string)
    requires IsPlateText(cleaned) && SoundMask(mask)
    ensures Projectable(cleaned, mask) <==> AllOffered(cleaned, mask)
    ensures AllOffered(cleaned, mask) ==> Combinations(PerSlot(cleaned, mask, |mask|)) <= 243
  {
    SoundMaskHasFewLetterSlots(mask);
    Pow3Grows(LetterSlots(mask, |mask|), 5);
    assert Pow3(5) == 243;
    if |cleaned| == |mask| {
      CombinationsBound(cleaned, mask, |mask|);
    }
  }

  // ----- A projection changes as little as the mask allows ------------------------------

  lemma SlotwiseTextFits(cleaned: string, mask: string)
    requires IsPlateText(cleaned) && AllOffered(cleaned, mask)
    ensures Fits(SlotwiseText(cleaned, mask), mask)
    ensures LookAlikes(cleaned, SlotwiseText(cleaned, mask))
  {
    forall i | 0 <= i < |mask| {
      FirstOption(cleaned[i], mask[i]);
    }
  }

  lemma FittingTextIsOffered(cleaned: string, mask: string, text: string)
    requires IsPlateText(cleaned) && Fits(text, mask) && LookAlikes(cleaned, text)
    ensures AllOffered(cleaned, mask)
  {
    forall i | 0 <= i < |mask|
      ensures SlotOptions(cleaned[i], mask[i]) != []
    {
      FittingLookAlikeIsOffered(cleaned[i], text[i], mask[i]);
    }
  }

  lemma SlotwiseTextIsClosest(cleaned: string, mask: string, text: string, n: nat)
    requires IsPlateText(cleaned) && AllOffered(cleaned, mask)
    requires Fits(text, mask) && n <= |mask|
    ensures Changes(cleaned, SlotwiseText(cleaned, mask), n) <= Changes(cleaned, text, n)
  {
    var slotwise := SlotwiseText(cleaned, mask);
    forall i | 0 <= i < |mask|
      ensures FitsSlot(cleaned[i], mask[i]) ==> slotwise[i] == cleaned[i]
    {
      OnlyMisfitsChange(cleaned, mask, i);
    }
    KeepingFitsIsClosest(cleaned, mask, slotwise, text, n);
  }

  lemma {:induction false} KeepingFitsIsClosest(cleaned: string, mask: string, kept: string, text: string, n: nat)
    requires n <= |mask| == |cleaned| == |kept| == |text|
    requires forall i :: 0 <= i < |mask| ==> FitsSlot(text[i], mask[i])
    requires forall i :: 0 <= i < |mask| && FitsSlot(cleaned[i], mask[i]) ==> kept[i] == cleaned[i]
    ensures Changes(cleaned, kept, n) <= Changes(cleaned, text, n)
  {
    if n > 0 {
      KeepingFitsIsClosest(cleaned, mask, kept, text, n - 1);
    }
  }

  lemma OnlyMisfitsChange(cleaned: string, mask: string, i: nat)
    requires IsPlateText(cleaned) && AllOffered(cleaned, mask) && i < |mask|
    ensures FitsSlot(cleaned[i], mask[i]) ==> SlotwiseText(cleaned, mask)[i] == cleaned[i]
  {
    if FitsSlot(cleaned[i], mask[i]) {
      FittingCharacterIsKept(cleaned[i], mask[i]);
    }
  }

  lemma FittingCharacterIsKept(ch: char, slot: char)
    requires IsPlateChar(ch) && SlotOptions(ch, slot) != [] && FitsSlot(ch, slot)
    ensures SlotOptions(ch, slot)[0].c == ch
  {
    SlotOptionsSpec(ch, slot);
  }

  // ----- The winner over all patterns ---------------------------------------------------

  lemma NoWorseIsTransitive(cleaned: string, ps: seq<Pattern>, i: nat, j: nat, k: nat)
    requires i < |ps| && j < |ps| && k < |ps|
    requires IsCandidate(cleaned, ps[i]) && IsCandidate(cleaned, ps[j]) && IsCandidate(cleaned, ps[k])
    requires NoWorse(cleaned, ps, i, j) && NoWorse(cleaned, ps, j, k)
    ensures NoWorse(cleaned, ps, i, k)
  {
  }

  /** The better of the best so far and the next candidate is the best of one more. */
  lemma BestOfOneMore(cleaned: string, ps: seq<Pattern>, n: nat, i: nat)
    requires n < |ps| && IsBestOf(cleaned, ps, n, i)
    ensures if IsCandidate(cleaned, ps[n]) && !NoWorse(cleaned, ps, i, n)
            then IsBestOf(cleaned, ps, n + 1, n) else IsBestOf(cleaned, ps, n + 1, i)
  {
    if IsCandidate(cleaned, ps[n]) && !NoWorse(cleaned, ps, i, n) {
      NewBest(cleaned, ps, n, i);
    } else {
      OldBest(cleaned, ps, n, i);
    }
  }

  lemma NoWorseIsTotal(cleaned: string, ps: seq<Pattern>, i: nat, j: nat)
    requires i < |ps| && IsCandidate(cleaned, ps[i]) && j < |ps| && IsCandidate(cleaned, ps[j])
    ensures NoWorse(cleaned, ps, i, j) || NoWorse(cleaned, ps, j, i)
  {
  }

  lemma NewBest(cleaned: string, ps: seq<Pattern>, n: nat, i: nat)
    requires n < |ps| && IsBestOf(cleaned, ps, n, i) && IsCandidate(cleaned, ps[n]) && !NoWorse(cleaned, ps, i, n)
    ensures IsBestOf(cleaned, ps, n + 1, n)
  {
    NoWorseIsTotal(cleaned, ps, i, n);
    forall j: nat | j < n + 1 && IsCandidate(cleaned, ps[j])
      ensures NoWorse(cleaned, ps, n, j)
    {
      if j < n {
        NoWorseIsTransitive(cleaned, ps, n, i, j);
      }
    }
  }

  lemma OldBest(cleaned: string, ps: seq<Pattern>, n: nat, i: nat)
    requires n < |ps| && IsBestOf(cleaned, ps, n, i)
    requires IsCandidate(cleaned, ps[n]) ==> NoWorse(cleaned, ps, i, n)
    ensures IsBestOf(cleaned, ps, n + 1, i)
  {
    forall j: nat | j < n + 1 && IsCandidate(cleaned, ps[j])
      ensures NoWorse(cleaned, ps, i, j)
    {
      if j < n {
        assert NoWorse(cleaned, ps, i, j);
      }
    }
  }

  lemma OnlyCandidateIsBest(cleaned: string, ps: seq<Pattern>, n: nat)
    requires n < |ps| && IsCandidate(cleaned, ps[n]) && forall j: nat :: j < n ==> !IsCandidate(cleaned, ps[j])
    ensures IsBestOf(cleaned, ps, n + 1, n)
  {
  }

  lemma {:induction false} SomeCandidateIsBest(cleaned: string, ps: seq<Pattern>, k: nat, n: nat)
      returns (i: nat)
    requires k < n <= |ps| && IsCandidate(cleaned, ps[k])
    ensures IsBestOf(cleaned, ps, n, i)
    decreases n
  {
    hide IsBestOf, NoWorse, IsCandidate;
    var last: nat := n - 1;
    if earlier: nat :| earlier < last && IsCandidate(cleaned, ps[earlier]) {
      i := SomeCandidateIsBest(cleaned, ps, earlier, last);
      BestOfOneMore(cleaned, ps, last, i);
      if !IsBestOf(cleaned, ps, n, i) {
        i := last;
      }
    } else {
      i := last;
      OnlyCandidateIsBest(cleaned, ps, last);
    }
  }

  /** `text` reads `cleaned` as pattern `p`: it fits the mask, differs only by look-alikes, and
      the reading showed the mask a real digit. */
  ghost predicate Explains(cleaned: string, p: Pattern, text: string) {
    && |p.mask| == |cleaned| && DigitEligible(cleaned, p.mask)
    && Fits(text, p.mask) && LookAlikes(cleaned, text)
  }

  /** A match is one of the texts that explain the reading. */
  lemma NormaliseExplains(raw: string, region: string)
    ensures var r := NormaliseOf(raw, region);
            r.raw == raw && r.cleaned == Clean(raw)
    ensures var r := NormaliseOf(raw, region);
            r.matched ==>
              exists p :: && p in PatternsForRegion(region) && Explains(r.cleaned, p, r.normalised)
                          && r.patternName == Some(p.name) && r.plausibleStates == p.states
                          && r.substitutions == Changes(r.cleaned, r.normalised, |r.cleaned|)
    ensures var r := NormaliseOf(raw, region);
            !r.matched ==> r.normalised == r.cleaned && r.patternName == r.stateHint == None
                           && r.substitutions == 0 && r.confidenceDelta < 0
  {
    CleanIsPlateText(raw);
    var cleaned, ps := Clean(raw), PatternsForRegion(region);
    if cleaned != "" && HasBest(cleaned, ps) {
      var p := ps[Best(cleaned, ps)];
      SlotwiseTextFits(cleaned, p.mask);
      assert p in ps && Explains(cleaned, p, SlotwiseText(cleaned, p.mask));
    }
  }

  lemma RegionMaskIsSound(region: string, p: Pattern)
    requires p in PatternsForRegion(region)
    ensures SoundMask(p.mask)
  {
    RegionKeepsShapes(region);
    var i :| 0 <= i < |PatternsForRegion(region)| && PatternsForRegion(region)[i] == p;
    ShippedMasksAreSound(i);
  }

  lemma ExplanationIsCandidate(region: string, cleaned: string, p: Pattern, text: string)
    requires IsPlateText(cleaned) && p in PatternsForRegion(region) && Explains(cleaned, p, text)
    ensures cleaned != "" && IsCandidate(cleaned, p)
    ensures Subs(cleaned, p) <= Changes(cleaned, text, |cleaned|)
  {
    RegionMaskIsSound(region, p);
    FittingTextIsOffered(cleaned, p.mask, text);
    CapNeverFires(cleaned, p.mask);
    SlotwiseTextIsClosest(cleaned, p.mask, text, |cleaned|);
  }

  lemma CandidateIsBeaten(cleaned: string, ps: seq<Pattern>, p: Pattern)
    requires p in ps && IsCandidate(cleaned, p)
    ensures HasBest(cleaned, ps) && Subs(cleaned, ps[Best(cleaned, ps)]) <= Subs(cleaned, p)
  {
    var k: nat :| k < |ps| && ps[k] == p;
    var i := SomeCandidateIsBest(cleaned, ps, k, |ps|);
    assert IsBest(cleaned, ps, i);
    assert NoWorse(cleaned, ps, Best(cleaned, ps), k);
  }

  /** Whenever any text explains the reading under any mask, the reading matches, and with no
      more changes than that text needs. */
  lemma NormaliseChangesFewest(raw: string, region: string, p: Pattern, text: string)
    requires p in PatternsForRegion(region) && Explains(Clean(raw), p, text)
    ensures NormaliseOf(raw, region).matched
    ensures NormaliseOf(raw, region).substitutions <= Changes(Clean(raw), text, |Clean(raw)|)
  {
    CleanIsPlateText(raw);
    ExplanationIsCandidate(region, Clean(raw), p, text);
    CandidateIsBeaten(Clean(raw), PatternsForRegion(region), p);
  }

  // ----- Normalising again changes nothing ----------------------------------------------

  lemma {:induction false} NoChanges(a: string, b: string, n: nat)
    requires n <= |a| && n <= |b|
    ensures Changes(a, b, n) == 0 <==> a[..n] == b[..n]
  {
    if n > 0 {
      NoChanges(a, b, n - 1);
      assert a[..n] == a[..n - 1] + [a[n - 1]] && b[..n] == b[..n - 1] + [b[n - 1]];
    }
  }

  lemma NormalisedIsPlateText(raw: string, region: string)
    ensures IsPlateText(NormaliseOf(raw, region).normalised)
  {
    CleanIsPlateText(raw);
    NormaliseExplains(raw, region);
    var r := NormaliseOf(raw, region);
    if r.matched {
      var p :| p in PatternsForRegion(region) && Explains(r.cleaned, p, r.normalised);
      RegionMaskIsSound(region, p);
    }
  }

  /** A text that already fits a mask is matched as it stands. */
  lemma FittingTextIsKept(text: string, region: string, p: Pattern)
    requires IsPlateText(text) && p in PatternsForRegion(region) && Fits(text, p.mask)
    ensures var r := NormaliseOf(text, region);
            r.matched && r.normalised == text && r.substitutions == 0
  {
    CleanKeepsPlateText(text);
    FittingTextShowsItsDigits(text, p.mask);
    NoChanges(text, text, |text|);
    NormaliseChangesFewest(text, region, p, text);
    NormaliseExplains(text, region);
    UnchangedText(text, NormaliseOf(text, region).normalised);
  }

  lemma UnchangedText(a: string, b: string)
    requires |a| == |b| && Changes(a, b, |a|) == 0
    ensures a == b
  {
    NoChanges(a, b, |a|);
    assert a[..|a|] == a && b[..|b|] == b;
  }

  lemma NormaliseIsFixpoint(raw: string, region: string)
    ensures var r, again := NormaliseOf(raw, region), NormaliseOf(NormaliseOf(raw, region).normalised, region);
            again.normalised == r.normalised && again.matched == r.matched && again.substitutions == 0
  {
    var r := NormaliseOf(raw, region);
    NormalisedIsPlateText(raw, region);
    if r.matched {
      MatchFitsSomeMask(raw, region);
      var p :| p in PatternsForRegion(region) && Fits(r.normalised, p.mask);
      FittingTextIsKept(r.normalised, region, p);
    } else {
      CleanIsIdempotent(raw);
    }
  }

  lemma MatchFitsSomeMask(raw: string, region: string)
    requires NormaliseOf(raw, region).matched
    ensures exists p :: p in PatternsForRegion(region) && Fits(NormaliseOf(raw, region).normalised, p.mask)
  {
    NormaliseExplains(raw, region);
  }

  lemma FittingTextShowsItsDigits(text: string, mask: string)
    requires Fits(text, mask)
    ensures DigitEligible(text, mask) && LookAlikes(text, text)
  {
    if DIGIT_SLOT in mask {
      var i :| 0 <= i < |mask| && mask[i] == DIGIT_SLOT;
      assert FitsSlot(text[i], mask[i]);
    }
  }

  // ----- A normalised reading stays close to what was read ------------------------------

  lemma {:induction false} LookAlikesAreNear(a: string, b: string, n: nat)
    requires LookAlikes(a, b) && n <= |a|
    ensures Cost(a, b, n, n) <= Changes(a, b, n) * CONFUSION_SUB_COST
  {
    if n > 0 {
      LookAlikesAreNear(a, b, n - 1);
    }
  }

  lemma SimilarAfterChanges(a: string, b: string)
    requires LookAlikes(a, b) && a != ""
    ensures Similarity(a, b) >= OneMinusRatio(Changes(a, b, |a|), 2 * |a|)
  {
    LookAlikesAreNear(a, b, |a|);
    SmallerRatio(Distance(a, b), Changes(a, b, |a|), 2 * |a|);
  }

  /** Each substitution costs a match at most half a character of similarity. */
  lemma NormaliseStaysSimilar(raw: string, region: string)
    requires Clean(raw) != ""
    ensures var r := NormaliseOf(raw, region);
            Similarity(Clean(raw), Clean(r.normalised)) >= OneMinusRatio(r.substitutions, 2 * |Clean(raw)|)
  {
    var r := NormaliseOf(raw, region);
    NormalisedIsPlateText(raw, region);
    CleanKeepsPlateText(r.normalised);
    ChangesAreLookAlikes(raw, region);
    SimilarAfterChanges(Clean(raw), r.normalised);
  }

  lemma ChangesAreLookAlikes(raw: string, region: string)
    ensures var r := NormaliseOf(raw, region);
            LookAlikes(Clean(raw), r.normalised) && r.substitutions == Changes(Clean(raw), r.normalised, |Clean(raw)|)
  {
    NormaliseExplains(raw, region);
    NoChanges(Clean(raw), Clean(raw), |Clean(raw)|);
  }

  lemma SmallerRatio(m: nat, n: nat, d: nat)
    requires m <= n && d > 0
    ensures OneMinusRatio(m, d) >= OneMinusRatio(n, d)
  {
  }

  // ----- Scoping to a state attributes less but matches the same ------------------------

  /** Two regions that have patterns at all agree on what matches and on how many changes. */
  lemma RegionScopingKeepsMatches(raw: string, region: string, other: string)
    requires PatternsForRegion(region) != [] && PatternsForRegion(other) != []
    ensures NormaliseOf(raw, region).matched ==> NormaliseOf(raw, other).matched
    ensures NormaliseOf(raw, region).matched ==>
              NormaliseOf(raw, other).substitutions <= NormaliseOf(raw, region).substitutions
  {
    hide PatternsForRegion, Changes, Fits, LookAlikes, DigitEligible;
    NormaliseExplains(raw, region);
    var r := NormaliseOf(raw, region);
    if r.matched {
      var p :| && p in PatternsForRegion(region) && Explains(r.cleaned, p, r.normalised)
               && r.substitutions == Changes(r.cleaned, r.normalised, |r.cleaned|);
      RegionKeepsShapes(region);
      RegionKeepsShapes(other);
      var i :| 0 <= i < |PatternsForRegion(region)| && PatternsForRegion(region)[i] == p;
      var q := PatternsForRegion(other)[i];
      assert q in PatternsForRegion(other) && q.mask == p.mask;
      NormaliseChangesFewest(raw, other, q, r.normalised);
    }
  }

  // ----- Similarity of raw readings -----------------------------------------------------

  /** `plate_similarity`: both sides are cleaned first. */
  method PlateSimilarity(a: string, b: string) returns (r: real)
    ensures 0.0 <= r <= 1.0
    ensures r == Similarity(Clean(a), Clean(b)) == Similarity(Clean(b), Clean(a))
    ensures r == 1.0 <==> Clean(a) == Clean(b)
  {
    SimilarityLaws(Clean(a), Clean(b));
    r := ComputeSimilarity(Clean(a), Clean(b));
  }

  // ----- What a match is worth, and which of several it is ----------------------------------

  /** A match earns 500 when it names states and 250 when it does not, less 200 for each change, and never
      costs more than 1000; a miss costs 1000, or 1500 when it is no plate by its length. A state is given
      exactly when it is the only one. */
  lemma ConfidenceIsEarned(raw: string, region: string)
    ensures var r := NormaliseOf(raw, region);
            if r.matched then
              var earned := (if r.plausibleStates == [] then 250 else 500) - 200 * r.substitutions;
              && (earned >= -1000 ==> r.confidenceDelta == earned) && (earned < -1000 ==> r.confidenceDelta == -1000)
              && (forall state :: r.stateHint == Some(state) <==> r.plausibleStates == [state])
            else
              && r.confidenceDelta == (if |Clean(raw)| in {4, 5, 6, 7, 8} then -1000 else -1500)
              && r.plausibleStates == [] && r.stateHint == None
  {
    hide Clean, PatternsForRegion, HasBest, Subs, SlotwiseText;
  }

  /** Only a reading with a digit in it matches: every mask has to be shown one. */
  lemma MatchShowsADigit(raw: string, region: string) returns (k: nat)
    requires NormaliseOf(raw, region).matched
    ensures k < |Clean(raw)| && IsDigit(Clean(raw)[k])
  {
    hide Clean, PatternsForRegion, NormaliseOf;
    NormaliseExplains(raw, region);
    var p :| p in PatternsForRegion(region) && Explains(Clean(raw), p, NormaliseOf(raw, region).normalised);
    RegionMaskIsSound(region, p);
    k :| k < |p.mask| && p.mask[k] == DIGIT_SLOT && IsDigit(Clean(raw)[k]);
  }

  /** Among the formats that explain a reading with as few changes, the most specific one wins, and of
      those the one that comes first in the table. */
  lemma MostSpecificWins(raw: string, region: string, j: nat, text: string) returns (i: nat)
    requires j < |PatternsForRegion(region)| && Explains(Clean(raw), PatternsForRegion(region)[j], text)
    requires Changes(Clean(raw), text, |Clean(raw)|) == NormaliseOf(raw, region).substitutions
    ensures var (ps, r) := (PatternsForRegion(region), NormaliseOf(raw, region));
            && i < |ps| && r.patternName == Some(ps[i].name) && r.plausibleStates == ps[i].states
            && (ps[i].priority < ps[j].priority || (ps[i].priority == ps[j].priority && i <= j))
  {
    hide PatternsForRegion, IsCandidate, Clean, Explains;
    CleanIsPlateText(raw);
    var cleaned, ps := Clean(raw), PatternsForRegion(region);
    assert ps[j] in ps;
    ExplanationIsCandidate(region, cleaned, ps[j], text);
    CandidateIsBeaten(cleaned, ps, ps[j]);
    i := Best(cleaned, ps);
    assert NoWorse(cleaned, ps, i, j);
  }

  // ----- What a region does to attributions -------------------------------------------------

  /** In the region of one state a format names either no state or the shipped ones, that state among them;
      its shape is the shipped one. */
  lemma ScopedFormat(region: string, state: string, i: nat)
    requires UpperText(Strip(region)) == "AU-" + state && i < |AU_PATTERNS|
    ensures var (ps, shipped) := (PatternsForRegion(region), AU_PATTERNS[i]);
            && |ps| == |AU_PATTERNS| && ps[i].name == shipped.name && ps[i].mask == shipped.mask
            && (if state in shipped.states then ps[i].states == shipped.states && ps[i].priority == shipped.priority
                else ps[i].states == [] && ps[i].priority == 2)
  {
    var token := UpperText(Strip(region));
    assert token[3..] == state && token[0] == 'A' && token[2] == '-';
    ShippedPriority(i);
  }

  lemma ShippedPriority(i: nat)
    requires i < |AU_PATTERNS|
    ensures AU_PATTERNS[i].states == [] ==> AU_PATTERNS[i].priority == 2
  {
  }

  /** The whole country has the shipped formats, and an unset or switched-off region none. */
  lemma OtherRegions(region: string)
    ensures UpperText(Strip(region)) == "AU" ==> PatternsForRegion(region) == AU_PATTERNS
    ensures UpperText(Strip(region)) in {"", "NONE", "OFF"} ==> PatternsForRegion(region) == []
    ensures PatternsForRegion(region) != [] ==>
              UpperText(Strip(region)) == "AU"
              || exists state :: UpperText(Strip(region)) == "AU-" + state
  {
    hide Strip, UpperText;
    var token := UpperText(Strip(region));
    if "AU-" <= token {
      assert token == "AU-" + token[3..];
    }
  }

  /** In the region of one state, a match never names states without naming that one. */
  lemma OnlyOwnStateIsNamed(raw: string, region: string, state: string)
    requires UpperText(Strip(region)) == "AU-" + state
    ensures var r := NormaliseOf(raw, region);
            && (r.plausibleStates == [] || state in r.plausibleStates)
            && (r.stateHint.Some? ==> r.stateHint == Some(state))
  {
    hide PatternsForRegion, Explains, Changes, NormaliseOf, Strip, UpperText;
    NormaliseExplains(raw, region);
    ConfidenceIsEarned(raw, region);
    var r := NormaliseOf(raw, region);
    if r.matched {
      var p :| p in PatternsForRegion(region) && r.plausibleStates == p.states;
      RegionKeepsShapes(region);
      var i :| 0 <= i < |PatternsForRegion(region)| && PatternsForRegion(region)[i] == p;
      ScopedFormat(region, state, i);
    }
  }
}
