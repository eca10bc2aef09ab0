/** Fitting a cleaned reading onto one mask (backend/app/ai/normalise_au.py:403-456). */
module PlateProject {
  import opened Options
  import opened PlateAlphabet
  import opened PlatePatterns

  /** A character that may take a slot, whether it changes the reading, and its rank. */
  datatype Choice = Choice(c: char, subs: nat, rank: nat)

  datatype Projection = Projection(text: string, subs: nat, rank: nat)

  const MAX_CANDIDATES: nat := 512

  function DigitToLetters(c: char): string {
    match c
    case '0' => "ODQ" case '1' => "I" case '2' => "Z"
    case '5' => "S" case '6' => "G" case '8' => "B"
    case _ => ""
  }

  function LetterToDigits(c: char): string {
    match c
    case 'O' => "0" case 'D' => "0" case 'Q' => "0" case 'I' => "1"
    case 'Z' => "2" case 'S' => "5" case 'G' => "6" case 'B' => "8"
    case _ => ""
  }

  function Ranked(cs: string): seq<Choice> {
    seq(|cs|, r requires 0 <= r < |cs| => Choice(cs[r], 1, r))
  }

  function SlotOptions(ch: char, slot: char): seq<Choice> {
    if slot == LETTER_SLOT then
      if IsLetter(ch) then [Choice(ch, 0, 0)] else Ranked(DigitToLetters(ch))
    else if slot == DIGIT_SLOT then
      if IsDigit(ch) then [Choice(ch, 0, 0)] else Ranked(LetterToDigits(ch))
    else if ch == slot then [Choice(slot, 0, 0)]
    else if Confusable(ch, slot) then [Choice(slot, 1, 0)]
    else []
  }

  // ----- What a reading may be taken for ------------------------------------------------

  predicate FitsSlot(c: char, slot: char) {
    if slot == LETTER_SLOT then IsLetter(c) else if slot == DIGIT_SLOT then IsDigit(c) else c == slot
  }

  predicate Fits(text: string, mask: string) {
    |text| == |mask| && forall i :: 0 <= i < |text| ==> FitsSlot(text[i], mask[i])
  }

  /** `text` differs from `cleaned` only by characters of one look-alike group. */
  predicate LookAlikes(cleaned: string, text: string) {
    |cleaned| == |text| && forall i :: 0 <= i < |text| ==> LookAlike(cleaned[i], text[i])
  }

  /** The number of positions, among the first `n`, at which two texts differ. */
  function Changes(a: string, b: string, n: nat): nat
    requires n <= |a| && n <= |b|
  {
    if n == 0 then 0 else Changes(a, b, n - 1) + if a[n - 1] == b[n - 1] then 0 else 1
  }

  /** Every option of a slot fits it and looks like the character, and all come at one cost; a character
      that fits is the only option of its slot. */
  lemma SlotOptionsSpec(ch: char, slot: char)
    requires IsPlateChar(ch)
    ensures forall r :: 0 <= r < |SlotOptions(ch, slot)| ==>
              var o := SlotOptions(ch, slot)[r];
              && FitsSlot(o.c, slot) && LookAlike(ch, o.c) && o.rank == r
              && o.subs == if FitsSlot(ch, slot) then 0 else 1
    ensures FitsSlot(ch, slot) ==> SlotOptions(ch, slot) == [Choice(ch, 0, 0)]
    ensures |SlotOptions(ch, slot)| <= if slot == LETTER_SLOT then 3 else 1
  {
  }

  /** Of several letters for a digit the likeliest comes first. */
  lemma LikeliestLetterFirst(ch: char)
    requires IsDigit(ch) && SlotOptions(ch, LETTER_SLOT) != []
    ensures TextOf(SlotOptions(ch, LETTER_SLOT)) ==
            (if ch == '0' then "ODQ" else if ch == '1' then "I" else if ch == '2' then "Z"
             else if ch == '5' then "S" else if ch == '6' then "G" else "B")
  {
  }

  lemma FittingLookAlikeIsOffered(ch: char, c: char, slot: char)
    requires IsPlateChar(ch) && FitsSlot(c, slot) && LookAlike(ch, c)
    ensures SlotOptions(ch, slot) != []
  {
  }

  // ----- Enumerating the combinations ---------------------------------------------------

  function PerSlot(cleaned: string, mask: string, n: nat): seq<seq<Choice>>
    requires n <= |cleaned| && n <= |mask|
  {
    seq(n, i requires 0 <= i < n => SlotOptions(cleaned[i], mask[i]))
  }

  ghost predicate AllOffered(cleaned: string, mask: string) {
    |cleaned| == |mask| && forall i :: 0 <= i < |mask| ==> SlotOptions(cleaned[i], mask[i]) != []
  }

  function Combinations(slots: seq<seq<Choice>>): nat {
    if slots == [] then 1 else Combinations(slots[..|slots| - 1]) * |slots[|slots| - 1]|
  }

  /** Every way to pick one option a slot, the last slot varying fastest. */
  function Product(slots: seq<seq<Choice>>): seq<seq<Choice>> {
    if slots == [] then [[]] else Prefixed(slots[0], Product(slots[1..]))
  }

  function Prefixed(options: seq<Choice>, rests: seq<seq<Choice>>): seq<seq<Choice>> {
    if options == [] then []
    else seq(|rests|, k requires 0 <= k < |rests| => [options[0]] + rests[k]) + Prefixed(options[1..], rests)
  }

  function TextOf(cs: seq<Choice>): (t: string)
    ensures |t| == |cs| && forall i :: 0 <= i < |cs| ==> t[i] == cs[i].c
  {
    seq(|cs|, i requires 0 <= i < |cs| => cs[i].c)
  }

  function SubsOf(cs: seq<Choice>): nat {
    if cs == [] then 0 else cs[0].subs + SubsOf(cs[1..])
  }

  function RankOf(cs: seq<Choice>): nat {
    if cs == [] then 0 else cs[0].rank + RankOf(cs[1..])
  }

  /** The first option of every slot. */
  function Firsts(slots: seq<seq<Choice>>): seq<Choice>
    requires forall i :: 0 <= i < |slots| ==> slots[i] != []
  {
    seq(|slots|, i requires 0 <= i < |slots| => slots[i][0])
  }

  /** Options are non-empty, cost the same throughout a slot, and rank from zero. */
  ghost predicate Uniform(slots: seq<seq<Choice>>) {
    forall i, r :: 0 <= i < |slots| && 0 <= r < |slots[i]| ==>
      slots[i][r].subs == slots[i][0].subs && slots[i][0].rank == 0
  }

  ghost predicate Picks(options: seq<Choice>, rests: seq<seq<Choice>>, c: seq<Choice>) {
    c != [] && c[0] in options && c[1..] in rests
  }

  lemma {:induction false} PrefixedElements(options: seq<Choice>, rests: seq<seq<Choice>>)
    requires rests != []
    ensures options != [] ==> Prefixed(options, rests) != [] && Prefixed(options, rests)[0] == [options[0]] + rests[0]
    ensures forall c :: c in Prefixed(options, rests) ==> Picks(options, rests, c)
  {
    if options == [] {
      assert Prefixed(options, rests) == [];
    } else {
      PrefixedElements(options[1..], rests);
      var here := seq(|rests|, k requires 0 <= k < |rests| => [options[0]] + rests[k]);
      assert Prefixed(options, rests) == here + Prefixed(options[1..], rests);
      assert Prefixed(options, rests)[0] == here[0] == [options[0]] + rests[0];
      forall c | c in Prefixed(options, rests)
        ensures Picks(options, rests, c)
      {
        if c in here {
          var k :| 0 <= k < |rests| && here[k] == c;
          assert c[1..] == rests[k];
        }
      }
    }
  }

  /** The enumeration starts with the first choices, and nothing later costs less. */
  lemma {:induction false} FirstCombinationIsBest(slots: seq<seq<Choice>>)
    requires Uniform(slots) && forall i :: 0 <= i < |slots| ==> slots[i] != []
    ensures Product(slots) != [] && Product(slots)[0] == Firsts(slots)
    ensures RankOf(Firsts(slots)) == 0
    ensures forall k :: 0 <= k < |Product(slots)| ==> SubsOf(Product(slots)[k]) == SubsOf(Firsts(slots))
  {
    if slots == [] {
      assert Firsts(slots) == [];
    } else {
      var rests := Product(slots[1..]);
      assert forall i :: 0 <= i < |slots[1..]| ==> slots[1..][i] == slots[i + 1];
      FirstCombinationIsBest(slots[1..]);
      PrefixedElements(slots[0], rests);
      assert Firsts(slots) == [slots[0][0]] + Firsts(slots[1..]);
      assert Firsts(slots)[1..] == Firsts(slots[1..]);
      forall k | 0 <= k < |Product(slots)|
        ensures SubsOf(Product(slots)[k]) == SubsOf(Firsts(slots))
      {
        var c := Product(slots)[k];
        assert Picks(slots[0], rests, c) && c[0].subs == slots[0][0].subs;
      }
    }
  }

  // ----- The projection -----------------------------------------------------------------

  /** Slot by slot, the reading's own character or its likeliest look-alike. */
  function SlotwiseText(cleaned: string, mask: string): string
    requires AllOffered(cleaned, mask)
  {
    TextOf(Firsts(PerSlot(cleaned, mask, |mask|)))
  }

  ghost predicate Projectable(cleaned: string, mask: string) {
    AllOffered(cleaned, mask) && Combinations(PerSlot(cleaned, mask, |mask|)) <= MAX_CANDIDATES
  }

  function Projected(c: seq<Choice>): Projection {
    Projection(TextOf(c), SubsOf(c), RankOf(c))
  }

  /** The scan over the combinations; when the first is no worse than any other, it wins. */
  method FirstLeast(all: seq<seq<Choice>>) returns (best: Option<Projection>)
    requires all != [] && forall k :: 0 <= k < |all| ==>
               SubsOf(all[0]) == SubsOf(all[k]) && RankOf(all[0]) <= RankOf(all[k])
    ensures best == Some(Projected(all[0]))
  {
    best := None;
    for k := 0 to |all|
      invariant best == if k == 0 then None else Some(Projected(all[0]))
    {
      var p := Projected(all[k]);
      if best == None || p.subs < best.value.subs || (p.subs == best.value.subs && p.rank < best.value.rank) {
        best := Some(p);
      }
    }
  }

  /** `_project`: enumerate every combination and keep the first of least (changes, rank). The
      result is the slot-by-slot first choice, whenever the enumeration is allowed to run. */
  method Project(cleaned: string, mask: string) returns (best: Option<Projection>)
    requires IsPlateText(cleaned)
    ensures best.Some? <==> Projectable(cleaned, mask)
    ensures best.Some? ==>
              && best.value.text == SlotwiseText(cleaned, mask)
              && best.value.subs == Changes(cleaned, best.value.text, |cleaned|)
              && best.value.rank == 0
  {
    hide SlotOptions, Product, Changes;
    if |cleaned| != |mask| {
      return None;
    }
    var perSlot: seq<seq<Choice>> := [];
    var combinations := 1;
    for i := 0 to |mask|
      invariant perSlot == PerSlot(cleaned, mask, i)
      invariant combinations == Combinations(perSlot) <= MAX_CANDIDATES
      invariant forall k :: 0 <= k < i ==> SlotOptions(cleaned[k], mask[k]) != []
    {
      var options := SlotOptions(cleaned[i], mask[i]);
      if options == [] {
        return None;
      }
      combinations := combinations * |options|;
      assert PerSlot(cleaned, mask, i + 1)[..i] == perSlot;
      if combinations > MAX_CANDIDATES {
        CombinationsGrow(cleaned, mask, i + 1, |mask|);
        return None;
      }
      perSlot := perSlot + [options];
    }
    OfferedSlotsAreUniform(cleaned, mask);
    FirstCombinationIsBest(perSlot);
    best := FirstLeast(Product(perSlot));
    FirstsCountChanges(cleaned, mask, |mask|);
  }

  lemma OfferedSlotsAreUniform(cleaned: string, mask: string)
    requires IsPlateText(cleaned) && |cleaned| == |mask|
    ensures Uniform(PerSlot(cleaned, mask, |mask|))
  {
    forall i | 0 <= i < |mask| {
      SlotOptionsSpec(cleaned[i], mask[i]);
    }
  }

  lemma OneMoreSlot(cleaned: string, mask: string, m: nat)
    requires m < |mask| == |cleaned| && SlotOptions(cleaned[m], mask[m]) != []
    ensures Combinations(PerSlot(cleaned, mask, m)) <= Combinations(PerSlot(cleaned, mask, m + 1))
  {
    hide SlotOptions;
    assert PerSlot(cleaned, mask, m + 1)[..m] == PerSlot(cleaned, mask, m);
    var c, k := Combinations(PerSlot(cleaned, mask, m)), |SlotOptions(cleaned[m], mask[m])|;
    assert k >= 1 && c * k >= c;
  }

  /** Once every slot is offered something, more slots never mean fewer combinations. */
  lemma {:induction false} CombinationsGrow(cleaned: string, mask: string, m: nat, n: nat)
    requires m <= n == |mask| == |cleaned|
    ensures AllOffered(cleaned, mask) ==>
              Combinations(PerSlot(cleaned, mask, m)) <= Combinations(PerSlot(cleaned, mask, n))
    decreases n - m
  {
    hide Combinations, PerSlot, SlotOptions;
    if m < n {
      CombinationsGrow(cleaned, mask, m + 1, n);
      if AllOffered(cleaned, mask) {
        OneMoreSlot(cleaned, mask, m);
      }
    }
  }

  lemma {:induction false} SubsOfAppend(cs: seq<Choice>, c: Choice)
    ensures SubsOf(cs + [c]) == SubsOf(cs) + c.subs
  {
    if cs == [] {
      assert cs + [c] == [c] && [c][1..] == [];
    } else {
      SubsOfAppend(cs[1..], c);
      assert (cs + [c])[1..] == cs[1..] + [c];
    }
  }

  lemma FirstOption(ch: char, slot: char)
    requires IsPlateChar(ch) && SlotOptions(ch, slot) != []
    ensures var first := SlotOptions(ch, slot)[0];
            FitsSlot(first.c, slot) && LookAlike(ch, first.c) && first.subs == if first.c == ch then 0 else 1
  {
    SlotOptionsSpec(ch, slot);
  }

  lemma ChangesStep(a: string, b: string, n: nat)
    requires 0 < n <= |a| && n <= |b|
    ensures Changes(a, b, n) == Changes(a, b, n - 1) + if a[n - 1] == b[n - 1] then 0 else 1
  {
  }

  lemma FirstsStep(cleaned: string, mask: string, n: nat)
    requires AllOffered(cleaned, mask) && 0 < n <= |mask|
    ensures Firsts(PerSlot(cleaned, mask, n))
         == Firsts(PerSlot(cleaned, mask, n - 1)) + [SlotOptions(cleaned[n - 1], mask[n - 1])[0]]
    ensures SlotwiseText(cleaned, mask)[n - 1] == SlotOptions(cleaned[n - 1], mask[n - 1])[0].c
  {
  }

  /** The first choices change exactly the characters that do not fit their slot. */
  lemma {:induction false} FirstsCountChanges(cleaned: string, mask: string, n: nat)
    requires IsPlateText(cleaned) && AllOffered(cleaned, mask) && n <= |mask|
    ensures SubsOf(Firsts(PerSlot(cleaned, mask, n))) == Changes(cleaned, SlotwiseText(cleaned, mask), n)
  {
    if n > 0 {
      FirstsCountChanges(cleaned, mask, n - 1);
      FirstOption(cleaned[n - 1], mask[n - 1]);
      FirstsStep(cleaned, mask, n);
      SubsOfAppend(Firsts(PerSlot(cleaned, mask, n - 1)), SlotOptions(cleaned[n - 1], mask[n - 1])[0]);
      ChangesStep(cleaned, SlotwiseText(cleaned, mask), n);
    }
  }
}
