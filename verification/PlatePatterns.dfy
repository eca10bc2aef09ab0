/** The table of plate layouts (backend/app/ai/normalise_au.py:65-156, 363-400).

    In a mask, `A` is a letter slot, `#` a digit slot and any other character a literal. */
module PlatePatterns {
  import opened Text
  import opened PlateAlphabet

  const LETTER_SLOT: char := 'A'
  const DIGIT_SLOT: char := '#'

  datatype Pattern = Pattern(name: string, mask: string, states: seq<string>, priority: nat) {
    predicate Generic() {
      states == []
    }
  }

  const AU_PATTERNS: seq<Pattern> := [
    Pattern("SA:S000AAA", "S###AAA", ["SA"], 0),
    Pattern("SA:PREMIUM:AA000A", "AA###A", ["SA"], 0),
    Pattern("SA:EURO:SEA00A", "SEA##A", ["SA"], 0),
    Pattern("SA:EURO:SXA00A", "SXA##A", ["SA"], 0),
    Pattern("WA:0AAA000", "#AAA###", ["WA"], 0),
    Pattern("TAS:A00AA", "A##AA", ["TAS"], 0),
    Pattern("ACT:AAA00A", "AAA##A", ["ACT"], 0),
    Pattern("AU:AA00AA", "AA##AA", ["NSW", "NT"], 1),
    Pattern("AU:AAA000", "AAA###", ["NSW", "QLD", "SA", "TAS", "VIC", "WA"], 1),
    Pattern("AU:000AAA", "###AAA", ["QLD", "VIC"], 1),
    Pattern("AU:GEN:A00000", "A#####", [], 2),
    Pattern("AU:GEN:00000A", "#####A", [], 2),
    Pattern("AU:GEN:AA0000", "AA####", [], 2),
    Pattern("AU:GEN:0000AA", "####AA", [], 2),
    Pattern("AU:GEN:AAAA00", "AAAA##", [], 2),
    Pattern("AU:GEN:00AAAA", "##AAAA", [], 2),
    Pattern("AU:GEN:AAAAA0", "AAAAA#", [], 2),
    Pattern("AU:GEN:0AAAAA", "#AAAAA", [], 2)
  ]

  /** The masks a `plates.region` setting enables. An unset region is the empty string. */
  function PatternsForRegion(region: string): seq<Pattern> {
    var token := UpperText(Strip(region));
    if token == "" || token == "NONE" || token == "OFF" then []
    else if token == "AU" then AU_PATTERNS
    else if "AU-" <= token then seq(|AU_PATTERNS|, i requires 0 <= i < |AU_PATTERNS| => Scoped(AU_PATTERNS[i], token[3..]))
    else []
  }

  /** A series of another state keeps its shape and loses its attribution. */
  function Scoped(p: Pattern, state: string): Pattern {
    if p.Generic() || state in p.states then p else p.(states := [], priority := 2)
  }

  // ----- Facts about the shipped table --------------------------------------------------

  /** The letter slots among the first `n` of a mask. */
  function LetterSlots(mask: string, n: nat): nat
    requires n <= |mask|
  {
    if n == 0 then 0 else LetterSlots(mask, n - 1) + if mask[n - 1] == LETTER_SLOT then 1 else 0
  }

  /** Digit slots that keep a mask from being mostly letter slots: two in the longest masks. */
  ghost predicate DigitsAt(mask: string, p: nat, q: nat) {
    p <= q < |mask| && mask[p] == DIGIT_SLOT && mask[q] == DIGIT_SLOT && (|mask| == 7 ==> p < q)
  }

  /** A mask of letter slots, digit slots and letter literals, anchored by a digit slot. */
  ghost predicate SoundMask(mask: string) {
    && 5 <= |mask| <= 7
    && (forall i :: 0 <= i < |mask| ==> IsLetter(mask[i]) || mask[i] == DIGIT_SLOT)
    && exists p, q :: DigitsAt(mask, p, q)
  }

  lemma ShippedMasksAreSound(i: nat)
    requires i < |AU_PATTERNS|
    ensures SoundMask(AU_PATTERNS[i].mask)
  {
    if i < 9 {
      NamedMasksAreSound(i);
    } else {
      LaterMasksAreSound(i);
    }
  }

  lemma NamedMasksAreSound(i: nat)
    requires 0 <= i < 9
    ensures SoundMask(AU_PATTERNS[i].mask)
  {
    match i
    case 0 => assert DigitsAt("S###AAA", 1, 3);
    case 1 => assert DigitsAt("AA###A", 2, 4);
    case 2 => assert DigitsAt("SEA##A", 3, 4);
    case 3 => assert DigitsAt("SXA##A", 3, 4);
    case 4 => assert DigitsAt("#AAA###", 0, 6);
    case 5 => assert DigitsAt("A##AA", 1, 2);
    case 6 => assert DigitsAt("AAA##A", 3, 4);
    case 7 => assert DigitsAt("AA##AA", 2, 3);
    case _ => assert DigitsAt("AAA###", 3, 5);
  }

  lemma LaterMasksAreSound(i: nat)
    requires 9 <= i < 18
    ensures SoundMask(AU_PATTERNS[i].mask)
  {
    match i
    case 9 => assert DigitsAt("###AAA", 0, 2);
    case 10 => assert DigitsAt("A#####", 1, 5);
    case 11 => assert DigitsAt("#####A", 0, 4);
    case 12 => assert DigitsAt("AA####", 2, 5);
    case 13 => assert DigitsAt("####AA", 0, 3);
    case 14 => assert DigitsAt("AAAA##", 4, 5);
    case 15 => assert DigitsAt("##AAAA", 0, 1);
    case 16 => assert DigitsAt("AAAAA#", 5, 5);
    case _ => assert DigitsAt("#AAAAA", 0, 0);
  }

  lemma {:induction false} LetterSlotsWithin(mask: string, n: nat)
    requires n <= |mask|
    ensures LetterSlots(mask, n) <= n
    ensures forall p :: 0 <= p < n && mask[p] != LETTER_SLOT ==> LetterSlots(mask, n) < n
    ensures forall p, q :: 0 <= p < q < n && mask[p] != LETTER_SLOT && mask[q] != LETTER_SLOT ==>
              LetterSlots(mask, n) + 1 < n
  {
    if n > 0 {
      LetterSlotsWithin(mask, n - 1);
    }
  }

  /** No shipped mask has more than five letter slots. */
  lemma SoundMaskHasFewLetterSlots(mask: string)
    requires SoundMask(mask)
    ensures LetterSlots(mask, |mask|) <= 5
  {
    LetterSlotsWithin(mask, |mask|);
    var p, q :| DigitsAt(mask, p, q);
  }

  /** Every region that has patterns has all the shipped shapes, in the shipped order. */
  lemma RegionKeepsShapes(region: string)
    ensures PatternsForRegion(region) == [] || |PatternsForRegion(region)| == |AU_PATTERNS|
    ensures forall i :: 0 <= i < |PatternsForRegion(region)| ==>
              && PatternsForRegion(region)[i].mask == AU_PATTERNS[i].mask
              && PatternsForRegion(region)[i].name == AU_PATTERNS[i].name
  {
  }
}
