/** The weighted edit distance behind `plate_similarity`
    (backend/app/ai/normalise_au.py:549-592).

    Costs are counted in halves, so every cost is an integer: an insertion, a deletion and an
    ordinary substitution cost 2, a substitution inside one look-alike group costs 1. */
module EditDistance {
  import opened PlateAlphabet

  const INDEL_COST: nat := 2
  const CONFUSION_SUB_COST: nat := 1
  const SUB_COST: nat := 2

  function SubCost(a: char, b: char): nat {
    if a == b then 0 else if Confusable(a, b) then CONFUSION_SUB_COST else SUB_COST
  }

  function Min3(x: nat, y: nat, z: nat): nat {
    if x <= y && x <= z then x else if y <= z then y else z
  }

  function Max(x: nat, y: nat): nat {
    if x <= y then y else x
  }

  // ----- The specification: single-character edits --------------------------------------

  /** One edit of a text at one position. */
  datatype Edit = Insert(at: nat, c: char) | Delete(at: nat) | Replace(at: nat, c: char)

  predicate Applicable(s: string, e: Edit) {
    match e
    case Insert(at, _) => at <= |s|
    case Delete(at) => at < |s|
    case Replace(at, _) => at < |s|
  }

  function Apply(s: string, e: Edit): string
    requires Applicable(s, e)
  {
    match e
    case Insert(at, c) => s[..at] + [c] + s[at..]
    case Delete(at) => s[..at] + s[at + 1..]
    case Replace(at, c) => s[..at] + [c] + s[at + 1..]
  }

  function EditCost(s: string, e: Edit): nat
    requires Applicable(s, e)
  {
    match e
    case Insert(_, _) => INDEL_COST
    case Delete(_) => INDEL_COST
    case Replace(at, c) => SubCost(s[at], c)
  }

  /** Edits made one after another, each anywhere in the text the earlier ones left. */
  datatype Script = Done | First(edit: Edit, rest: Script)

  ghost predicate Transforms(s: string, script: Script, t: string)
    decreases script
  {
    match script
    case Done => s == t
    case First(e, rest) => Applicable(s, e) && Transforms(Apply(s, e), rest, t)
  }

  ghost function ScriptCost(s: string, script: Script, t: string): nat
    requires Transforms(s, script, t)
    decreases script
  {
    match script
    case Done => 0
    case First(e, rest) => EditCost(s, e) + ScriptCost(Apply(s, e), rest, t)
  }

  // ----- The recurrence the rows are filled by ------------------------------------------

  /** The cost of aligning the first `i` characters of `a` with the first `j` of `b`. */
  ghost function Cost(a: string, b: string, i: nat, j: nat): nat
    requires i <= |a| && j <= |b|
    decreases i + j, 0
  {
    if i == 0 then j * INDEL_COST
    else if j == 0 then i * INDEL_COST
    else Cheapest(a, b, i, j)
  }

  /** The best way to end such an alignment: a deletion, an insertion or a substitution. */
  ghost function Cheapest(a: string, b: string, i: nat, j: nat): nat
    requires 0 < i <= |a| && 0 < j <= |b|
    decreases i + j - 1, 1
  {
    Min3(Cost(a, b, i - 1, j) + INDEL_COST,
         Cost(a, b, i, j - 1) + INDEL_COST,
         Cost(a, b, i - 1, j - 1) + SubCost(a[i - 1], b[j - 1]))
  }

  ghost function Distance(a: string, b: string): nat {
    Cost(a, b, |a|, |b|)
  }

  /** The rolling-row loop: two rows suffice to compute the recurrence. */
  method WeightedLevenshtein(a: string, b: string) returns (distance: nat)
    ensures distance == Distance(a, b)
  {
    var previous: seq<nat> := seq(|b| + 1, j requires 0 <= j => j * INDEL_COST);
    for i := 1 to |a| + 1
      invariant |previous| == |b| + 1
      invariant forall j :: 0 <= j <= |b| ==> previous[j] == Cost(a, b, i - 1, j)
    {
      var current: seq<nat> := [i * INDEL_COST];
      for j := 1 to |b| + 1
        invariant |current| == j
        invariant forall k :: 0 <= k < j ==> current[k] == Cost(a, b, i, k)
      {
        var cost := SubCost(a[i - 1], b[j - 1]);
        current := current + [Min3(previous[j] + INDEL_COST, current[j - 1] + INDEL_COST,
                                   previous[j - 1] + cost)];
      }
      previous := current;
    }
    distance := previous[|b|];
  }

  // ----- Metric laws --------------------------------------------------------------------

  lemma {:induction false} CostZero(a: string, b: string, i: nat, j: nat)
    requires i <= |a| && j <= |b|
    ensures Cost(a, b, i, j) == 0 <==> a[..i] == b[..j]
  {
    if i > 0 && j > 0 {
      CostZero(a, b, i - 1, j - 1);
      assert a[..i] == a[..i - 1] + [a[i - 1]];
      assert b[..j] == b[..j - 1] + [b[j - 1]];
    }
  }

  lemma {:induction false} CostSymmetric(a: string, b: string, i: nat, j: nat)
    requires i <= |a| && j <= |b|
    ensures Cost(a, b, i, j) == Cost(b, a, j, i)
  {
    if i > 0 && j > 0 {
      CostSymmetric(a, b, i - 1, j);
      CostSymmetric(a, b, i, j - 1);
      CostSymmetric(a, b, i - 1, j - 1);
    }
  }

  /** Lengthening the second text by a character saves at most one insertion. */
  lemma {:induction false} CostStep(a: string, b: string, i: nat, j: nat)
    requires i <= |a| && 0 < j <= |b|
    ensures Cost(a, b, i, j - 1) <= Cost(a, b, i, j) + INDEL_COST
  {
    if i > 0 {
      CostStep(a, b, i - 1, j);
    }
  }

  lemma {:induction false} CostTriangle(a: string, b: string, c: string, i: nat, j: nat, k: nat)
    requires i <= |a| && j <= |b| && k <= |c|
    ensures Cost(a, c, i, k) <= Cost(a, b, i, j) + Cost(b, c, j, k)
    decreases i + j + k
  {
    if i == 0 {
      CostLengthGap(b, c, j, k);
    } else if k == 0 {
      CostLengthGap(a, b, i, j);
    } else if j > 0 && Cost(b, c, j, k) == Cost(b, c, j - 1, k) + INDEL_COST {
      // the last character of b is deleted on the way to c
      CostTriangle(a, b, c, i, j - 1, k);
      CostStep(a, b, i, j);
    } else if Cost(a, b, i, j) == Cost(a, b, i - 1, j) + INDEL_COST {
      CostTriangle(a, b, c, i - 1, j, k);
    } else if Cost(b, c, j, k) == Cost(b, c, j, k - 1) + INDEL_COST {
      CostTriangle(a, b, c, i, j, k - 1);
    } else if Cost(a, b, i, j) == Cost(a, b, i, j - 1) + INDEL_COST {
      // the last character of b is inserted on the way from a, then substituted
      CostTriangle(a, b, c, i, j - 1, k - 1);
    } else {
      CostTriangle(a, b, c, i - 1, j - 1, k - 1);
    }
  }

  lemma {:induction false} CostLengthGap(a: string, b: string, i: nat, j: nat)
    requires i <= |a| && j <= |b|
    ensures i <= j ==> Cost(a, b, i, j) >= (j - i) * INDEL_COST
    ensures j <= i ==> Cost(a, b, i, j) >= (i - j) * INDEL_COST
    ensures Cost(a, b, i, j) <= Max(i, j) * INDEL_COST
  {
    if i > 0 && j > 0 {
      CostLengthGap(a, b, i - 1, j);
      CostLengthGap(a, b, i, j - 1);
      CostLengthGap(a, b, i - 1, j - 1);
    }
  }

  lemma DistanceIsMetric(a: string, b: string, c: string)
    ensures Distance(a, b) == 0 <==> a == b
    ensures Distance(a, b) == Distance(b, a)
    ensures Distance(a, c) <= Distance(a, b) + Distance(b, c)
  {
    CostZero(a, b, |a|, |b|);
    assert a[..|a|] == a && b[..|b|] == b;
    CostSymmetric(a, b, |a|, |b|);
    CostTriangle(a, b, c, |a|, |b|, |c|);
  }

  // ----- The recurrence is the cheapest edit script -------------------------------------

  /** A common ending costs nothing to align. */
  lemma {:induction false} CostCommonEnding(a: string, b: string, i: nat, j: nat)
    requires i <= |a| && j <= |b| && a[i..] == b[j..]
    ensures Distance(a, b) <= Cost(a, b, i, j)
    decreases |a| - i
  {
    if i < |a| {
      assert a[i] == a[i..][0] == b[j..][0] == b[j];
      assert a[i + 1..] == a[i..][1..] && b[j + 1..] == b[j..][1..];
      CostCommonEnding(a, b, i + 1, j + 1);
    }
  }

  lemma EditMovesAtMostItsCost(s: string, e: Edit)
    requires Applicable(s, e)
    ensures Distance(s, Apply(s, e)) <= EditCost(s, e)
  {
    var t := Apply(s, e);
    CostZero(s, t, e.at, e.at);
    assert s[..e.at] == t[..e.at];
    match e
    case Insert(at, _) => CostCommonEnding(s, t, at, at + 1);
    case Delete(at) => CostCommonEnding(s, t, at + 1, at);
    case Replace(at, _) => CostCommonEnding(s, t, at + 1, at + 1);
  }

  lemma {:induction false} NoScriptIsCheaper(s: string, script: Script, t: string)
    requires Transforms(s, script, t)
    ensures Distance(s, t) <= ScriptCost(s, script, t)
    decreases script
  {
    match script
    case Done => DistanceIsMetric(s, t, t);
    case First(e, rest) =>
      EditMovesAtMostItsCost(s, e);
      NoScriptIsCheaper(Apply(s, e), rest, t);
      DistanceIsMetric(s, Apply(s, e), t);
  }

  // The three edits that move the seam between an untouched start and a finished ending.

  lemma DeleteAtSeam(a: string, i: nat, rest: string)
    requires 0 < i <= |a|
    ensures Apply(a[..i] + rest, Delete(i - 1)) == a[..i - 1] + rest
    ensures EditCost(a[..i] + rest, Delete(i - 1)) == INDEL_COST
  {
  }

  lemma InsertAtSeam(a: string, i: nat, rest: string, c: char)
    requires i <= |a|
    ensures Apply(a[..i] + rest, Insert(i, c)) == a[..i] + ([c] + rest)
    ensures EditCost(a[..i] + rest, Insert(i, c)) == INDEL_COST
  {
    assert (a[..i] + rest)[..i] == a[..i] && (a[..i] + rest)[i..] == rest;
  }

  lemma ReplaceAtSeam(a: string, i: nat, rest: string, c: char)
    requires 0 < i <= |a|
    ensures Apply(a[..i] + rest, Replace(i - 1, c)) == a[..i - 1] + ([c] + rest)
    ensures EditCost(a[..i] + rest, Replace(i - 1, c)) == SubCost(a[i - 1], c)
  {
    assert (a[..i] + rest)[..i - 1] == a[..i - 1] && (a[..i] + rest)[i..] == rest;
  }

  lemma LastCharacterJoinsRest(b: string, j: nat, rest: string)
    requires 0 < j <= |b|
    ensures b[..j - 1] + ([b[j - 1]] + rest) == b[..j] + rest
  {
  }

  /** A cheapest alignment ends in one of the three ways the recurrence tries. */
  lemma CheapestEnding(a: string, b: string, i: nat, j: nat)
    requires i <= |a| && j <= |b| && i + j > 0
    ensures || (i > 0 && Cost(a, b, i, j) == Cost(a, b, i - 1, j) + INDEL_COST)
            || (j > 0 && Cost(a, b, i, j) == Cost(a, b, i, j - 1) + INDEL_COST)
            || (i > 0 && j > 0 && Cost(a, b, i, j) == Cost(a, b, i - 1, j - 1) + SubCost(a[i - 1], b[j - 1]))
  {
  }

  lemma NothingToDo(a: string, b: string, rest: string)
    ensures Transforms(a[..0] + rest, Done, b[..0] + rest) && ScriptCost(a[..0] + rest, Done, b[..0] + rest) == 0
    ensures Cost(a, b, 0, 0) == 0
  {
    assert a[..0] == b[..0] == [];
  }

  lemma OneEditMore(s: string, e: Edit, rest: Script, t: string)
    requires Applicable(s, e) && Transforms(Apply(s, e), rest, t)
    ensures Transforms(s, First(e, rest), t)
    ensures ScriptCost(s, First(e, rest), t) == EditCost(s, e) + ScriptCost(Apply(s, e), rest, t)
  {
  }

  /** Reading the recurrence backwards writes a script, right to left, of exactly that cost. */
  lemma {:induction false} ScriptFromCosts(a: string, b: string, i: nat, j: nat, rest: string, cost: nat)
      returns (script: Script)
    requires i <= |a| && j <= |b| && cost == Cost(a, b, i, j)
    ensures Transforms(a[..i] + rest, script, b[..j] + rest)
    ensures ScriptCost(a[..i] + rest, script, b[..j] + rest) == cost
    decreases i + j
  {
    hide Cost, Transforms, ScriptCost, Apply, EditCost, SubCost;
    if i == 0 && j == 0 {
      NothingToDo(a, b, rest);
      return Done;
    }
    CheapestEnding(a, b, i, j);
    if i > 0 && cost == Cost(a, b, i - 1, j) + INDEL_COST {
      DeleteAtSeam(a, i, rest);
      script := ScriptFromCosts(a, b, i - 1, j, rest, cost - INDEL_COST);
      OneEditMore(a[..i] + rest, Delete(i - 1), script, b[..j] + rest);
      return First(Delete(i - 1), script);
    }
    LastCharacterJoinsRest(b, j, rest);
    var longer := [b[j - 1]] + rest;
    if cost == Cost(a, b, i, j - 1) + INDEL_COST {
      InsertAtSeam(a, i, rest, b[j - 1]);
      script := ScriptFromCosts(a, b, i, j - 1, longer, cost - INDEL_COST);
      OneEditMore(a[..i] + rest, Insert(i, b[j - 1]), script, b[..j] + rest);
      return First(Insert(i, b[j - 1]), script);
    }
    ReplaceAtSeam(a, i, rest, b[j - 1]);
    script := ScriptFromCosts(a, b, i - 1, j - 1, longer, Cost(a, b, i - 1, j - 1));
    OneEditMore(a[..i] + rest, Replace(i - 1, b[j - 1]), script, b[..j] + rest);
    return First(Replace(i - 1, b[j - 1]), script);
  }

  /** The distance is the least cost of any edit script, and some script attains it. */
  lemma DistanceIsCheapestScript(a: string, b: string)
    ensures exists script ::
              Transforms(a, script, b) && ScriptCost(a, script, b) == Distance(a, b)
    ensures forall script ::
              Transforms(a, script, b) ==> Distance(a, b) <= ScriptCost(a, script, b)
  {
    var script := ScriptFromCosts(a, b, |a|, |b|, [], Distance(a, b));
    assert a[..|a|] + [] == a && b[..|b|] + [] == b;
    forall script | Transforms(a, script, b)
      ensures Distance(a, b) <= ScriptCost(a, script, b)
    {
      NoScriptIsCheaper(a, script, b);
    }
  }

  // ----- Similarity ---------------------------------------------------------------------

  function OneMinusRatio(n: nat, d: nat): real
    requires d > 0
  {
    1.0 - n as real / d as real
  }

  /** One minus the distance in whole edits over the longer length. */
  ghost function Similarity(x: string, y: string): real {
    if x == "" && y == "" then 1.0
    else OneMinusRatio(Distance(x, y), INDEL_COST * Max(|x|, |y|))
  }

  /** The shortcuts and the clip at zero leave that value as it is. */
  method ComputeSimilarity(x: string, y: string) returns (r: real)
    ensures r == Similarity(x, y)
  {
    SimilarityLaws(x, y);
    if x == "" && y == "" {
      return 1.0;
    }
    if x == "" || y == "" {
      DistanceWithinLonger(x, y);
      RatioBounds(Distance(x, y), INDEL_COST * Max(|x|, |y|));
      return 0.0;
    }
    if x == y {
      return 1.0;
    }
    var distance := WeightedLevenshtein(x, y);
    r := OneMinusRatio(distance, INDEL_COST * Max(|x|, |y|));
    if r < 0.0 {
      r := 0.0;
    }
  }

  lemma DistanceWithinLonger(x: string, y: string)
    ensures Distance(x, y) <= INDEL_COST * Max(|x|, |y|)
    ensures x == "" || y == "" ==> Distance(x, y) == INDEL_COST * Max(|x|, |y|)
  {
    CostLengthGap(x, y, |x|, |y|);
  }

  lemma RatioBounds(n: nat, d: nat)
    requires n <= d && d > 0
    ensures 0.0 <= OneMinusRatio(n, d) <= 1.0
    ensures OneMinusRatio(n, d) == 1.0 <==> n == 0
    ensures n == d ==> OneMinusRatio(n, d) == 0.0
  {
  }

  lemma SimilarityLaws(x: string, y: string)
    ensures 0.0 <= Similarity(x, y) <= 1.0
    ensures Similarity(x, y) == Similarity(y, x)
    ensures Similarity(x, y) == 1.0 <==> x == y
  {
    DistanceWithinLonger(x, y);
    DistanceIsMetric(x, y, x);
    if x != "" || y != "" {
      RatioBounds(Distance(x, y), INDEL_COST * Max(|x|, |y|));
    }
  }

  // ----- What one edit costs ----------------------------------------------------------------

  /** The characters a recogniser takes for one another. */
  ghost function Shapes(): set<set<char>> {
    {{'0', 'O', 'D', 'Q'}, {'1', 'I'}, {'2', 'Z'}, {'5', 'S'}, {'6', 'G'}, {'8', 'B'}}
  }

  ghost predicate SameShape(a: char, b: char) {
    exists shape :: shape in Shapes() && a in shape && b in shape
  }

  lemma ConfusableIff(a: char, b: char)
    ensures Confusable(a, b) <==> SameShape(a, b)
  {
    var shape := match ShapeGroup(a)
      case 0 => {'0', 'O', 'D', 'Q'} case 1 => {'1', 'I'} case 2 => {'2', 'Z'}
      case 3 => {'5', 'S'} case 4 => {'6', 'G'} case _ => {'8', 'B'};
    if Confusable(a, b) {
      assert shape in Shapes() && a in shape && b in shape;
    }
  }

  /** Putting a character in or taking one out costs 2, as does exchanging one for another of a different
      shape; for one of the same shape it costs 1. */
  lemma EditCosts(s: string, e: Edit)
    requires Applicable(s, e)
    ensures EditCost(s, e) == if e.Replace? && s[e.at] == e.c then 0
                              else if e.Replace? && SameShape(s[e.at], e.c) then 1
                              else 2
  {
    if e.Replace? {
      ConfusableIff(s[e.at], e.c);
    }
  }
}
