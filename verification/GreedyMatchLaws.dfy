/** What greedy assignment guarantees (backend/app/ai/tracker.py:52-74). */
module GreedyMatchLaws {
  import opened GreedyMatch

  // ----- When the loop ends -------------------------------------------------------------

  /** A state of the loop for an input it does not end on: nothing wiped yet, or some row wiped. */
  ghost predicate Endless(work: array2<real>, s: Scores, threshold: real, rows: set<nat>, cols: set<nat>)
    reads work
  {
    && !Terminates(s, threshold) && Shows(work, s, rows, cols) && s.cols > 0
    && ((rows == UpTo(s.rows) && cols == UpTo(s.cols)) || exists row :: IsWiped(s, rows, row))
  }

  predicate IsWiped(s: Scores, rows: set<nat>, row: nat) {
    row < s.rows && row !in rows
  }

  /** The copy the loop starts from. */
  lemma FreshCopyIsEndless(work: array2<real>, s: Scores, threshold: real)
    requires !Terminates(s, threshold) && Shows(work, s, UpTo(s.rows), UpTo(s.cols))
    ensures Endless(work, s, threshold, UpTo(s.rows), UpTo(s.cols)) && s.rows > 0
  {
    var p: Cell :| Eligible(s, threshold, UpTo(s.rows), UpTo(s.cols), p);
  }

  /** The first pair is taken. */
  lemma FirstPairIsTaken(work: array2<real>, s: Scores, threshold: real, row: nat, col: nat)
    requires !Terminates(s, threshold) && Shows(work, s, UpTo(s.rows), UpTo(s.cols)) && IsArgMax(work, row, col)
    ensures work[row, col] >= threshold
  {
    var p: Cell :| Eligible(s, threshold, UpTo(s.rows), UpTo(s.cols), p);
    assert work[p.0, p.1] == s.at(p.0, p.1);
  }

  /** After any wipe the next best entry still meets the threshold, and the test that ends the loop early
      fails. */
  lemma WipedCellsStayEligible(work: array2<real>, s: Scores, threshold: real, rows: set<nat>, cols: set<nat>,
                               row: nat, col: nat)
    requires Endless(work, s, threshold, rows, cols) && IsArgMax(work, row, col)
    ensures work[row, col] >= threshold && !IsBelow(work, threshold)
  {
    if rows == UpTo(s.rows) && cols == UpTo(s.cols) {
      FirstPairIsTaken(work, s, threshold, row, col);
    } else {
      var wiped: nat :| IsWiped(s, rows, wiped);
      assert work[wiped, 0] == -1.0;
    }
  }

  /** `Match` ends on every input it accepts. On every other a turn of its loop takes neither way out and
      leaves a state of the same kind, so it goes on for ever. */
  method TurnWithoutEnd(work: array2<real>, s: Scores, threshold: real, ghost rows: set<nat>, ghost cols: set<nat>)
      returns (row: nat, col: nat, taken: bool, done: bool)
    requires Endless(work, s, threshold, rows, cols) && s.rows > 0
    modifies work
    ensures taken && !done && Endless(work, s, threshold, rows - {row}, cols - {col})
  {
    row, col := ArgMax(work);
    WipedCellsStayEligible(work, s, threshold, rows, cols, row, col);
    taken := work[row, col] >= threshold;
    Wipe(work, row, col);
    assert IsWiped(s, rows - {row}, row);
    assert work[row, col] == -1.0;
    done := AllBelow(work, threshold);
  }

  /** One cell scoring 0 and a threshold of -1. */
  lemma OneCellNeverEnds()
    ensures !Terminates(Scores(1, 1, (i: nat, j: nat) => 0.0), -1.0)
  {
    var s := Scores(1, 1, (i: nat, j: nat) => 0.0);
    assert Eligible(s, -1.0, UpTo(1), UpTo(1), (0, 0));
  }

  // ----- A matching over eligible pairs -------------------------------------------------

  /** No two pairs share a row or a column. */
  ghost predicate Injective(pairs: seq<Cell>) {
    forall j, k :: 0 <= j < k < |pairs| ==> pairs[j].0 != pairs[k].0 && pairs[j].1 != pairs[k].1
  }

  ghost predicate AllEligible(s: Scores, threshold: real, rows: set<nat>, cols: set<nat>, pairs: seq<Cell>) {
    forall k :: 0 <= k < |pairs| ==> Eligible(s, threshold, rows, cols, pairs[k])
  }

  lemma {:induction false} GreedyIsAMatching(s: Scores, threshold: real, rows: set<nat>, cols: set<nat>)
    ensures Injective(Greedy(s, threshold, rows, cols))
    ensures AllEligible(s, threshold, rows, cols, Greedy(s, threshold, rows, cols))
    decreases |rows|
  {
    if HasBest(s, threshold, rows, cols) {
      var p :| IsBest(s, threshold, rows, cols, p);
      BestIsUnique(s, threshold, rows, cols, p);
      GreedyIsAMatching(s, threshold, rows - {p.0}, cols - {p.1});
    }
  }

  // ----- Nothing better is left out -----------------------------------------------------

  predicate Shares(p: Cell, q: Cell) {
    p.0 == q.0 || p.1 == q.1
  }

  lemma {:induction false} BestOf(s: Scores, cells: set<Cell>) returns (p: Cell)
    requires cells != {}
    ensures p in cells && forall q :: q in cells ==> Beats(s, p, q)
    decreases |cells|
  {
    p :| p in cells;
    var rest := cells - {p};
    if rest != {} {
      var r := BestOf(s, rest);
      assert forall q :: q in cells ==> q == p || q in rest;
      if !Beats(s, p, r) {
        p := r;
      }
    }
  }

  lemma BestExists(s: Scores, threshold: real, rows: set<nat>, cols: set<nat>, q: Cell)
    requires Eligible(s, threshold, rows, cols, q)
    ensures HasBest(s, threshold, rows, cols)
  {
    var cells := set i, j | i in rows && j in cols && s.at(i, j) >= threshold :: (i, j);
    assert q == (q.0, q.1);
    assert q in cells;
    var p := BestOf(s, cells);
    assert forall r :: Eligible(s, threshold, rows, cols, r) ==> r == (r.0, r.1) && r in cells;
    assert IsBest(s, threshold, rows, cols, p);
  }

  /** Every eligible pair is chosen, or shares a row or column with a chosen pair that scores higher, or as high
      in an earlier row, or in the same row and an earlier column. */
  lemma {:induction false} EligiblePairIsBlocked(s: Scores, threshold: real, rows: set<nat>, cols: set<nat>, q: Cell)
      returns (k: nat)
    requires Eligible(s, threshold, rows, cols, q)
    ensures k < |Greedy(s, threshold, rows, cols)|
    ensures var p := Greedy(s, threshold, rows, cols)[k];
            && Shares(p, q) && s.at(p.0, p.1) >= s.at(q.0, q.1)
            && (s.at(p.0, p.1) == s.at(q.0, q.1) ==> p.0 < q.0 || (p.0 == q.0 && p.1 <= q.1))
    decreases |rows|
  {
    BestExists(s, threshold, rows, cols, q);
    var p :| IsBest(s, threshold, rows, cols, p);
    BestIsUnique(s, threshold, rows, cols, p);
    if Shares(p, q) {
      k := 0;
    } else {
      k := EligiblePairIsBlocked(s, threshold, rows - {p.0}, cols - {p.1}, q);
      k := k + 1;
    }
  }

  // ----- Half of the best total ---------------------------------------------------------

  ghost function Total(s: Scores, pairs: seq<Cell>): real {
    if pairs == [] then 0.0 else s.at(pairs[0].0, pairs[0].1) + Total(s, pairs[1..])
  }

  /** The pairs that share neither row nor column with `p`. */
  ghost function Without(pairs: seq<Cell>, p: Cell): (rest: seq<Cell>)
    ensures forall k :: 0 <= k < |rest| ==> rest[k] in pairs && !Shares(p, rest[k])
  {
    if pairs == [] then []
    else if Shares(p, pairs[0]) then Without(pairs[1..], p)
    else [pairs[0]] + Without(pairs[1..], p)
  }

  lemma {:induction false} WithoutIsInjective(pairs: seq<Cell>, p: Cell)
    requires Injective(pairs)
    ensures Injective(Without(pairs, p))
  {
    if pairs != [] {
      var rest := Without(pairs[1..], p);
      WithoutIsInjective(pairs[1..], p);
      assert forall k :: 0 <= k < |rest| ==> rest[k] in pairs[1..];
    }
  }

  /** `x` for a pair in the row of `p`, and again for one in its column. */
  ghost function Clash(pairs: seq<Cell>, p: Cell, x: real): (loss: real)
    ensures x >= 0.0 ==> 0.0 <= loss <= 2.0 * x
  {
    (if exists k :: 0 <= k < |pairs| && pairs[k].0 == p.0 then x else 0.0)
    + (if exists k :: 0 <= k < |pairs| && pairs[k].1 == p.1 then x else 0.0)
  }

  lemma ClashOfTail(pairs: seq<Cell>, p: Cell, x: real)
    requires pairs != [] && Injective(pairs) && x >= 0.0
    ensures Clash(pairs, p, x) >= Clash(pairs[1..], p, x) + if Shares(p, pairs[0]) then x else 0.0
  {
    var tail := pairs[1..];
    assert forall k :: 0 <= k < |tail| ==> tail[k] == pairs[k + 1];
  }

  lemma TotalOfOneMore(s: Scores, p: Cell, rest: seq<Cell>)
    ensures Total(s, [p] + rest) == s.at(p.0, p.1) + Total(s, rest)
  {
    assert ([p] + rest)[1..] == rest;
  }

  /** Giving up what clashes with `p` loses at most twice the score of `p`. */
  lemma {:induction false} WithoutLosesLittle(s: Scores, pairs: seq<Cell>, p: Cell, x: real)
    requires Injective(pairs) && x >= 0.0
    requires forall k :: 0 <= k < |pairs| && Shares(p, pairs[k]) ==> s.at(pairs[k].0, pairs[k].1) <= x
    ensures Total(s, pairs) <= Total(s, Without(pairs, p)) + Clash(pairs, p, x)
  {
    if pairs != [] {
      ClashOfTail(pairs, p, x);
      WithoutLosesLittle(s, pairs[1..], p, x);
      TotalOfOneMore(s, pairs[0], Without(pairs[1..], p));
    }
  }

  /** Greedy reaches at least half the total of any other matching over eligible pairs. */
  lemma {:induction false} GreedyIsHalfOptimal(s: Scores, threshold: real, rows: set<nat>, cols: set<nat>, other: seq<Cell>)
    requires threshold >= 0.0 && Injective(other) && AllEligible(s, threshold, rows, cols, other)
    ensures Total(s, other) <= 2.0 * Total(s, Greedy(s, threshold, rows, cols))
    decreases |rows|
  {
    if HasBest(s, threshold, rows, cols) {
      var p :| IsBest(s, threshold, rows, cols, p);
      BestIsUnique(s, threshold, rows, cols, p);
      var rest := Without(other, p);
      WithoutIsInjective(other, p);
      WithoutLosesLittle(s, other, p, s.at(p.0, p.1));
      GreedyIsHalfOptimal(s, threshold, rows - {p.0}, cols - {p.1}, rest);
    } else if other != [] {
      BestExists(s, threshold, rows, cols, other[0]);
    }
  }
}
