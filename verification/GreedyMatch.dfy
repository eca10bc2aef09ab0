/** Highest-score-first assignment on a score matrix (backend/app/ai/tracker.py:52-74). */
module GreedyMatch {
  import opened Sequences

  datatype Scores = Scores(rows: nat, cols: nat, at: (nat, nat) -> real)

  type Cell = (nat, nat)

  // ----- The specification --------------------------------------------------------------

  ghost predicate Eligible(s: Scores, threshold: real, rows: set<nat>, cols: set<nat>, p: Cell) {
    p.0 in rows && p.1 in cols && s.at(p.0, p.1) >= threshold
  }

  /** Row-major order. */
  predicate Before(i: int, j: int, row: int, col: int) {
    i < row || (i == row && j < col)
  }

  /** `p` is preferred to `q`: it scores higher, or as high and comes first. */
  ghost predicate Beats(s: Scores, p: Cell, q: Cell) {
    || s.at(p.0, p.1) > s.at(q.0, q.1)
    || (s.at(p.0, p.1) == s.at(q.0, q.1) && !Before(q.0, q.1, p.0, p.1))
  }

  ghost predicate IsBest(s: Scores, threshold: real, rows: set<nat>, cols: set<nat>, p: Cell) {
    && Eligible(s, threshold, rows, cols, p)
    && forall q :: Eligible(s, threshold, rows, cols, q) ==> Beats(s, p, q)
  }

  ghost predicate HasBest(s: Scores, threshold: real, rows: set<nat>, cols: set<nat>) {
    exists p :: IsBest(s, threshold, rows, cols, p)
  }

  /** Take the best cell still free, give up its row and column, and go on. */
  ghost function Greedy(s: Scores, threshold: real, rows: set<nat>, cols: set<nat>): seq<Cell>
    decreases |rows|
  {
    if HasBest(s, threshold, rows, cols) then
      var p :| IsBest(s, threshold, rows, cols, p);
      [p] + Greedy(s, threshold, rows - {p.0}, cols - {p.1})
    else []
  }

  function UpTo(n: nat): (s: set<nat>)
    ensures forall i :: i in s <==> 0 <= i < n
  {
    if n == 0 then {} else UpTo(n - 1) + {n - 1}
  }

  ghost function Matching(s: Scores, threshold: real): seq<Cell> {
    Greedy(s, threshold, UpTo(s.rows), UpTo(s.cols))
  }

  // ----- The loop -----------------------------------------------------------------------

  /** The cells `work` still shows; every other one was wiped to -1. */
  ghost predicate Shows(work: array2<real>, s: Scores, rows: set<nat>, cols: set<nat>)
    reads work
  {
    && work.Length0 == s.rows && work.Length1 == s.cols
    && rows <= UpTo(s.rows) && cols <= UpTo(s.cols)
    && forall i, j :: 0 <= i < s.rows && 0 <= j < s.cols ==>
         work[i, j] == if i in rows && j in cols then s.at(i, j) else -1.0
  }

  /** The first largest entry in row-major order. */
  method ArgMax(work: array2<real>) returns (row: nat, col: nat)
    requires work.Length0 > 0 && work.Length1 > 0
    ensures IsArgMax(work, row, col)
  {
    row, col := 0, 0;
    for i := 0 to work.Length0
      invariant row < work.Length0 && col < work.Length1 && (row < i || (i == 0 && row == 0 && col == 0))
      invariant forall k, j :: 0 <= k < i && 0 <= j < work.Length1 ==>
                  work[k, j] <= work[row, col] && (Before(k, j, row, col) ==> work[k, j] < work[row, col])
    {
      for j := 0 to work.Length1
        invariant row < work.Length0 && col < work.Length1
        invariant row < i || (row == i && col < j) || (i == 0 && row == 0 && col == 0)
        invariant forall k, l :: 0 <= k < i && 0 <= l < work.Length1 ==>
                    work[k, l] <= work[row, col] && (Before(k, l, row, col) ==> work[k, l] < work[row, col])
        invariant forall l :: 0 <= l < j ==>
                    work[i, l] <= work[row, col] && (Before(i, l, row, col) ==> work[i, l] < work[row, col])
      {
        if work[i, j] > work[row, col] {
          row, col := i, j;
        }
      }
    }
  }

  ghost predicate IsBelow(work: array2<real>, threshold: real)
    reads work
  {
    forall i, j :: 0 <= i < work.Length0 && 0 <= j < work.Length1 ==> work[i, j] < threshold
  }

  method AllBelow(work: array2<real>, threshold: real) returns (all: bool)
    ensures all <==> IsBelow(work, threshold)
  {
    for i := 0 to work.Length0
      invariant forall k, j :: 0 <= k < i && 0 <= j < work.Length1 ==> work[k, j] < threshold
    {
      for j := 0 to work.Length1
        invariant forall l :: 0 <= l < j ==> work[i, l] < threshold
      {
        if work[i, j] >= threshold {
          return false;
        }
      }
    }
    return true;
  }

  method Wipe(work: array2<real>, row: nat, col: nat)
    requires row < work.Length0 && col < work.Length1
    modifies work
    ensures forall i, j :: 0 <= i < work.Length0 && 0 <= j < work.Length1 ==>
              work[i, j] == if i == row || j == col then -1.0 else old(work[i, j])
  {
    forall j | 0 <= j < work.Length1 {
      work[row, j] := -1.0;
    }
    forall i | 0 <= i < work.Length0 {
      work[i, col] := -1.0;
    }
  }

  /** Whether the loop ever ends: see `WipedCellsStayEligible`. */
  ghost predicate Terminates(s: Scores, threshold: real) {
    threshold > -1.0 || NoneEligible(s, threshold)
  }

  ghost predicate NoneEligible(s: Scores, threshold: real) {
    forall p :: !Eligible(s, threshold, UpTo(s.rows), UpTo(s.cols), p)
  }

  ghost predicate StillEnds(s: Scores, threshold: real, rows: set<nat>, cols: set<nat>) {
    threshold > -1.0 || (NoneEligible(s, threshold) && rows == UpTo(s.rows) && cols == UpTo(s.cols))
  }

  ghost predicate IsArgMax(work: array2<real>, row: nat, col: nat)
    reads work
  {
    && row < work.Length0 && col < work.Length1
    && forall i, j :: 0 <= i < work.Length0 && 0 <= j < work.Length1 ==>
         work[i, j] <= work[row, col] && (Before(i, j, row, col) ==> work[i, j] < work[row, col])
  }

  /** What the pairs so far and the cells still free add up to. */
  ghost predicate MatchedSoFar(s: Scores, threshold: real, pairs: seq<Cell>, rows: set<nat>, cols: set<nat>) {
    pairs + Greedy(s, threshold, rows, cols) == Matching(s, threshold)
  }

  /** The copy the loop wipes. */
  method Copy(s: Scores) returns (work: array2<real>)
    ensures fresh(work) && Shows(work, s, UpTo(s.rows), UpTo(s.cols))
  {
    work := new real[s.rows, s.cols]((i, j) requires 0 <= i && 0 <= j => s.at(i, j));
  }

  /** One turn of the loop, for a best entry that meets the threshold. */
  method TakeAndWipe(work: array2<real>, s: Scores, threshold: real, ghost rows: set<nat>, ghost cols: set<nat>,
                     row: nat, col: nat, pairs: seq<Cell>) returns (more: seq<Cell>)
    requires Shows(work, s, rows, cols) && StillEnds(s, threshold, rows, cols)
    requires IsArgMax(work, row, col) && work[row, col] >= threshold
    requires MatchedSoFar(s, threshold, pairs, rows, cols)
    modifies work
    ensures row in rows && Shows(work, s, rows - {row}, cols - {col}) && StillEnds(s, threshold, rows - {row}, cols - {col})
    ensures more == pairs + [(row, col)] && MatchedSoFar(s, threshold, more, rows - {row}, cols - {col})
  {
    TakeBest(work, s, threshold, rows, cols, row, col, pairs);
    more := pairs + [(row, col)];
    Wipe(work, row, col);
  }

  /** `greedy_match`. */
  method Match(s: Scores, threshold: real) returns (pairs: seq<Cell>)
    requires Terminates(s, threshold)
    ensures pairs == Matching(s, threshold)
  {
    pairs := [];
    if s.rows == 0 || s.cols == 0 {
      return;
    }
    var work := Copy(s);
    ghost var rows, cols := UpTo(s.rows), UpTo(s.cols);
    while true
      invariant Shows(work, s, rows, cols) && fresh(work) && StillEnds(s, threshold, rows, cols)
      invariant MatchedSoFar(s, threshold, pairs, rows, cols)
      decreases |rows|
    {
      var row, col := ArgMax(work);
      if work[row, col] < threshold {
        NoneLeft(work, s, threshold, rows, cols);
        break;
      }
      pairs := TakeAndWipe(work, s, threshold, rows, cols, row, col, pairs);
      rows, cols := rows - {row}, cols - {col};
      var done := AllBelow(work, threshold);
      if done {
        NoneLeft(work, s, threshold, rows, cols);
        break;
      }
    }
  }

  lemma NoneLeft(work: array2<real>, s: Scores, threshold: real, rows: set<nat>, cols: set<nat>)
    requires Shows(work, s, rows, cols) && IsBelow(work, threshold)
    ensures Greedy(s, threshold, rows, cols) == []
  {
    forall p: Cell
      ensures !Eligible(s, threshold, rows, cols, p)
    {
      if p.0 in rows && p.1 in cols {
        assert work[p.0, p.1] == s.at(p.0, p.1);
      }
    }
  }

  lemma BestIsUnique(s: Scores, threshold: real, rows: set<nat>, cols: set<nat>, p: Cell)
    requires IsBest(s, threshold, rows, cols, p)
    ensures Greedy(s, threshold, rows, cols) == [p] + Greedy(s, threshold, rows - {p.0}, cols - {p.1})
  {
    assert forall q :: IsBest(s, threshold, rows, cols, q) ==> q == p;
  }

  /** The largest entry of `work`, when it meets a threshold above the wipe, is the best free cell. */
  lemma BestCell(work: array2<real>, s: Scores, threshold: real, rows: set<nat>, cols: set<nat>, row: nat, col: nat)
    requires Shows(work, s, rows, cols) && IsArgMax(work, row, col)
    requires threshold > -1.0 && work[row, col] >= threshold
    ensures row in rows && col in cols
    ensures Greedy(s, threshold, rows, cols) == [(row, col)] + Greedy(s, threshold, rows - {row}, cols - {col})
  {
    var p: Cell := (row, col);
    forall q: Cell | Eligible(s, threshold, rows, cols, q)
      ensures Beats(s, p, q)
    {
      assert work[q.0, q.1] == s.at(q.0, q.1);
    }
    BestIsUnique(s, threshold, rows, cols, p);
  }

  lemma TakeBest(work: array2<real>, s: Scores, threshold: real, rows: set<nat>, cols: set<nat>,
                 row: nat, col: nat, pairs: seq<Cell>)
    requires Shows(work, s, rows, cols) && IsArgMax(work, row, col)
    requires StillEnds(s, threshold, rows, cols) && work[row, col] >= threshold
    ensures row in rows && col in cols && threshold > -1.0
    ensures pairs + Greedy(s, threshold, rows, cols)
         == (pairs + [(row, col)]) + Greedy(s, threshold, rows - {row}, cols - {col})
  {
    assert NoneEligible(s, threshold) ==> !Eligible(s, threshold, UpTo(s.rows), UpTo(s.cols), (row, col));
    BestCell(work, s, threshold, rows, cols, row, col);
    Associates(pairs, [(row, col)], Greedy(s, threshold, rows - {row}, cols - {col}));
  }
}
