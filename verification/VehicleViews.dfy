/** Choosing which frames of a vehicle to read (backend/app/ai/plate_frames.py:15-57). */
module VehicleViews {
  import opened Options
  import opened StableSort

  const MIN_FRAME_SEPARATION_S: real := 0.5

  datatype View = View(offset: real, x1: real, y1: real, x2: real, y2: real, confidence: real)

  function Score(v: View): real {
    var (width, height) := (v.x2 - v.x1, v.y2 - v.y1);
    var clipped := v.x1 <= 0.003 || v.x2 >= 0.997 || v.y1 <= 0.003 || v.y2 >= 0.997;
    if width <= 0.0 || height <= 0.0 then 0.0
    else width * height * v.confidence * (if clipped then 0.15 else 1.0)
  }

  predicate IsValid(v: View) {
    && v.offset >= 0.0 && Score(v) > 0.0
    && 0.0 <= v.x1 <= 1.0 && 0.0 <= v.y1 <= 1.0 && 0.0 <= v.x2 <= 1.0 && 0.0 <= v.y2 <= 1.0
  }

  function ValidOf(views: seq<View>): (valid: seq<View>)
    ensures forall v :: v in valid <==> v in views && IsValid(v)
  {
    if views == [] then []
    else
      var rest := ValidOf(views[1..]);
      if IsValid(views[0]) then [views[0]] + rest else rest
  }

  /** Higher score first, then earlier. */
  predicate Preferred(a: View, b: View) {
    Score(a) > Score(b) || (Score(a) == Score(b) && a.offset < b.offset)
  }

  predicate Earlier(a: View, b: View) {
    a.offset < b.offset
  }

  function Distance(a: real, b: real): real {
    if a >= b then a - b else b - a
  }

  predicate Apart(a: View, b: View) {
    Distance(a.offset, b.offset) >= MIN_FRAME_SEPARATION_S
  }

  predicate ClearOf(v: View, selected: seq<View>) {
    forall k :: 0 <= k < |selected| ==> Apart(v, selected[k])
  }

  /** The selection after the first `n` views in order of preference. */
  function Picked(ranked: seq<View>, n: nat, start: seq<View>, cap: nat): seq<View>
    requires n <= |ranked|
  {
    if n == 0 then start
    else
      var before := Picked(ranked, n - 1, start, cap);
      if |before| < cap && ClearOf(ranked[n - 1], before) then before + [ranked[n - 1]] else before
  }

  function Cap(limit: int): nat {
    if limit < 1 then 1 else limit
  }

  /** The slot reserved for the saved comparison frame. */
  function Reserved(views: seq<View>, limit: int, baseline: Option<View>): (start: seq<View>)
    ensures |start| < Cap(limit) && |start| <= 1 && forall v :: v in start ==> v in ValidOf(views)
  {
    if baseline.Some? && baseline.value in ValidOf(views) && limit > 1 then [baseline.value] else []
  }

  function Ranked(views: seq<View>): seq<View> {
    Sort(ValidOf(views), Preferred)
  }

  function Selection(views: seq<View>, limit: int, baseline: Option<View>): seq<View> {
    Picked(Ranked(views), |Ranked(views)|, Reserved(views, limit, baseline), Cap(limit))
  }

  /** `select_vehicle_views`. */
  method SelectVehicleViews(views: seq<View>, limit: int, baseline: Option<View>) returns (chosen: seq<View>)
    ensures chosen == Sort(Selection(views, limit, baseline), Earlier)
  {
    var ranked := Ranked(views);
    var selected := Reserved(views, limit, baseline);
    var i := 0;
    while i < |ranked|
      invariant i <= |ranked| && |selected| < Cap(limit)
      invariant selected == Picked(ranked, i, Reserved(views, limit, baseline), Cap(limit))
    {
      var view := ranked[i];
      i := i + 1;
      if ClearOf(view, selected) {
        selected := selected + [view];
        if |selected| >= Cap(limit) {
          FullStaysFull(ranked, i, |ranked|, Reserved(views, limit, baseline), Cap(limit));
          break;
        }
      }
    }
    chosen := Sort(selected, Earlier);
  }

  lemma {:induction false} FullStaysFull(ranked: seq<View>, n: nat, m: nat, start: seq<View>, cap: nat)
    requires n <= m <= |ranked| && |Picked(ranked, n, start, cap)| >= cap
    ensures Picked(ranked, m, start, cap) == Picked(ranked, n, start, cap)
  {
    if n < m {
      FullStaysFull(ranked, n, m - 1, start, cap);
    }
  }

  // ----- What is chosen -----------------------------------------------------------------

  ghost predicate PairwiseApart(s: seq<View>) {
    Pairwise(s, Apart)
  }

  /** The view lost to one already chosen: the reserved one, or one at least as good. */
  ghost predicate IsBlocked(v: View, chosen: seq<View>, start: seq<View>) {
    exists c :: c in chosen && !Apart(v, c) && (c in start || !Preferred(v, c))
  }

  /** The view came too late: the selection is full of views at least as good, and the reserved one. */
  ghost predicate IsCrowdedOut(v: View, chosen: seq<View>, start: seq<View>, cap: nat) {
    |chosen| == cap && forall c :: c in chosen ==> c in start || !Preferred(v, c)
  }

  ghost predicate Settled(v: View, chosen: seq<View>, start: seq<View>, cap: nat) {
    v in chosen || IsBlocked(v, chosen, start) || IsCrowdedOut(v, chosen, start, cap)
  }

  /** The selection is short, spaced, and made of the reserved view and views already considered. */
  ghost predicate PickedWell(ranked: seq<View>, n: nat, start: seq<View>, cap: nat, chosen: seq<View>)
    requires n <= |ranked|
  {
    && |chosen| <= cap && PairwiseApart(chosen)
    && (forall v :: v in start ==> v in chosen)
    && forall v :: v in chosen ==> v in start || IsAmong(ranked, n, v)
  }

  ghost predicate IsAmong(ranked: seq<View>, n: nat, v: View)
    requires n <= |ranked|
  {
    exists k :: 0 <= k < n && ranked[k] == v
  }

  lemma {:induction false} PickedIsWell(ranked: seq<View>, n: nat, start: seq<View>, cap: nat)
    requires n <= |ranked| && |start| < cap && |start| <= 1
    ensures PickedWell(ranked, n, start, cap, Picked(ranked, n, start, cap))
  {
    if n > 0 {
      PickedIsWell(ranked, n - 1, start, cap);
      PickOneMore(ranked, n, start, cap, Picked(ranked, n - 1, start, cap));
    }
  }

  lemma PickOneMore(ranked: seq<View>, n: nat, start: seq<View>, cap: nat, before: seq<View>)
    requires 0 < n <= |ranked| && PickedWell(ranked, n - 1, start, cap, before)
    ensures var v := ranked[n - 1];
            PickedWell(ranked, n, start, cap, if |before| < cap && ClearOf(v, before) then before + [v] else before)
  {
    forall v | IsAmong(ranked, n - 1, v)
      ensures IsAmong(ranked, n, v)
    {
    }
    assert IsAmong(ranked, n, ranked[n - 1]);
  }

  lemma {:induction false} PickedSettles(ranked: seq<View>, n: nat, start: seq<View>, cap: nat, k: nat)
    requires k < n <= |ranked| && |start| < cap && |start| <= 1 && Ordered(ranked, Preferred)
    ensures Settled(ranked[k], Picked(ranked, n, start, cap), start, cap)
  {
    var before := Picked(ranked, n - 1, start, cap);
    if k < n - 1 {
      PickedSettles(ranked, n - 1, start, cap, k);
      SettledStays(ranked[k], ranked[n - 1], before, Picked(ranked, n, start, cap), start, cap);
    } else {
      PickedIsWell(ranked, n - 1, start, cap);
      NewestIsSettled(ranked, n, before, start, cap);
    }
  }

  lemma SettledStays(v: View, newest: View, before: seq<View>, after: seq<View>, start: seq<View>, cap: nat)
    requires Settled(v, before, start, cap)
    requires after == before || (|before| < cap && after == before + [newest])
    ensures Settled(v, after, start, cap)
  {
    if IsBlocked(v, before, start) {
      var c :| c in before && !Apart(v, c) && (c in start || !Preferred(v, c));
      assert c in after;
    }
  }

  lemma NewestIsSettled(ranked: seq<View>, n: nat, before: seq<View>, start: seq<View>, cap: nat)
    requires 0 < n <= |ranked| && Ordered(ranked, Preferred) && |before| <= cap
    requires forall v :: v in before ==> v in start || IsAmong(ranked, n - 1, v)
    ensures var v := ranked[n - 1];
            Settled(v, if |before| < cap && ClearOf(v, before) then before + [v] else before, start, cap)
  {
    var v := ranked[n - 1];
    forall c | c in before
      ensures c in start || !Preferred(v, c)
    {
      if c !in start {
        var k :| 0 <= k < n - 1 && ranked[k] == c;
      }
    }
    if |before| < cap && !ClearOf(v, before) {
      var k :| 0 <= k < |before| && !Apart(v, before[k]);
      assert before[k] in before;
    }
  }

  lemma PreferredIsWeakOrder()
    ensures WeakOrder(Preferred) && WeakOrder(Earlier)
  {
  }

  lemma SameElements(a: seq<View>, b: seq<View>)
    requires multiset(a) == multiset(b)
    ensures |a| == |b| && forall v :: v in a <==> v in b
  {
    assert |multiset(a)| == |a| && |multiset(b)| == |b|;
    forall v
      ensures v in a <==> v in b
    {
      assert v in a <==> v in multiset(a);
      assert v in b <==> v in multiset(b);
    }
  }

  /** At most the limit, all valid, in order of time, at least half a second apart; the baseline is kept
      when there is room for two, and every other valid view lost to something chosen. */
  lemma SelectionSpec(views: seq<View>, limit: int, baseline: Option<View>)
    ensures var chosen := Sort(Selection(views, limit, baseline), Earlier);
            var start := Reserved(views, limit, baseline);
            && (|chosen| <= 1 || |chosen| <= limit) && PairwiseApart(chosen)
            && (forall j, k :: 0 <= j < k < |chosen| ==> chosen[j].offset <= chosen[k].offset)
            && (forall v :: v in chosen ==> v in views && IsValid(v))
            && (baseline.Some? && limit >= 2 && baseline.value in views && IsValid(baseline.value) ==>
                  baseline.value in chosen)
            && (forall v :: v in views && IsValid(v) ==> Settled(v, chosen, start, Cap(limit)))
  {
    hide Sort, Ordered, WeakOrder, Settled, Preferred, Earlier, Reserved, ValidOf;
    ReservedIsBaseline(views, limit, baseline);
    var ranked, start, cap := Ranked(views), Reserved(views, limit, baseline), Cap(limit);
    var picked := Selection(views, limit, baseline);
    var chosen := Sort(picked, Earlier);
    PreferredIsWeakOrder();
    SortSpec(ValidOf(views), Preferred);
    SameElements(ranked, ValidOf(views));
    PickedIsWell(ranked, |ranked|, start, cap);
    SortSpec(picked, Earlier);
    SameElements(picked, chosen);
    EarlierIsOrdered(chosen);
    assert forall v :: v in start ==> v in picked;
    PairwiseInAnyOrder(picked, chosen, Apart);
    forall v | v in views && IsValid(v)
      ensures Settled(v, chosen, start, cap)
    {
      assert v in ranked;
      var k :| 0 <= k < |ranked| && ranked[k] == v;
      PickedSettles(ranked, |ranked|, start, cap, k);
      SettledAnyOrder(v, picked, chosen, start, cap);
    }
  }

  lemma ReservedIsBaseline(views: seq<View>, limit: int, baseline: Option<View>)
    ensures Reserved(views, limit, baseline) ==
            if baseline.Some? && limit >= 2 && baseline.value in views && IsValid(baseline.value) then [baseline.value]
            else []
    ensures Cap(limit) == 1 || Cap(limit) == limit
  {
  }

  lemma EarlierIsOrdered(chosen: seq<View>)
    requires Ordered(chosen, Earlier)
    ensures forall j, k :: 0 <= j < k < |chosen| ==> chosen[j].offset <= chosen[k].offset
  {
  }

  lemma SettledAnyOrder(v: View, a: seq<View>, b: seq<View>, start: seq<View>, cap: nat)
    requires Settled(v, a, start, cap) && |a| == |b| && forall c :: c in a <==> c in b
    ensures Settled(v, b, start, cap)
  {
    if IsBlocked(v, a, start) {
      var c :| c in a && !Apart(v, c) && (c in start || !Preferred(v, c));
      assert c in b;
    }
  }

  /** Below the limit, every valid view that was left out lies within half a second of a chosen one. */
  lemma BelowTheLimitOnlyNeighboursLose(views: seq<View>, limit: int, baseline: Option<View>, v: View)
    requires v in views && IsValid(v)
    ensures var chosen := Sort(Selection(views, limit, baseline), Earlier);
            |chosen| < Cap(limit) && v !in chosen ==> exists c :: c in chosen && !Apart(v, c)
  {
    SelectionSpec(views, limit, baseline);
    var chosen, start := Sort(Selection(views, limit, baseline), Earlier), Reserved(views, limit, baseline);
    assert Settled(v, chosen, start, Cap(limit));
  }

  // ----- Which views are preferred ----------------------------------------------------------

  /** The view comes within 0.003 of some edge of the picture. */
  predicate Touches(v: View) {
    var least := 0.003;
    v.x1 - 0.0 <= least || 1.0 - v.x2 <= least || v.y1 - 0.0 <= least || 1.0 - v.y2 <= least
  }

  /** The area a view covers, times its confidence. */
  function Worth(v: View): real {
    (v.x2 - v.x1) * (v.y2 - v.y1) * v.confidence
  }

  lemma ProductIsPositive(a: real, b: real, c: real)
    requires a > 0.0 && b > 0.0
    ensures a * b * c > 0.0 <==> c > 0.0
  {
    assert a * b > 0.0;
    if c > 0.0 {
      assert (a * b) * c > 0.0;
    } else {
      assert (a * b) * (-c) >= 0.0;
    }
  }

  /** A view is valid exactly when it is a box of positive size inside the picture, seen with some
      confidence, at a time of the recording. */
  lemma ValidIff(v: View)
    ensures IsValid(v) <==> && v.offset >= 0.0 && v.confidence > 0.0
                            && 0.0 <= v.x1 < v.x2 <= 1.0 && 0.0 <= v.y1 < v.y2 <= 1.0
  {
    if v.x1 < v.x2 && v.y1 < v.y2 {
      ProductIsPositive(v.x2 - v.x1, v.y2 - v.y1, v.confidence);
    }
  }

  lemma ScoreOfValid(v: View)
    requires IsValid(v)
    ensures Worth(v) > 0.0 && Score(v) == if Touches(v) then Worth(v) * 0.15 else Worth(v)
  {
    ValidIff(v);
    ProductIsPositive(v.x2 - v.x1, v.y2 - v.y1, v.confidence);
  }

  /** Of two views that touch an edge both, or neither, the larger and surer one is preferred, and then the
      earlier; one that touches an edge needs more than 20/3 times the worth of one that does not. */
  lemma PreferredIff(a: View, b: View)
    requires IsValid(a) && IsValid(b)
    ensures var (x, y) := (if Touches(a) then 3.0 else 20.0, if Touches(b) then 3.0 else 20.0);
            Preferred(a, b)
            <==> x * Worth(a) > y * Worth(b) || (x * Worth(a) == y * Worth(b) && a.offset < b.offset)
  {
    hide Score, Worth, Touches, IsValid;
    ScoreOfValid(a);
    ScoreOfValid(b);
  }
}
