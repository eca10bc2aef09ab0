/** Python's `sorted`: a stable sort by any weak order. */
module StableSort {

  /** `less` ranks elements, possibly with ties. */
  ghost predicate WeakOrder<T(!new)>(less: (T, T) -> bool) {
    && (forall a, b :: less(a, b) ==> !less(b, a))
    && (forall a, b, c :: !less(b, a) && !less(c, b) ==> !less(c, a))
  }

  /** Put `x` behind everything it is not less than. */
  function Insert<T>(s: seq<T>, x: T, less: (T, T) -> bool): (r: seq<T>)
    ensures |r| == |s| + 1
  {
    if s == [] || !less(x, s[|s| - 1]) then s + [x] else Insert(s[..|s| - 1], x, less) + [s[|s| - 1]]
  }

  function Sort<T>(s: seq<T>, less: (T, T) -> bool): (r: seq<T>)
    ensures |r| == |s|
  {
    if s == [] then [] else Insert(Sort(s[..|s| - 1], less), s[|s| - 1], less)
  }

  ghost predicate Ordered<T>(s: seq<T>, less: (T, T) -> bool) {
    forall i, j :: 0 <= i < j < |s| ==> !less(s[j], s[i])
  }

  lemma NothingIsOrdered<T>(less: (T, T) -> bool)
    ensures Ordered([], less)
  {
  }

  lemma OrderedAppend<T>(s: seq<T>, x: T, less: (T, T) -> bool)
    requires Ordered(s, less) && forall i :: 0 <= i < |s| ==> !less(x, s[i])
    ensures Ordered(s + [x], less)
  {
  }

  lemma {:induction false} InsertKeepsElements<T>(s: seq<T>, x: T, less: (T, T) -> bool)
    ensures multiset(Insert(s, x, less)) == multiset(s) + multiset{x}
  {
    if s != [] && less(x, s[|s| - 1]) {
      InsertKeepsElements(s[..|s| - 1], x, less);
      assert s == s[..|s| - 1] + [s[|s| - 1]];
    }
  }

  /** An element not behind the last is behind none. */
  lemma NotBehindAny<T(!new)>(s: seq<T>, x: T, less: (T, T) -> bool)
    requires WeakOrder(less) && Ordered(s, less) && s != [] && !less(x, s[|s| - 1])
    ensures forall i :: 0 <= i < |s| ==> !less(x, s[i])
  {
    forall i | 0 <= i < |s|
      ensures !less(x, s[i])
    {
      assert i < |s| - 1 ==> !less(s[|s| - 1], s[i]);
    }
  }

  lemma {:induction false} InsertKeepsOrder<T(!new)>(s: seq<T>, x: T, less: (T, T) -> bool)
    requires WeakOrder(less) && Ordered(s, less)
    ensures Ordered(Insert(s, x, less), less)
  {
    if s != [] && less(x, s[|s| - 1]) {
      var front, last := s[..|s| - 1], s[|s| - 1];
      var r := Insert(front, x, less);
      InsertKeepsOrder(front, x, less);
      InsertKeepsElements(front, x, less);
      forall i | 0 <= i < |r|
        ensures !less(last, r[i])
      {
        assert r[i] in multiset(r);
        assert r[i] == x || r[i] in front;
      }
      OrderedAppend(r, last, less);
    } else {
      if s != [] {
        NotBehindAny(s, x, less);
      }
      OrderedAppend(s, x, less);
    }
  }

  /** Sorting orders and loses nothing. */
  lemma {:induction false} SortSpec<T(!new)>(s: seq<T>, less: (T, T) -> bool)
    requires WeakOrder(less)
    ensures Ordered(Sort(s, less), less)
    ensures multiset(Sort(s, less)) == multiset(s)
  {
    hide Insert, Ordered, WeakOrder;
    if s == [] {
      NothingIsOrdered(less);
    } else {
      SortSpec(s[..|s| - 1], less);
      InsertKeepsOrder(Sort(s[..|s| - 1], less), s[|s| - 1], less);
      InsertKeepsElements(Sort(s[..|s| - 1], less), s[|s| - 1], less);
      assert s == s[..|s| - 1] + [s[|s| - 1]];
    }
  }

  // ----- What reordering cannot change --------------------------------------------------

  ghost predicate Pairwise<T>(s: seq<T>, rel: (T, T) -> bool) {
    forall j, k :: 0 <= j < k < |s| ==> rel(s[j], s[k])
  }

  lemma {:induction false} TwiceMeansTwoPlaces<T>(s: seq<T>, x: T)
    requires multiset(s)[x] >= 2
    ensures exists j, k :: 0 <= j < k < |s| && s[j] == x && s[k] == x
  {
    var front, last := s[..|s| - 1], s[|s| - 1];
    assert s == front + [last];
    if last == x {
      assert multiset(front)[x] >= 1;
      assert x in front;
    } else {
      TwiceMeansTwoPlaces(front, x);
    }
  }

  lemma TwoPlacesMeanTwice<T>(s: seq<T>, j: nat, k: nat)
    requires j < k < |s| && s[j] == s[k]
    ensures multiset(s)[s[j]] >= 2
  {
    assert s == s[..j] + [s[j]] + s[j + 1..k] + [s[k]] + s[k + 1..];
  }

  /** A symmetric relation that nothing bears to itself holds pairwise in every order or in none. */
  lemma PairwiseInAnyOrder<T(!new)>(a: seq<T>, b: seq<T>, rel: (T, T) -> bool)
    requires (forall x, y :: rel(x, y) ==> rel(y, x)) && forall x :: !rel(x, x)
    requires multiset(a) == multiset(b) && Pairwise(a, rel)
    ensures Pairwise(b, rel)
  {
    forall j, k | 0 <= j < k < |b|
      ensures rel(b[j], b[k])
    {
      if b[j] == b[k] {
        TwoPlacesMeanTwice(b, j, k);
        TwiceMeansTwoPlaces(a, b[j]);
      } else {
        assert b[j] in multiset(b) && b[k] in multiset(b);
        assert b[j] in a && b[k] in a;
      }
    }
  }
}
