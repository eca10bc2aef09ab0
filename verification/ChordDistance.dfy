/** The distance Douglas-Peucker compares (backend/app/api/geometry.py:58-72).

    Coordinates are reals. Distances are compared through their squares, which order the same
    way, so no square root is needed. */
module ChordDistance {

  datatype Point = Point(x: real, y: real)

  function Sq(r: real): real {
    r * r
  }

  function Norm2(a: Point, b: Point): real {
    Sq(b.x - a.x) + Sq(b.y - a.y)
  }

  function Cross(a: Point, b: Point, p: Point): real {
    (b.y - a.y) * p.x - (b.x - a.x) * p.y + (b.x * a.y - b.y * a.x)
  }

  /** The squared distance from `p` to the chord's line, or to the point the chord has shrunk to. */
  function Distance2(a: Point, b: Point, p: Point): real {
    if Norm2(a, b) == 0.0 then Norm2(a, p) else Sq(Cross(a, b, p)) / Norm2(a, b)
  }

  lemma SquareIsNonNegative(r: real)
    ensures Sq(r) >= 0.0
  {
    if r >= 0.0 {
      assert r * r >= 0.0;
    } else {
      assert (-r) * (-r) >= 0.0;
    }
  }

  lemma QuotientBounds(c: real, n: real, x: real)
    requires n > 0.0
    ensures c >= 0.0 ==> c / n >= 0.0
    ensures c <= n * x ==> c / n <= x
    ensures c == n * x ==> c / n == x
  {
    var q := c / n;
    assert q * n == c;
    if q < 0.0 {
      assert q * n < 0.0;
    }
    if q > x {
      assert (q - x) * n > 0.0;
    } else if q < x {
      assert (x - q) * n > 0.0;
    }
  }

  lemma NormIsPositive(a: Point, b: Point)
    ensures Norm2(a, b) >= 0.0
  {
    SquareIsNonNegative(b.x - a.x);
    SquareIsNonNegative(b.y - a.y);
  }

  lemma DistanceIsNonNegative(a: Point, b: Point, p: Point)
    ensures Distance2(a, b, p) >= 0.0
  {
    NormIsPositive(a, b);
    NormIsPositive(a, p);
    if Norm2(a, b) != 0.0 {
      SquareIsNonNegative(Cross(a, b, p));
      QuotientBounds(Sq(Cross(a, b, p)), Norm2(a, b), 0.0);
    }
  }

  /** A point on the chord's line is at no distance. */
  lemma OnTheLine(a: Point, b: Point, p: Point)
    requires Norm2(a, b) > 0.0 && Cross(a, b, p) == 0.0
    ensures Distance2(a, b, p) == 0.0
  {
    QuotientBounds(Sq(Cross(a, b, p)), Norm2(a, b), 0.0);
  }

  // ----- What the formula measures ------------------------------------------------------

  /** The point of the chord's line at parameter `s`. */
  function OnLine(a: Point, b: Point, s: real): Point {
    Point(a.x + s * (b.x - a.x), a.y + s * (b.y - a.y))
  }

  /** How far along the chord the point lies, scaled by the chord's squared length. */
  function Dot(a: Point, b: Point, p: Point): real {
    (b.x - a.x) * (p.x - a.x) + (b.y - a.y) * (p.y - a.y)
  }

  lemma BrahmaguptaIdentity(dx: real, dy: real, u: real, v: real)
    ensures (Sq(dx) + Sq(dy)) * (Sq(u) + Sq(v)) == Sq(dy * u - dx * v) + Sq(dx * u + dy * v)
  {
  }

  lemma ShiftAlongLine(dx: real, dy: real, u: real, v: real, s: real)
    ensures dy * (u - s * dx) - dx * (v - s * dy) == dy * u - dx * v
    ensures dx * (u - s * dx) + dy * (v - s * dy) == (dx * u + dy * v) - s * (Sq(dx) + Sq(dy))
  {
  }

  lemma CrossFromStart(a: Point, b: Point, p: Point)
    ensures Cross(a, b, p) == (b.y - a.y) * (p.x - a.x) - (b.x - a.x) * (p.y - a.y)
  {
  }

  lemma LineDistance(a: Point, b: Point, p: Point, s: real)
    ensures Norm2(a, b) * Norm2(OnLine(a, b, s), p)
         == Sq(Cross(a, b, p)) + Sq(Dot(a, b, p) - s * Norm2(a, b))
  {
    var dx, dy, u, v := b.x - a.x, b.y - a.y, p.x - a.x, p.y - a.y;
    ShiftAlongLine(dx, dy, u, v, s);
    CrossFromStart(a, b, p);
    OffsetFromLine(a, b, p, s);
    BrahmaguptaIdentity(dx, dy, u - s * dx, v - s * dy);
  }

  lemma OffsetFromLine(a: Point, b: Point, p: Point, s: real)
    ensures Norm2(OnLine(a, b, s), p)
         == Sq((p.x - a.x) - s * (b.x - a.x)) + Sq((p.y - a.y) - s * (b.y - a.y))
  {
    var q := OnLine(a, b, s);
    assert p.x - q.x == (p.x - a.x) - s * (b.x - a.x);
    assert p.y - q.y == (p.y - a.y) - s * (b.y - a.y);
  }

  /** `Distance2` is the least squared distance from `p` to the whole line through the chord:
      no point of the line is nearer, and one is exactly that near. */
  lemma DistanceIsToTheLine(a: Point, b: Point, p: Point)
    ensures forall s :: Distance2(a, b, p) <= Norm2(OnLine(a, b, s), p)
    ensures exists s :: Distance2(a, b, p) == Norm2(OnLine(a, b, s), p)
  {
    NormIsPositive(a, b);
    var n := Norm2(a, b);
    if n == 0.0 {
      ZeroNorm(a, b);
      assert forall s :: OnLine(a, b, s) == a;
      assert Norm2(OnLine(a, b, 0.0), p) == Norm2(a, p);
    } else {
      forall s
        ensures Distance2(a, b, p) <= Norm2(OnLine(a, b, s), p)
      {
        LineDistance(a, b, p, s);
        SquareIsNonNegative(Dot(a, b, p) - s * n);
        QuotientBounds(Sq(Cross(a, b, p)), n, Norm2(OnLine(a, b, s), p));
      }
      var s := Dot(a, b, p) / n;
      assert Dot(a, b, p) - s * n == 0.0;
      LineDistance(a, b, p, s);
      QuotientBounds(Sq(Cross(a, b, p)), n, Norm2(OnLine(a, b, s), p));
    }
  }

  lemma ZeroNorm(a: Point, b: Point)
    requires Norm2(a, b) == 0.0
    ensures a == b
  {
    SquareIsNonNegative(b.x - a.x);
    SquareIsNonNegative(b.y - a.y);
    NonZeroSquare(b.x - a.x);
    NonZeroSquare(b.y - a.y);
  }

  lemma NonZeroSquare(r: real)
    ensures r != 0.0 ==> Sq(r) > 0.0
  {
    if r > 0.0 {
      assert Sq(r) / r == r;
    } else if r < 0.0 {
      assert Sq(r) / -r == -r;
    }
  }

  // ----- What is drawn is only a segment of that line -----------------------------------

  /** Some point of the segment from `a` to `b` is within tolerance of `p`. */
  ghost predicate NearSegment(a: Point, b: Point, p: Point, tol: real) {
    exists s :: 0.0 <= s <= 1.0 && IsWithin(a, b, p, tol, s)
  }

  predicate IsWithin(a: Point, b: Point, p: Point, tol: real, s: real) {
    Norm2(OnLine(a, b, s), p) <= tol
  }

  /** The foot of the perpendicular from `p` falls on the segment. */
  predicate Faces(a: Point, b: Point, p: Point) {
    0.0 <= Dot(a, b, p) <= Norm2(a, b)
  }

  /** What a caller can test: the segment faces the point, or one of its ends is near. */
  predicate Covers(a: Point, b: Point, p: Point, tol: real) {
    Faces(a, b, p) || Norm2(a, p) <= tol || Norm2(b, p) <= tol
  }

  lemma OnLineEnds(a: Point, b: Point)
    ensures OnLine(a, b, 0.0) == a && OnLine(a, b, 1.0) == b
  {
  }

  lemma FartherSquare(near: real, far: real)
    requires 0.0 <= near <= far
    ensures Sq(near) <= Sq(far)
  {
    assert near * near <= near * far <= far * far;
  }

  /** Going along the chord from before its start, or back from past its end, only leads away. */
  lemma BeyondIsFarther(d: real, n: real, along: real)
    requires 0.0 <= along <= n
    ensures d < 0.0 ==> Sq(d) <= Sq(d - along)
    ensures d > n ==> Sq(d - n) <= Sq(d - along)
  {
    if d < 0.0 {
      FartherSquare(-d, along - d);
    } else if d > n {
      FartherSquare(d - n, d - along);
    }
  }

  lemma EndDistances(a: Point, b: Point, p: Point)
    ensures Norm2(a, b) * Norm2(a, p) == Sq(Cross(a, b, p)) + Sq(Dot(a, b, p))
    ensures Norm2(a, b) * Norm2(b, p) == Sq(Cross(a, b, p)) + Sq(Dot(a, b, p) - Norm2(a, b))
  {
    hide Norm2, OnLine, Cross, Dot;
    OnLineEnds(a, b);
    LineDistance(a, b, p, 0.0);
    LineDistance(a, b, p, 1.0);
  }

  lemma Fraction(s: real, n: real)
    requires 0.0 <= s <= 1.0 && n > 0.0
    ensures 0.0 <= s * n <= n
  {
    assert s * n >= 0.0 && (1.0 - s) * n >= 0.0;
  }

  lemma CancelFactor(n: real, x: real, y: real)
    requires n > 0.0
    ensures n * x <= n * y ==> x <= y
  {
    QuotientBounds(n * x, n, y);
    QuotientBounds(n * x, n, x);
  }

  lemma SmallerSum(n: real, x: real, y: real, cross: real, near: real, far: real)
    requires n > 0.0 && n * x == cross + near && n * y == cross + far && near <= far
    ensures x <= y
  {
    CancelFactor(n, x, y);
  }

  /** The same in numbers: `along` a chord of squared length `n`, off its line by `cross` squared. */
  lemma NearestAlong(cross: real, d: real, n: real, along: real, start: real, end: real, mid: real)
    requires n > 0.0 && 0.0 <= along <= n
    requires n * start == cross + Sq(d) && n * end == cross + Sq(d - n) && n * mid == cross + Sq(d - along)
    ensures d < 0.0 ==> start <= mid
    ensures d > n ==> end <= mid
  {
    BeyondIsFarther(d, n, along);
    if d < 0.0 {
      SmallerSum(n, start, mid, cross, Sq(d), Sq(d - along));
    } else if d > n {
      SmallerSum(n, end, mid, cross, Sq(d - n), Sq(d - along));
    }
  }

  lemma NearestEnd(cross: real, d: real, n: real, s: real, start: real, end: real, mid: real)
    requires n > 0.0 && 0.0 <= s <= 1.0
    requires n * start == cross + Sq(d) && n * end == cross + Sq(d - n) && n * mid == cross + Sq(d - s * n)
    ensures d < 0.0 ==> start <= mid
    ensures d > n ==> end <= mid
  {
    Fraction(s, n);
    NearestAlong(cross, d, n, s * n, start, end, mid);
  }

  /** No point of a segment that lies beyond its start is nearer than the start, nor beyond its end
      nearer than the end. */
  lemma EndIsNearest(a: Point, b: Point, p: Point, s: real)
    requires Norm2(a, b) > 0.0 && 0.0 <= s <= 1.0
    ensures Dot(a, b, p) < 0.0 ==> Norm2(a, p) <= Norm2(OnLine(a, b, s), p)
    ensures Dot(a, b, p) > Norm2(a, b) ==> Norm2(b, p) <= Norm2(OnLine(a, b, s), p)
  {
    EndDistances(a, b, p);
    LineDistance(a, b, p, s);
    NearestEnd(Sq(Cross(a, b, p)), Dot(a, b, p), Norm2(a, b), s, Norm2(a, p), Norm2(b, p), Norm2(OnLine(a, b, s), p));
  }

  /** A point within tolerance of the line is within tolerance of the segment exactly when the segment
      covers it. A chord that has shrunk to a point faces everything. */
  lemma SegmentIsNearIff(a: Point, b: Point, p: Point, tol: real)
    requires Distance2(a, b, p) <= tol
    ensures NearSegment(a, b, p, tol) <==> Covers(a, b, p, tol)
  {
    NormIsPositive(a, b);
    OnLineEnds(a, b);
    if NearSegment(a, b, p, tol) && Norm2(a, b) > 0.0 {
      var s :| 0.0 <= s <= 1.0 && IsWithin(a, b, p, tol, s);
      EndIsNearest(a, b, p, s);
    } else if Norm2(a, b) == 0.0 {
      ZeroNorm(a, b);
      assert IsWithin(a, b, p, tol, 0.0);
    }
    if Norm2(a, p) <= tol {
      assert IsWithin(a, b, p, tol, 0.0);
    } else if Norm2(b, p) <= tol {
      assert IsWithin(a, b, p, tol, 1.0);
    } else if Faces(a, b, p) && Norm2(a, b) > 0.0 {
      FootIsOnSegment(a, b, p, tol);
    }
  }

  lemma Foot(d: real, n: real)
    requires n > 0.0 && 0.0 <= d <= n
    ensures 0.0 <= d / n <= 1.0 && d - d / n * n == 0.0
  {
    QuotientBounds(d, n, 1.0);
  }

  lemma FootIsOnSegment(a: Point, b: Point, p: Point, tol: real)
    requires Norm2(a, b) > 0.0 && Faces(a, b, p) && Distance2(a, b, p) <= tol
    ensures NearSegment(a, b, p, tol)
  {
    var n, d := Norm2(a, b), Dot(a, b, p);
    var s := d / n;
    Foot(d, n);
    LineDistance(a, b, p, s);
    QuotientBounds(Sq(Cross(a, b, p)), n, Norm2(OnLine(a, b, s), p));
    assert IsWithin(a, b, p, tol, s);
  }
}
