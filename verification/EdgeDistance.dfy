/**
 The distance from a point to a polygon's edges, over exact reals.

 The cosine factor of the local projection and the Haversine formula are parameters: the
 results hold for any two such functions.
 */
module EdgeDistance {
  import opened PointInPolygon

  // `cosLat` takes a latitude in degrees, `haversine` two coordinates.
  datatype Earth = Earth(cosLat: real -> real, haversine: (Coordinate, Coordinate) -> real)

  // A distance in metres; infinite for a polygon without vertices.
  datatype Distance = Finite(metres: real) | Infinite

  function Times(x: real, y: real): real {
    x * y
  }

  function Square(x: real): real {
    x * x
  }

  lemma TimesSign(x: real, y: real)
    requires x > 0.0 && y > 0.0
    ensures Times(x, y) > 0.0
  {
  }

  lemma SquareOfNegation(x: real)
    ensures Square(-x) == Square(x)
  {
  }

  lemma SquareSign(x: real)
    ensures Square(x) >= 0.0 && (Square(x) == 0.0 ==> x == 0.0)
  {
    SquareOfNegation(x);
    if x < 0.0 {
      TimesSign(-x, -x);
      assert Square(-x) == Times(-x, -x);
    } else if x > 0.0 {
      TimesSign(x, x);
      assert Square(x) == Times(x, x);
    }
  }

  // A vector in the projection: east and north components.
  datatype Vector = Vector(x: real, y: real)

  // The vector from `a` to `b`, with `c` the cosine factor on longitudes.
  function Project(c: real, a: Coordinate, b: Coordinate): Vector {
    Vector((b.lon - a.lon) * c, b.lat - a.lat)
  }

  function LengthSq(v: Vector): real {
    Square(v.x) + Square(v.y)
  }

  function Dot(v: Vector, w: Vector): real {
    v.x * w.x + v.y * w.y
  }

  function Clamp(t: real): real {
    if t < 0.0 then 0.0 else if t > 1.0 then 1.0 else t
  }

  // The point of the segment to which the distance is measured.
  function Nearest(c: real, p: Coordinate, a: Coordinate, b: Coordinate): Coordinate {
    var lenSq := LengthSq(Project(c, a, b));
    if lenSq == 0.0 then a else At(a, b, Clamp(Dot(Project(c, a, p), Project(c, a, b)) / lenSq))
  }

  function SegmentDistance(earth: Earth, p: Coordinate, a: Coordinate, b: Coordinate): real {
    earth.haversine(p, Nearest(earth.cosLat(p.lat), p, a, b))
  }

  // -------- optimality of the clamped projection --------

  // The projected squared distance along a segment is a quadratic in the parameter.
  function Quadratic(len: real, along: real, base: real, t: real): real {
    t * t * len - 2.0 * t * along + base
  }

  lemma AlongSegment(v: Vector, w: Vector, s: real)
    ensures LengthSq(Vector(s * v.x - w.x, s * v.y - w.y)) == Quadratic(LengthSq(v), Dot(w, v), LengthSq(w), s)
  {
  }

  lemma PositiveTimes(len: real, x: real)
    requires len > 0.0 && x >= 0.0
    ensures len * x >= 0.0 && (len * x == 0.0 ==> x == 0.0)
  {
  }

  lemma QuadraticMinimum(len: real, along: real, base: real, t: real, s: real)
    requires len > 0.0 && t == Clamp(along / len) && 0.0 <= s <= 1.0
    ensures Quadratic(len, along, base, t) <= Quadratic(len, along, base, s)
    ensures Quadratic(len, along, base, t) == Quadratic(len, along, base, s) ==> s == t
  {
    var q := along / len;
    var e, r := s - t, t - q;
    assert along == q * len;
    assert Quadratic(len, along, base, s) - Quadratic(len, along, base, t) == len * (Square(e) + 2.0 * (e * r)) by {
      assert s * s * len - 2.0 * s * along == len * (s * s - 2.0 * s * q);
      assert t * t * len - 2.0 * t * along == len * (t * t - 2.0 * t * q);
      assert (s * s - 2.0 * s * q) - (t * t - 2.0 * t * q) == Square(e) + 2.0 * (e * r);
    }
    assert e * r >= 0.0;
    SquareSign(e);
    PositiveTimes(len, Square(e) + 2.0 * (e * r));
  }

  // The measured point lies on the segment.
  lemma NearestOnSegment(c: real, p: Coordinate, a: Coordinate, b: Coordinate) returns (t: real)
    ensures 0.0 <= t <= 1.0 && Nearest(c, p, a, b) == At(a, b, t)
  {
    var lenSq := LengthSq(Project(c, a, b));
    t := if lenSq == 0.0 then 0.0 else Clamp(Dot(Project(c, a, p), Project(c, a, b)) / lenSq);
  }

  lemma Distribute(a: real, s: real, b: real, p: real, c: real)
    ensures (a + s * (b - a) - p) * c == s * ((b - a) * c) - (p - a) * c
  {
  }

  // The projected squared distance along a segment.
  lemma ProjectedAt(c: real, p: Coordinate, a: Coordinate, b: Coordinate, s: real)
    ensures LengthSq(Project(c, p, At(a, b, s)))
            == Quadratic(LengthSq(Project(c, a, b)), Dot(Project(c, a, p), Project(c, a, b)),
              LengthSq(Project(c, a, p)), s)
  {
    hide LengthSq, Quadratic, Dot;
    var v, w := Project(c, a, b), Project(c, a, p);
    AlongSegment(v, w, s);
    Distribute(a.lon, s, b.lon, p.lon, c);
    assert Project(c, p, At(a, b, s)) == Vector(s * v.x - w.x, s * v.y - w.y);
  }

  lemma DotZero(w: Vector)
    ensures Dot(w, Vector(0.0, 0.0)) == 0.0
  {
  }

  lemma LengthSign(v: Vector, w: Vector)
    ensures LengthSq(v) >= 0.0 && (LengthSq(v) == 0.0 ==> Dot(w, v) == 0.0)
  {
    hide Dot;
    SquareSign(v.x);
    SquareSign(v.y);
    if LengthSq(v) == 0.0 {
      DotZero(w);
      assert v == Vector(0.0, 0.0);
    }
  }

  lemma QuadraticConstant(base: real, s: real)
    ensures Quadratic(0.0, 0.0, base, s) == base
  {
  }

  lemma LengthReverse(c: real, a: Coordinate, b: Coordinate)
    ensures LengthSq(Project(c, b, a)) == LengthSq(Project(c, a, b))
  {
    SquareOfNegation((b.lon - a.lon) * c);
    SquareOfNegation(b.lat - a.lat);
    assert (a.lon - b.lon) * c == -((b.lon - a.lon) * c);
  }

  // No point of the segment is closer in the projection; on a segment that does not
  // project to a single point it is the only closest one.
  lemma NearestIsOptimal(c: real, p: Coordinate, a: Coordinate, b: Coordinate, s: real)
    requires 0.0 <= s <= 1.0
    ensures LengthSq(Project(c, p, Nearest(c, p, a, b))) <= LengthSq(Project(c, p, At(a, b, s)))
    ensures LengthSq(Project(c, a, b)) != 0.0
            && LengthSq(Project(c, p, Nearest(c, p, a, b))) == LengthSq(Project(c, p, At(a, b, s)))
            ==> At(a, b, s) == Nearest(c, p, a, b)
  {
    hide Quadratic, LengthSq, Dot, Project;
    var len, along, base := LengthSq(Project(c, a, b)), Dot(Project(c, a, p), Project(c, a, b)),
      LengthSq(Project(c, a, p));
    ProjectedAt(c, p, a, b, s);
    LengthSign(Project(c, a, b), Project(c, a, p));
    if len == 0.0 {
      QuadraticConstant(base, s);
      LengthReverse(c, a, p);
    } else {
      var t := Clamp(along / len);
      ProjectedAt(c, p, a, b, t);
      QuadraticMinimum(len, along, base, t, s);
    }
  }

  lemma SameSegment(a: Coordinate, b: Coordinate, t: real)
    ensures At(a, b, t) == At(b, a, 1.0 - t)
  {
  }

  // The direction of the segment does not matter, except for a segment that projects to a
  // single point without being one: there the distance is measured to its first end.
  lemma NearestSymmetric(c: real, p: Coordinate, a: Coordinate, b: Coordinate)
    ensures Nearest(c, p, a, b) == Nearest(c, p, b, a) <==> LengthSq(Project(c, a, b)) != 0.0 || a == b
  {
    hide LengthSq, Project, Dot;
    LengthReverse(c, a, b);
    if LengthSq(Project(c, a, b)) != 0.0 {
      var t := NearestOnSegment(c, p, a, b);
      var u := NearestOnSegment(c, p, b, a);
      SameSegment(a, b, t);
      SameSegment(b, a, u);
      NearestIsOptimal(c, p, a, b, 1.0 - u);
      NearestIsOptimal(c, p, b, a, 1.0 - t);
    }
  }

  // The square of the distance from `p` to `q` in the projection, with `c` the cosine factor.
  function ProjectedSquare(c: real, p: Coordinate, q: Coordinate): real {
    (q.lon - p.lon) * c * ((q.lon - p.lon) * c) + (q.lat - p.lat) * (q.lat - p.lat)
  }

  lemma SquareIsLength(c: real, p: Coordinate, q: Coordinate)
    ensures ProjectedSquare(c, p, q) == LengthSq(Project(c, p, q))
  {
  }

  // The distance to a segment is the great-circle distance to the point of the segment that
  // is closest in the projection at the latitude of the point; if all are equally close, to
  // its first end.
  lemma SegmentMeasured(earth: Earth, p: Coordinate, a: Coordinate, b: Coordinate) returns (t: real)
    ensures 0.0 <= t <= 1.0 && SegmentDistance(earth, p, a, b) == earth.haversine(p, At(a, b, t))
    ensures var c := earth.cosLat(p.lat);
            forall s :: 0.0 <= s <= 1.0 ==> ProjectedSquare(c, p, At(a, b, t)) <= ProjectedSquare(c, p, At(a, b, s))
    ensures ProjectedSquare(earth.cosLat(p.lat), a, b) == 0.0 ==>
              SegmentDistance(earth, p, a, b) == earth.haversine(p, a)
  {
    var c := earth.cosLat(p.lat);
    t := NearestOnSegment(c, p, a, b);
    SquareIsLength(c, a, b);
    SquareIsLength(c, p, At(a, b, t));
    forall s | 0.0 <= s <= 1.0 ensures ProjectedSquare(c, p, At(a, b, t)) <= ProjectedSquare(c, p, At(a, b, s)) {
      NearestIsOptimal(c, p, a, b, s);
      SquareIsLength(c, p, At(a, b, s));
    }
  }

  // -------- the minimum over the edges --------

  function EdgeLength(earth: Earth, p: Coordinate, polygon: seq<Coordinate>, i: nat): real
    requires i < |polygon|
  {
    SegmentDistance(earth, p, polygon[i], polygon[Next(polygon, i)])
  }

  // The least distance over the first k edges; `FirstEdgesLeast` below says what that means.
  function FirstEdges(earth: Earth, p: Coordinate, polygon: seq<Coordinate>, k: nat): Distance
    requires k <= |polygon|
  {
    if k == 0 then Infinite
    else
      var least := FirstEdges(earth, p, polygon, k - 1);
      var d := EdgeLength(earth, p, polygon, k - 1);
      if least.Infinite? || d < least.metres then Finite(d) else least
  }

  function PolygonDistance(earth: Earth, p: Coordinate, polygon: seq<Coordinate>): Distance {
    if |polygon| == 0 then Infinite
    else if |polygon| == 1 then Finite(earth.haversine(p, polygon[0]))
    else FirstEdges(earth, p, polygon, |polygon|)
  }

  // A lower bound on the distances to all edges that one of the edges attains.
  ghost predicate IsLeastEdge(earth: Earth, p: Coordinate, polygon: seq<Coordinate>, k: nat, d: real)
    requires k <= |polygon|
  {
    && (forall i :: 0 <= i < k ==> d <= EdgeLength(earth, p, polygon, i))
    && (exists i :: 0 <= i < k && d == EdgeLength(earth, p, polygon, i))
  }

  lemma ModIsNext(polygon: seq<Coordinate>, i: nat)
    requires i < |polygon|
    ensures (i + 1) % |polygon| == Next(polygon, i)
  {
  }

  lemma {:induction false} FirstEdgesLeast(earth: Earth, p: Coordinate, polygon: seq<Coordinate>, k: nat)
    requires 0 < k <= |polygon|
    ensures FirstEdges(earth, p, polygon, k).Finite?
    ensures IsLeastEdge(earth, p, polygon, k, FirstEdges(earth, p, polygon, k).metres)
  {
    if k > 1 {
      FirstEdgesLeast(earth, p, polygon, k - 1);
    }
    assert k - 1 < k && EdgeLength(earth, p, polygon, k - 1) == EdgeLength(earth, p, polygon, k - 1);
  }

  // The running minimum over the edges, each from a vertex to the next one modulo n.
  method DistanceToPolygonEdge(earth: Earth, point: Coordinate, polygon: seq<Coordinate>) returns (minDist: Distance)
    ensures |polygon| >= 2 ==> minDist.Finite? && IsLeastEdge(earth, point, polygon, |polygon|, minDist.metres)
    ensures |polygon| == 1 ==> minDist == Finite(earth.haversine(point, polygon[0]))
    ensures |polygon| == 0 ==> minDist == Infinite
    ensures minDist == PolygonDistance(earth, point, polygon)
  {
    var n := |polygon|;
    if n < 2 {
      if n == 1 {
        return Finite(earth.haversine(point, polygon[0]));
      }
      return Infinite;
    }
    minDist := Infinite;
    for i := 0 to n
      invariant minDist == FirstEdges(earth, point, polygon, i)
    {
      var j := (i + 1) % n;
      ModIsNext(polygon, i);
      var d := SegmentDistance(earth, point, polygon[i], polygon[j]);
      if minDist.Infinite? || d < minDist.metres {
        minDist := Finite(d);
      }
    }
    FirstEdgesLeast(earth, point, polygon, n);
  }

  lemma RotatedEdge(earth: Earth, p: Coordinate, polygon: seq<Coordinate>, k: nat, i: nat)
    requires k < |polygon| && i < |polygon|
    ensures var n := |polygon|; var from := if i + k < n then i + k else i + k - n;
            EdgeLength(earth, p, polygon[k..] + polygon[..k], i) == EdgeLength(earth, p, polygon, from)
  {
    var n := |polygon|;
    var rotated := polygon[k..] + polygon[..k];
    var from := if i + k < n then i + k else i + k - n;
    assert rotated[i] == polygon[from];
    assert rotated[Next(rotated, i)] == polygon[Next(polygon, from)];
  }

  // The distance does not depend on the vertex the list starts with.
  lemma DistanceRotationInvariant(earth: Earth, p: Coordinate, polygon: seq<Coordinate>, k: nat)
    requires k < |polygon|
    ensures PolygonDistance(earth, p, polygon[k..] + polygon[..k]) == PolygonDistance(earth, p, polygon)
  {
    var n := |polygon|;
    var rotated := polygon[k..] + polygon[..k];
    if n == 1 {
      assert rotated == polygon;
    } else {
      FirstEdgesLeast(earth, p, polygon, n);
      FirstEdgesLeast(earth, p, rotated, n);
      var d, e := FirstEdges(earth, p, polygon, n).metres, FirstEdges(earth, p, rotated, n).metres;
      var i :| 0 <= i < n && d == EdgeLength(earth, p, polygon, i);
      RotatedEdge(earth, p, polygon, k, if i >= k then i - k else i + n - k);
      var j :| 0 <= j < n && e == EdgeLength(earth, p, rotated, j);
      RotatedEdge(earth, p, polygon, k, j);
    }
  }

  // An edge whose direction does not matter: its ends are apart in the projection, or equal.
  predicate IsPlainEdge(earth: Earth, p: Coordinate, polygon: seq<Coordinate>, i: nat)
    requires i < |polygon|
  {
    var a, b := polygon[i], polygon[Next(polygon, i)];
    LengthSq(Project(earth.cosLat(p.lat), a, b)) != 0.0 || a == b
  }

  // Which edge an edge of the reversed list is.
  function ReversedIndex(i: nat, n: nat): (j: nat)
    requires i < n
    ensures j < n
  {
    if i == n - 1 then i else n - 2 - i
  }

  lemma ReversedEdge(earth: Earth, p: Coordinate, polygon: seq<Coordinate>, i: nat)
    requires i < |polygon| && IsPlainEdge(earth, p, polygon, ReversedIndex(i, |polygon|))
    ensures EdgeLength(earth, p, Reversed(polygon), i) == EdgeLength(earth, p, polygon, ReversedIndex(i, |polygon|))
  {
    hide Nearest, LengthSq, Project;
    var j := ReversedIndex(i, |polygon|);
    ReversedAt(polygon, i);
    ReversedAt(polygon, Next(polygon, i));
    NearestSymmetric(earth.cosLat(p.lat), p, polygon[j], polygon[Next(polygon, j)]);
  }

  // Nor does it depend on the direction in which the list goes around.
  lemma DistanceReversalInvariant(earth: Earth, p: Coordinate, polygon: seq<Coordinate>)
    requires forall i :: 0 <= i < |polygon| ==> IsPlainEdge(earth, p, polygon, i)
    ensures PolygonDistance(earth, p, Reversed(polygon)) == PolygonDistance(earth, p, polygon)
  {
    var n, reversed := |polygon|, Reversed(polygon);
    if n >= 2 {
      FirstEdgesLeast(earth, p, polygon, n);
      FirstEdgesLeast(earth, p, reversed, n);
      var d, e := FirstEdges(earth, p, polygon, n).metres, FirstEdges(earth, p, reversed, n).metres;
      var i :| 0 <= i < n && d == EdgeLength(earth, p, polygon, i);
      assert ReversedIndex(ReversedIndex(i, n), n) == i;
      ReversedEdge(earth, p, polygon, ReversedIndex(i, n));
      var j :| 0 <= j < n && e == EdgeLength(earth, p, reversed, j);
      ReversedEdge(earth, p, polygon, j);
    }
  }
}
