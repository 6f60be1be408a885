/**
 What the ray-casting test decides on a strictly convex polygon: an exact condition for
 every point, boundary points included.

 The half-open edge rule behaves as if the point had been moved an infinitesimal step east
 and a still smaller step north.  `Side` is the orientation of that moved point as a
 polynomial in the step, lowest order first; its sign is lexicographic.
 */
module ConvexPolygon {
  import opened PointInPolygon

  datatype Triple = Triple(x: real, y: real, z: real)

  predicate Positive(t: Triple) {
    t.x > 0.0 || (t.x == 0.0 && (t.y > 0.0 || (t.y == 0.0 && t.z > 0.0)))
  }

  // The orientation of the point displaced by (step, step * step) with respect to the
  // edge from `a` to `b`.
  function Side(a: Coordinate, b: Coordinate, p: Coordinate): Triple {
    Triple(Orient(a, b, p), a.lat - b.lat, b.lon - a.lon)
  }

  // The point is strictly left of the edge, or on its line while the edge heads south or,
  // being level, east.
  predicate LeftOf(a: Coordinate, b: Coordinate, p: Coordinate) {
    Positive(Side(a, b, p))
  }

  // Every vertex off an edge lies strictly to the left of it.
  predicate StrictlyConvex(polygon: seq<Coordinate>) {
    |polygon| >= 3
    && forall i, k :: 0 <= i < |polygon| && 0 <= k < |polygon| && k != i && k != Next(polygon, i) ==>
         Orient(polygon[i], polygon[Next(polygon, i)], polygon[k]) > 0.0
  }

  predicate LeftOfAll(polygon: seq<Coordinate>, p: Coordinate) {
    forall i :: 0 <= i < |polygon| ==> LeftOf(polygon[i], polygon[Next(polygon, i)], p)
  }

  // -------- positive combinations --------

  function Scale(u: real, t: Triple): Triple {
    Triple(u * t.x, u * t.y, u * t.z)
  }

  function Plus(t: Triple, s: Triple): Triple {
    Triple(t.x + s.x, t.y + s.y, t.z + s.z)
  }

  lemma SignOfScaled(u: real, x: real)
    requires u > 0.0
    ensures (u * x > 0.0) == (x > 0.0) && (u * x == 0.0) == (x == 0.0)
  {
  }

  lemma ScalePositive(u: real, t: Triple)
    requires u > 0.0
    ensures Positive(Scale(u, t)) == Positive(t)
  {
    SignOfScaled(u, t.x);
    SignOfScaled(u, t.y);
    SignOfScaled(u, t.z);
  }

  lemma ConePositive(s: Triple, u: real, t: Triple)
    requires Positive(s) && Positive(t) && u >= 0.0
    ensures Positive(Plus(s, Scale(u, t)))
  {
    if u > 0.0 {
      ScalePositive(u, t);
    }
  }

  // -------- triangles --------

  // The three weights of the displaced point in a triangle with vertices at latitudes
  // `da`, `db`, `dc` relative to the point and doubled area `area`: the weights add up to
  // the area, and the weighted latitudes add up to the point's own displacement.
  predicate AreWeights(l: Triple, m: Triple, n: Triple, da: real, db: real, dc: real, area: real) {
    && area > 0.0
    && Plus(Plus(l, m), n) == Triple(area, 0.0, 0.0)
    && Plus(Plus(Scale(da, l), Scale(db, m)), Scale(dc, n)) == Triple(0.0, 0.0, area)
  }

  function Weigh(u: real, v: real, w: real, a: real, b: real, c: real): real {
    u * a + v * b + w * c
  }

  // The weights of a point in a triangle recover the point from the vertices.
  lemma Moments(p: Coordinate, z: Coordinate, b: Coordinate, c: Coordinate)
    ensures var l, m, n, d := Side(b, c, p), Side(c, z, p), Side(z, b, p), Orient(z, b, c);
            && l.x + m.x + n.x == d && l.y + m.y + n.y == 0.0 && l.z + m.z + n.z == 0.0
            && Weigh(l.x, m.x, n.x, z.lat, b.lat, c.lat) == d * p.lat
            && Weigh(l.y, m.y, n.y, z.lat, b.lat, c.lat) == 0.0
            && Weigh(l.z, m.z, n.z, z.lat, b.lat, c.lat) == d
            && Weigh(l.x, m.x, n.x, z.lon, b.lon, c.lon) == d * p.lon
            && Weigh(l.y, m.y, n.y, z.lon, b.lon, c.lon) == d
            && Weigh(l.z, m.z, n.z, z.lon, b.lon, c.lon) == 0.0
  {
  }

  lemma WeighTriples(l: Triple, m: Triple, n: Triple, a: real, b: real, c: real)
    ensures Plus(Plus(Scale(a, l), Scale(b, m)), Scale(c, n))
            == Triple(Weigh(l.x, m.x, n.x, a, b, c), Weigh(l.y, m.y, n.y, a, b, c), Weigh(l.z, m.z, n.z, a, b, c))
  {
  }

  lemma WeighRelative(u: real, v: real, w: real, a: real, b: real, c: real, p: real)
    ensures Weigh(u, v, w, a - p, b - p, c - p) == Weigh(u, v, w, a, b, c) - (u + v + w) * p
  {
  }

  lemma SidesAreWeights(a: Coordinate, b: Coordinate, c: Coordinate, p: Coordinate)
    requires Orient(a, b, c) > 0.0
    ensures AreWeights(Side(b, c, p), Side(c, a, p), Side(a, b, p), a.lat - p.lat, b.lat - p.lat, c.lat - p.lat,
            Orient(a, b, c))
  {
    hide Orient, Side, Weigh, Scale;
    var l, m, n := Side(b, c, p), Side(c, a, p), Side(a, b, p);
    Moments(p, a, b, c);
    WeighTriples(l, m, n, a.lat - p.lat, b.lat - p.lat, c.lat - p.lat);
    WeighRelative(l.x, m.x, n.x, a.lat, b.lat, c.lat, p.lat);
    WeighRelative(l.y, m.y, n.y, a.lat, b.lat, c.lat, p.lat);
    WeighRelative(l.z, m.z, n.z, a.lat, b.lat, c.lat, p.lat);
  }

  lemma FlippedScale(u: real, t: Triple)
    requires u <= 0.0 && Positive(Scale(u, t))
    ensures !Positive(t)
  {
    if u < 0.0 {
      ScalePositive(-u, t);
    }
  }

  lemma SignOfProduct(u: real, x: real)
    ensures u >= 0.0 && x >= 0.0 ==> u * x >= 0.0
    ensures u <= 0.0 && x <= 0.0 ==> u * x >= 0.0
    ensures u >= 0.0 && x <= 0.0 ==> u * x <= 0.0
    ensures u <= 0.0 && x >= 0.0 ==> u * x <= 0.0
    ensures u * x != 0.0 ==> (u * x > 0.0) == ((u > 0.0) == (x > 0.0))
  {
  }

  lemma ComponentSums(l: Triple, m: Triple, n: Triple, da: real, db: real, dc: real, area: real)
    requires AreWeights(l, m, n, da, db, dc, area)
    ensures area > 0.0 && l.x + m.x + n.x == area
    ensures da * l.x + db * m.x + dc * n.x == 0.0
    ensures da * l.y + db * m.y + dc * n.y == 0.0
    ensures da * l.z + db * m.z + dc * n.z == area
  {
  }

  lemma Remainder(x: real, y: real, z: real, da: real, db: real, dc: real, sum: real)
    requires da * x + db * y + dc * z == sum
    ensures sum + -da * x + -db * y == dc * z
  {
  }

  lemma RemainderTriple(l: Triple, m: Triple, n: Triple, da: real, db: real, dc: real, area: real)
    requires AreWeights(l, m, n, da, db, dc, area)
    ensures Plus(Plus(Triple(0.0, 0.0, area), Scale(-da, l)), Scale(-db, m)) == Scale(dc, n)
  {
    hide AreWeights;
    ComponentSums(l, m, n, da, db, dc, area);
    Remainder(l.x, m.x, n.x, da, db, dc, 0.0);
    Remainder(l.y, m.y, n.y, da, db, dc, 0.0);
    Remainder(l.z, m.z, n.z, da, db, dc, area);
  }

  lemma RemainderPositive(l: Triple, m: Triple, n: Triple, da: real, db: real, dc: real, area: real)
    requires AreWeights(l, m, n, da, db, dc, area) && da <= 0.0 && db <= 0.0
    requires Positive(l) && Positive(m)
    ensures Positive(Scale(dc, n))
  {
    RemainderTriple(l, m, n, da, db, dc, area);
    var t := Triple(0.0, 0.0, area);
    assert Positive(t);
    hide AreWeights, Plus, Scale, Positive;
    ConePositive(t, -da, l);
    ConePositive(Plus(t, Scale(-da, l)), -db, m);
  }

  lemma NoApexBelow(l: Triple, m: Triple, n: Triple, da: real, db: real, dc: real, area: real)
    requires AreWeights(l, m, n, da, db, dc, area) && da <= 0.0 && db <= 0.0 && dc <= 0.0
    ensures !(Positive(l) && Positive(m) && Positive(n))
  {
    if Positive(l) && Positive(m) {
      RemainderPositive(l, m, n, da, db, dc, area);
      FlippedScale(dc, n);
    }
  }

  lemma ScaledSign(u: real, x: real)
    requires u > 0.0
    ensures (u * x > 0.0) == (x > 0.0) && (u * x < 0.0) == (x < 0.0)
  {
    SignOfScaled(u, x);
  }

  lemma AllAbove(x: real, y: real, z: real, da: real, db: real, dc: real, area: real)
    requires da > 0.0 && db > 0.0 && dc > 0.0 && area > 0.0
    requires x + y + z == area && da * x + db * y + dc * z == 0.0
    ensures !(x >= 0.0 && y >= 0.0 && z >= 0.0)
  {
    ScaledSign(da, x);
    ScaledSign(db, y);
    ScaledSign(dc, z);
  }

  lemma NoApexAbove(l: Triple, m: Triple, n: Triple, da: real, db: real, dc: real, area: real)
    requires AreWeights(l, m, n, da, db, dc, area) && da > 0.0 && db > 0.0 && dc > 0.0
    ensures !(Positive(l) && Positive(m) && Positive(n))
  {
    hide AreWeights;
    ComponentSums(l, m, n, da, db, dc, area);
    AllAbove(l.x, m.x, n.x, da, db, dc, area);
  }

  lemma OneAbove(x: real, y: real, z: real, da: real, db: real, dc: real, area: real)
    requires da <= 0.0 && db <= 0.0 && dc > 0.0 && area > 0.0
    requires x + y + z == area && da * x + db * y + dc * z == 0.0
    ensures x > 0.0 || y > 0.0
  {
    SignOfProduct(da, x);
    SignOfProduct(db, y);
    ScaledSign(dc, z);
  }

  // One vertex above the ray, the other two not above it.
  lemma ApexAbove(l: Triple, m: Triple, n: Triple, da: real, db: real, dc: real, area: real)
    requires AreWeights(l, m, n, da, db, dc, area) && da <= 0.0 && db <= 0.0 && dc > 0.0
    ensures Positive(l) && Positive(m) ==> Positive(n)
    ensures Positive(l) || Positive(m)
  {
    hide AreWeights, Scale;
    if Positive(l) && Positive(m) {
      RemainderPositive(l, m, n, da, db, dc, area);
      ScalePositive(dc, n);
    }
    ComponentSums(l, m, n, da, db, dc, area);
    OneAbove(l.x, m.x, n.x, da, db, dc, area);
  }

  // A positively weighted sum that is positive has a positive term, and one that vanishes
  // has a positive term unless both vanish.
  lemma WeightedSum(u: real, x: real, v: real, y: real)
    requires u > 0.0 && v > 0.0
    ensures u * x + v * y > 0.0 ==> x > 0.0 || y > 0.0
    ensures u * x + v * y == 0.0 ==> x > 0.0 || y > 0.0 || (x == 0.0 && y == 0.0)
    ensures x >= 0.0 && y >= 0.0 ==> u * x + v * y >= 0.0
  {
    SignOfScaled(u, x);
    SignOfScaled(v, y);
  }

  lemma FirstComponents(x: real, y: real, z: real, da: real, db: real, dc: real, area: real)
    requires da > 0.0 && db > 0.0 && dc <= 0.0 && area > 0.0
    requires x + y + z == area && da * x + db * y + dc * z == 0.0
    ensures x >= 0.0 && y >= 0.0 ==> z > 0.0
    ensures dc < 0.0 ==> x > 0.0 || y > 0.0
  {
    WeightedSum(da, x, db, y);
    if dc < 0.0 {
      SignOfScaled(-dc, z);
      assert -dc * z == da * x + db * y;
      SignOfProduct(da, x);
      SignOfProduct(db, y);
    } else {
      assert dc * z == 0.0;
      SignOfScaled(da, x);
      SignOfScaled(db, y);
    }
  }

  // The third vertex is level with the ray.
  lemma LevelApex(l: Triple, m: Triple, da: real, db: real)
    requires da > 0.0 && db > 0.0
    requires da * l.x + db * m.x == 0.0 && da * l.y + db * m.y == 0.0 && da * l.z + db * m.z > 0.0
    ensures Positive(l) || Positive(m)
  {
    WeightedSum(da, l.x, db, m.x);
    WeightedSum(da, l.y, db, m.y);
    WeightedSum(da, l.z, db, m.z);
  }

  // One vertex not above the ray, the other two above it.
  lemma ApexBelow(l: Triple, m: Triple, n: Triple, da: real, db: real, dc: real, area: real)
    requires AreWeights(l, m, n, da, db, dc, area) && da > 0.0 && db > 0.0 && dc <= 0.0
    ensures Positive(l) && Positive(m) ==> n.x > 0.0
    ensures Positive(l) || Positive(m)
  {
    hide AreWeights;
    ComponentSums(l, m, n, da, db, dc, area);
    FirstComponents(l.x, m.x, n.x, da, db, dc, area);
    if dc == 0.0 {
      LevelApex(l, m, da, db);
    }
  }

  // A crossing, told by the displaced point: an upward edge is crossed when the point is to
  // its left, a downward edge when it is not.
  lemma CrossesByLeft(p: Coordinate, a: Coordinate, b: Coordinate)
    requires Straddles(p, b, a)
    ensures Crosses(p, b, a) == (LeftOf(a, b, p) == (b.lat > a.lat))
  {
    CrossesBySide(p, b, a);
  }

  // A triangle whose apex `c` is alone on its side of the ray.
  lemma ApexInside(p: Coordinate, a: Coordinate, b: Coordinate, c: Coordinate)
    requires Orient(a, b, c) > 0.0 && (a.lat > p.lat) == (b.lat > p.lat) != (c.lat > p.lat)
    ensures (Crosses(p, c, b) != Crosses(p, a, c)) == (LeftOf(a, b, p) && LeftOf(b, c, p) && LeftOf(c, a, p))
  {
    SidesAreWeights(a, b, c, p);
    var l, m, n := Side(b, c, p), Side(c, a, p), Side(a, b, p);
    if c.lat > p.lat {
      ApexAbove(l, m, n, a.lat - p.lat, b.lat - p.lat, c.lat - p.lat, Orient(a, b, c));
    } else {
      ApexBelow(l, m, n, a.lat - p.lat, b.lat - p.lat, c.lat - p.lat, Orient(a, b, c));
    }
    CrossesByLeft(p, b, c);
    CrossesByLeft(p, c, a);
  }

  lemma TriangleInside(p: Coordinate, a: Coordinate, b: Coordinate, c: Coordinate)
    requires Orient(a, b, c) > 0.0
    ensures Inside(p, [a, b, c]) <==> LeftOf(a, b, p) && LeftOf(b, c, p) && LeftOf(c, a, p)
  {
    assert Closed([a, b, c]) == [a, b, c, a];
    assert [a, b, c, a][1..] == [b, c, a] && [b, c, a][1..] == [c, a] && [c, a][1..] == [a];
    assert Crossings(p, [c, a]) == Crosses(p, a, c);
    assert Crossings(p, [b, c, a]) == (Crosses(p, c, b) != Crosses(p, a, c));
    assert Inside(p, [a, b, c]) == (Crosses(p, b, a) != (Crosses(p, c, b) != Crosses(p, a, c)));
    OrientRotate(a, b, c);
    OrientRotate(b, c, a);
    var ua, ub, uc := a.lat > p.lat, b.lat > p.lat, c.lat > p.lat;
    if ua == ub && ub == uc {
      SidesAreWeights(a, b, c, p);
      var l, m, n := Side(b, c, p), Side(c, a, p), Side(a, b, p);
      if ua {
        NoApexAbove(l, m, n, a.lat - p.lat, b.lat - p.lat, c.lat - p.lat, Orient(a, b, c));
      } else {
        NoApexBelow(l, m, n, a.lat - p.lat, b.lat - p.lat, c.lat - p.lat, Orient(a, b, c));
      }
    } else if ua == ub {
      ApexInside(p, a, b, c);
    } else if ub == uc {
      ApexInside(p, b, c, a);
    } else {
      ApexInside(p, c, a, b);
    }
  }

  // -------- fans of a convex polygon --------

  lemma Plucker(o: Coordinate, u: Coordinate, a: Coordinate, b: Coordinate, c: Coordinate)
    ensures Orient(o, u, b) * Orient(o, a, c) == Orient(o, u, a) * Orient(o, b, c) + Orient(o, u, c) * Orient(o, a, b)
  {
    var ux, uy, ax, ay := u.lon - o.lon, u.lat - o.lat, a.lon - o.lon, a.lat - o.lat;
    var bx, by_, cx, cy := b.lon - o.lon, b.lat - o.lat, c.lon - o.lon, c.lat - o.lat;
    assert (ux * by_ - uy * bx) * (ax * cy - ay * cx) == (ux * ay - uy * ax) * (bx * cy - by_ * cx)
      + (ux * cy - uy * cx) * (ax * by_ - ay * bx);
  }

  lemma Edge(polygon: seq<Coordinate>, i: nat, k: nat)
    requires StrictlyConvex(polygon) && i + 1 < |polygon| && k < |polygon| && k != i && k != i + 1
    ensures Orient(polygon[i], polygon[i + 1], polygon[k]) > 0.0
  {
    assert Next(polygon, i) == i + 1;
  }

  lemma PositiveQuotient(d: real, x: real, y: real)
    requires d > 0.0 && d * x == y && y > 0.0
    ensures x > 0.0
  {
    SignOfScaled(d, x);
  }

  // Seen from the first vertex, the others come in counterclockwise order.
  lemma {:induction false} FanOrder(polygon: seq<Coordinate>, i: nat, j: nat)
    requires StrictlyConvex(polygon) && 0 < i < j < |polygon|
    ensures Orient(polygon[0], polygon[i], polygon[j]) > 0.0
    decreases j
  {
    var o, u, a, b, c := polygon[0], polygon[1], polygon[i], polygon[j - 1], polygon[j];
    if i == 1 {
      Edge(polygon, 0, j);
    } else if i == j - 1 {
      Edge(polygon, i, 0);
      OrientRotate(o, a, c);
    } else {
      FanOrder(polygon, i, j - 1);
      Edge(polygon, j - 1, 0);
      OrientRotate(o, b, c);
      Edge(polygon, 0, i);
      Edge(polygon, 0, j - 1);
      Edge(polygon, 0, j);
      Plucker(o, u, a, b, c);
      PositiveQuotient(Orient(o, u, b), Orient(o, a, c), Orient(o, u, a) * Orient(o, b, c)
        + Orient(o, u, c) * Orient(o, a, b));
    }
  }

  // The direction of an edge between two others as their positive combination.
  lemma BetweenOutgoing(a: Coordinate, b: Coordinate, c: Coordinate, z: Coordinate)
    ensures Orient(b, c, z) * (a.lat - b.lat) + Orient(a, b, c) * (b.lat - z.lat) == Orient(a, b, z) * (b.lat - c.lat)
    ensures Orient(b, c, z) * (b.lon - a.lon) + Orient(a, b, c) * (z.lon - b.lon) == Orient(a, b, z) * (c.lon - b.lon)
  {
  }

  lemma BetweenIncoming(b: Coordinate, c: Coordinate, z: Coordinate, f: Coordinate)
    ensures Orient(c, z, f) * (b.lat - z.lat) + Orient(z, b, c) * (z.lat - f.lat) == Orient(b, z, f) * (c.lat - z.lat)
    ensures Orient(c, z, f) * (z.lon - b.lon) + Orient(z, b, c) * (f.lon - z.lon) == Orient(b, z, f) * (z.lon - c.lon)
  {
  }

  // A point left of two consecutive edges is left of any edge that leaves their common
  // vertex between them ...
  lemma LeftOfNewEdge(p: Coordinate, a: Coordinate, b: Coordinate, c: Coordinate, z: Coordinate)
    requires Orient(a, b, z) > 0.0 && Orient(b, c, z) > 0.0 && Orient(a, b, c) > 0.0
    requires LeftOf(a, b, p) && LeftOf(b, z, p)
    ensures LeftOf(b, c, p)
  {
    hide Orient;
    var d, u, v := Orient(a, b, z), Orient(b, c, z), Orient(a, b, c);
    Plucker(b, c, z, p, a);
    OrientRotate(a, b, z);
    OrientRotate(a, b, c);
    OrientRotate(a, b, p);
    BetweenOutgoing(a, b, c, z);
    ScalePositive(u, Side(a, b, p));
    ConePositive(Scale(u, Side(a, b, p)), v, Side(b, z, p));
    assert Plus(Scale(u, Side(a, b, p)), Scale(v, Side(b, z, p))) == Scale(d, Side(b, c, p));
    ScalePositive(d, Side(b, c, p));
  }

  // ... or arrives at it between them.
  lemma LeftOfNewClosing(p: Coordinate, b: Coordinate, c: Coordinate, z: Coordinate, f: Coordinate)
    requires Orient(b, z, f) > 0.0 && Orient(c, z, f) > 0.0 && Orient(z, b, c) > 0.0
    requires LeftOf(b, z, p) && LeftOf(z, f, p)
    ensures LeftOf(c, z, p)
  {
    hide Orient;
    var d, u, v := Orient(b, z, f), Orient(c, z, f), Orient(z, b, c);
    Plucker(z, f, p, b, c);
    OrientRotate(b, z, f);
    OrientRotate(c, z, f);
    OrientRotate(b, z, p);
    OrientRotate(c, z, p);
    BetweenIncoming(b, c, z, f);
    ScalePositive(u, Side(b, z, p));
    ConePositive(Scale(u, Side(b, z, p)), v, Side(z, f, p));
    assert Plus(Scale(u, Side(b, z, p)), Scale(v, Side(z, f, p))) == Scale(d, Side(c, z, p));
    ScalePositive(d, Side(c, z, p));
  }

  // Orientation with respect to a fixed edge is affine in the point.
  lemma OrientCombination(u: real, q: Coordinate, v: real, r: Coordinate, w: real, s: Coordinate, e: Coordinate,
                          f: Coordinate,
                          sum: real, lat: real, lon: real)
    requires u + v + w == sum
    requires u * q.lat + v * r.lat + w * s.lat == lat && u * q.lon + v * r.lon + w * s.lon == lon
    ensures Orient(e, f, s) * w + Orient(e, f, r) * v + Orient(e, f, q) * u
            == (f.lon - e.lon) * (lat - sum * e.lat) - (f.lat - e.lat) * (lon - sum * e.lon)
  {
    var gx, gy := f.lon - e.lon, f.lat - e.lat;
    assert lat - sum * e.lat == u * (q.lat - e.lat) + v * (r.lat - e.lat) + w * (s.lat - e.lat);
    assert lon - sum * e.lon == u * (q.lon - e.lon) + v * (r.lon - e.lon) + w * (s.lon - e.lon);
  }

  lemma ScaledOrient(d: real, e: Coordinate, f: Coordinate, p: Coordinate)
    ensures (f.lon - e.lon) * (d * p.lat - d * e.lat) - (f.lat - e.lat) * (d * p.lon - d * e.lon) == d * Orient(e, f, p)
  {
  }

  lemma FarEdgePoint(p: Coordinate, z: Coordinate, b: Coordinate, c: Coordinate, e: Coordinate, f: Coordinate)
    ensures Weigh(Side(z, b, p).x, Side(c, z, p).x, Side(b, c, p).x, Orient(e, f, c), Orient(e, f, b), Orient(e, f, z))
            == Orient(z, b, c) * Side(e, f, p).x
  {
    hide Orient;
    var d := Orient(z, b, c);
    Moments(p, z, b, c);
    OrientCombination(Orient(b, c, p), z, Orient(c, z, p), b, Orient(z, b, p), c, e, f, d, d * p.lat, d * p.lon);
    ScaledOrient(d, e, f, p);
  }

  lemma FarEdgeEast(p: Coordinate, z: Coordinate, b: Coordinate, c: Coordinate, e: Coordinate, f: Coordinate)
    ensures Weigh(Side(z, b, p).y, Side(c, z, p).y, Side(b, c, p).y, Orient(e, f, c), Orient(e, f, b), Orient(e, f, z))
            == Orient(z, b, c) * Side(e, f, p).y
  {
    hide Orient;
    var d := Orient(z, b, c);
    Moments(p, z, b, c);
    OrientCombination(Side(b, c, p).y, z, Side(c, z, p).y, b, Side(z, b, p).y, c, e, f, 0.0, 0.0, d);
    assert (f.lon - e.lon) * 0.0 - (f.lat - e.lat) * d == d * (e.lat - f.lat);
  }

  lemma FarEdgeNorth(p: Coordinate, z: Coordinate, b: Coordinate, c: Coordinate, e: Coordinate, f: Coordinate)
    ensures Weigh(Side(z, b, p).z, Side(c, z, p).z, Side(b, c, p).z, Orient(e, f, c), Orient(e, f, b), Orient(e, f, z))
            == Orient(z, b, c) * Side(e, f, p).z
  {
    hide Orient;
    var d := Orient(z, b, c);
    Moments(p, z, b, c);
    OrientCombination(Side(b, c, p).z, z, Side(c, z, p).z, b, Side(z, b, p).z, c, e, f, 0.0, d, 0.0);
    assert (f.lon - e.lon) * d - (f.lat - e.lat) * 0.0 == d * (f.lon - e.lon);
  }

  lemma FarEdgeWeights(p: Coordinate, z: Coordinate, b: Coordinate, c: Coordinate, e: Coordinate, f: Coordinate)
    ensures Plus(Plus(Scale(Orient(e, f, c), Side(z, b, p)), Scale(Orient(e, f, b), Side(c, z, p))),
            Scale(Orient(e, f, z), Side(b, c, p)))
            == Scale(Orient(z, b, c), Side(e, f, p))
  {
    hide Orient, Side, Weigh;
    WeighTriples(Side(z, b, p), Side(c, z, p), Side(b, c, p), Orient(e, f, c), Orient(e, f, b), Orient(e, f, z));
    FarEdgePoint(p, z, b, c, e, f);
    FarEdgeEast(p, z, b, c, e, f);
    FarEdgeNorth(p, z, b, c, e, f);
  }

  // A point of a triangle is left of every edge that has the triangle on its left.
  lemma LeftOfFarEdge(p: Coordinate, z: Coordinate, b: Coordinate, c: Coordinate, e: Coordinate, f: Coordinate)
    requires Orient(z, b, c) > 0.0 && LeftOf(z, b, p) && LeftOf(b, c, p) && LeftOf(c, z, p)
    requires Orient(e, f, z) >= 0.0 && Orient(e, f, b) >= 0.0 && Orient(e, f, c) > 0.0
    ensures LeftOf(e, f, p)
  {
    var d := Orient(z, b, c);
    var t := Scale(Orient(e, f, c), Side(z, b, p));
    ScalePositive(Orient(e, f, c), Side(z, b, p));
    ConePositive(t, Orient(e, f, b), Side(c, z, p));
    var t1 := Plus(t, Scale(Orient(e, f, b), Side(c, z, p)));
    ConePositive(t1, Orient(e, f, z), Side(b, c, p));
    FarEdgeWeights(p, z, b, c, e, f);
    ScalePositive(d, Side(e, f, p));
  }

  // -------- main results for convex polygons --------

  // Every point is left of exactly one direction of a line.
  lemma LeftOfOneDirection(a: Coordinate, b: Coordinate, p: Coordinate)
    requires a != b
    ensures LeftOf(b, a, p) == !LeftOf(a, b, p)
  {
    OrientSwap(a, b, p);
  }

  lemma DistinctCorners(a: Coordinate, b: Coordinate, c: Coordinate)
    requires Orient(a, b, c) > 0.0
    ensures a != b
  {
  }

  predicate LeftOfFirst(polygon: seq<Coordinate>, k: nat, p: Coordinate)
    requires k < |polygon|
  {
    forall j :: 0 <= j < k ==> LeftOf(polygon[j], polygon[j + 1], p)
  }

  // A point left of the first edges of the fan and of its closing chord is left of the two
  // edges that replace the chord when the next vertex is added.
  lemma FanGrows(p: Coordinate, polygon: seq<Coordinate>, k: nat)
    requires StrictlyConvex(polygon) && 3 <= k < |polygon|
    requires LeftOfFirst(polygon, k - 1, p) && LeftOf(polygon[k - 1], polygon[0], p)
    ensures LeftOf(polygon[k - 1], polygon[k], p) && LeftOf(polygon[k], polygon[0], p)
  {
    var z, f, a, b, c := polygon[0], polygon[1], polygon[k - 2], polygon[k - 1], polygon[k];
    Edge(polygon, k - 2, 0);
    Edge(polygon, k - 2, k);
    Edge(polygon, k - 1, 0);
    assert LeftOf(a, b, p);
    LeftOfNewEdge(p, a, b, c, z);
    Edge(polygon, 0, k - 1);
    Edge(polygon, 0, k);
    OrientRotate(b, z, f);
    OrientRotate(c, z, f);
    FanOrder(polygon, k - 1, k);
    assert LeftOf(z, f, p);
    LeftOfNewClosing(p, b, c, z, f);
  }

  // A point of the newest triangle of the fan is left of all the earlier edges.
  lemma NewTriangleWithin(p: Coordinate, polygon: seq<Coordinate>, k: nat, j: nat)
    requires StrictlyConvex(polygon) && 3 <= k < |polygon| && j < k - 1
    requires LeftOf(polygon[0], polygon[k - 1], p) && LeftOf(polygon[k - 1], polygon[k], p)
             && LeftOf(polygon[k], polygon[0], p)
    ensures LeftOf(polygon[j], polygon[j + 1], p)
  {
    FanOrder(polygon, k - 1, k);
    Edge(polygon, j, k);
    if j != 0 {
      Edge(polygon, j, 0);
    }
    if j + 1 != k - 1 {
      Edge(polygon, j, k - 1);
    }
    LeftOfFarEdge(p, polygon[0], polygon[k - 1], polygon[k], polygon[j], polygon[j + 1]);
  }

  lemma {:induction false} FanInside(p: Coordinate, polygon: seq<Coordinate>, k: nat)
    requires StrictlyConvex(polygon) && 2 <= k < |polygon|
    ensures Inside(p, polygon[..k + 1]) <==> LeftOfFirst(polygon, k, p) && LeftOf(polygon[k], polygon[0], p)
  {
    hide Orient, LeftOf, Inside;
    var z, b, c := polygon[0], polygon[k - 1], polygon[k];
    FanOrder(polygon, k - 1, k);
    DistinctCorners(z, b, c);
    if k == 2 {
      assert polygon[..3] == [z, b, c];
      TriangleInside(p, z, b, c);
    } else {
      FanInside(p, polygon, k - 1);
      var whole := polygon[..k + 1];
      ChordAdditivity(p, whole, 0, k - 1);
      assert ChordFront(whole, 0, k - 1) == polygon[..k];
      assert ChordBack(whole, 0, k - 1) == [b, c, z];
      OrientRotate(z, b, c);
      TriangleInside(p, b, c, z);
      LeftOfOneDirection(b, z, p);
      if LeftOf(b, z, p) {
        if LeftOfFirst(polygon, k - 1, p) {
          FanGrows(p, polygon, k);
        }
      } else if LeftOf(b, c, p) && LeftOf(c, z, p) {
        forall j | 0 <= j < k - 1 ensures LeftOf(polygon[j], polygon[j + 1], p) {
          NewTriangleWithin(p, polygon, k, j);
        }
      }
    }
  }

  // The ray test on a counterclockwise strictly convex polygon decides, for every point of
  // the plane, whether it is left of all edges in the sense of `LeftOf`.
  lemma ConvexInside(p: Coordinate, polygon: seq<Coordinate>)
    requires StrictlyConvex(polygon)
    ensures Inside(p, polygon) <==> LeftOfAll(polygon, p)
  {
    var n := |polygon|;
    FanInside(p, polygon, n - 1);
    assert polygon[..n] == polygon;
    if LeftOfAll(polygon, p) {
      forall j | 0 <= j < n - 1 ensures LeftOf(polygon[j], polygon[j + 1], p) {
        assert Next(polygon, j) == j + 1;
      }
      assert Next(polygon, n - 1) == 0;
    }
  }

  // A clockwise polygon is handled through its reversal.
  lemma ConvexInsideClockwise(p: Coordinate, polygon: seq<Coordinate>)
    requires StrictlyConvex(Reversed(polygon))
    ensures Inside(p, polygon) <==> LeftOfAll(Reversed(polygon), p)
  {
    ConvexInside(p, Reversed(polygon));
    ReversalInvariant(p, polygon);
  }

  // Off the boundary the answer is the geometric one: interior points are inside and points
  // beyond some edge are not.
  lemma ConvexInterior(p: Coordinate, polygon: seq<Coordinate>)
    requires StrictlyConvex(polygon)
    ensures (forall i :: 0 <= i < |polygon| ==> Orient(polygon[i], polygon[Next(polygon, i)], p) > 0.0) ==>
            Inside(p, polygon)
    ensures (exists i :: 0 <= i < |polygon| && Orient(polygon[i], polygon[Next(polygon, i)], p) < 0.0) ==>
            !Inside(p, polygon)
  {
    ConvexInside(p, polygon);
    if i :| 0 <= i < |polygon| && Orient(polygon[i], polygon[Next(polygon, i)], p) < 0.0 {
      assert !LeftOf(polygon[i], polygon[Next(polygon, i)], p);
    }
  }

  // Two convex zones that share an edge, traversed in opposite directions, never both claim
  // a point: a boundary point is charged to one side only.
  lemma SharedEdgeDisjoint(p: Coordinate, left: seq<Coordinate>, right: seq<Coordinate>, i: nat, j: nat)
    requires StrictlyConvex(left) && StrictlyConvex(right) && i < |left| && j < |right|
    requires left[i] == right[Next(right, j)] && left[Next(left, i)] == right[j]
    ensures !(Inside(p, left) && Inside(p, right))
  {
    ConvexInside(p, left);
    ConvexInside(p, right);
    var a, b := left[i], left[Next(left, i)];
    if a != b {
      LeftOfOneDirection(a, b, p);
    }
    assert LeftOf(right[j], right[Next(right, j)], p) == LeftOf(b, a, p);
    assert !(LeftOf(a, b, p) && LeftOf(b, a, p));
  }
}
