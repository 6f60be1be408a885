/**
 The ray-casting test of backend/parking-fee-service/geo/geo.go over exact reals.

 A polygon is a vertex list that is implicitly closed.  `Crossings` is the parity of
 the ray crossings along an open path; everything else about the test follows from how
 that parity behaves under concatenation of paths and under swapping an edge's ends.
 */
module PointInPolygon {
  datatype Coordinate = Coordinate(lat: real, lon: real)

  // The point of the segment from `a` to `b` at parameter `t`.
  function At(a: Coordinate, b: Coordinate, t: real): Coordinate {
    Coordinate(a.lat + t * (b.lat - a.lat), a.lon + t * (b.lon - a.lon))
  }

  // Does the edge from `b` to `a` pass from one side of the ray's latitude to the other?
  // The comparison is strict, so a vertex lying on the ray counts as below it.
  predicate Straddles(p: Coordinate, a: Coordinate, b: Coordinate) {
    (a.lat > p.lat) != (b.lat > p.lat)
  }

  // The longitude at which the line through the edge meets the ray's latitude.
  function IntersectLon(p: Coordinate, a: Coordinate, b: Coordinate): real
    requires Straddles(p, a, b)
  {
    b.lon + (p.lat - b.lat) / (a.lat - b.lat) * (a.lon - b.lon)
  }

  // Does the eastward ray from `p` cross the edge from `b` to `a`?
  predicate Crosses(p: Coordinate, a: Coordinate, b: Coordinate) {
    Straddles(p, a, b) && p.lon < IntersectLon(p, a, b)
  }

  // The parity of the crossings along the open path through the given vertices.
  predicate Crossings(p: Coordinate, path: seq<Coordinate>) {
    |path| >= 2 && (Crosses(p, path[1], path[0]) != Crossings(p, path[1..]))
  }

  // The closed walk of a polygon: its vertices and then the first one again.
  function Closed(polygon: seq<Coordinate>): (walk: seq<Coordinate>)
    requires polygon != []
  {
    polygon + [polygon[0]]
  }

  // The index of the vertex after the given one.
  function Next(polygon: seq<Coordinate>, i: nat): (j: nat)
    requires i < |polygon|
    ensures j < |polygon|
  {
    if i + 1 == |polygon| then 0 else i + 1
  }

  // What the test decides: at least three vertices and an odd number of crossings.
  predicate Inside(p: Coordinate, polygon: seq<Coordinate>) {
    |polygon| >= 3 && Crossings(p, Closed(polygon))
  }

  // -------- the crossing test in terms of the side of the directed edge --------

  // Twice the signed area of the triangle a, b, c with longitude as abscissa and latitude
  // as ordinate: positive when c lies strictly to the left of the line from a to b.
  function Orient(a: Coordinate, b: Coordinate, c: Coordinate): real {
    (b.lon - a.lon) * (c.lat - a.lat) - (b.lat - a.lat) * (c.lon - a.lon)
  }

  lemma ScaleOrder(x: real, q: real, d: real)
    requires d > 0.0
    ensures x < q <==> x * d < q * d
  {
    if x < q {
      assert (q - x) * d > 0.0;
    } else if x > q {
      assert (x - q) * d > 0.0;
    }
  }

  lemma Negated(x: real, d: real)
    ensures x * -d == -(x * d)
  {
  }

  lemma QuotientBelow(x: real, y: real, d: real, w: real)
    requires d != 0.0
    ensures x < y / d * w <==> if d > 0.0 then x * d < y * w else x * d > y * w
  {
    var q := y / d * w;
    assert q * d == y * w by {
      assert y / d * d == y;
      assert q * d == (y / d * d) * w;
    }
    if d > 0.0 {
      ScaleOrder(x, q, d);
    } else {
      ScaleOrder(q, x, -d);
      ScaleOrder(x, q, -d);
      Negated(x, d);
      Negated(q, d);
    }
  }

  lemma ProductSign(x: real, y: real)
    requires x >= 0.0 && y >= 0.0
    ensures x * y >= 0.0 && (x > 0.0 && y > 0.0 ==> x * y > 0.0)
  {
  }

  // An upward edge is crossed exactly by the points strictly to its left, a downward
  // edge exactly by the points strictly to its right.
  lemma CrossesBySide(p: Coordinate, a: Coordinate, b: Coordinate)
    ensures Crosses(p, a, b) <==>
            Straddles(p, a, b) && if a.lat > b.lat then Orient(b, a, p) > 0.0 else Orient(b, a, p) < 0.0
  {
    if Straddles(p, a, b) {
      QuotientBelow(p.lon - b.lon, p.lat - b.lat, a.lat - b.lat, a.lon - b.lon);
      assert (p.lon - b.lon) * (a.lat - b.lat) == (a.lat - b.lat) * (p.lon - b.lon);
      assert (p.lat - b.lat) * (a.lon - b.lon) == (a.lon - b.lon) * (p.lat - b.lat);
    }
  }

  lemma OrientSwap(a: Coordinate, b: Coordinate, c: Coordinate)
    ensures Orient(b, a, c) == -Orient(a, b, c)
  {
    assert Orient(a, b, c) == (b.lon - a.lon) * c.lat - (b.lon - a.lon) * a.lat - (b.lat - a.lat) * c.lon
      + (b.lat - a.lat) * a.lon;
    assert Orient(b, a, c) == (a.lon - b.lon) * c.lat - (a.lon - b.lon) * b.lat - (a.lat - b.lat) * c.lon
      + (a.lat - b.lat) * b.lon;
  }

  lemma OrientRotate(a: Coordinate, b: Coordinate, c: Coordinate)
    ensures Orient(b, c, a) == Orient(a, b, c)
  {
    assert Orient(a, b, c) == b.lon * c.lat - b.lon * a.lat - a.lon * c.lat - b.lat * c.lon + b.lat * a.lon
      + a.lat * c.lon;
    assert Orient(b, c, a) == c.lon * a.lat - c.lon * b.lat - b.lon * a.lat - c.lat * a.lon + c.lat * b.lon
      + b.lat * a.lon;
  }

  // An edge is crossed in one direction exactly when it is crossed in the other.
  lemma CrossesSymmetric(p: Coordinate, a: Coordinate, b: Coordinate)
    ensures Crosses(p, a, b) == Crosses(p, b, a)
  {
    CrossesBySide(p, a, b);
    CrossesBySide(p, b, a);
    OrientSwap(a, b, p);
  }

  // -------- parity of paths --------

  // Two paths sharing a vertex: the parity of the joined path is the sum of the parities.
  lemma {:induction false} CrossingsConcat(p: Coordinate, left: seq<Coordinate>, v: Coordinate, right: seq<Coordinate>)
    ensures Crossings(p, left + [v] + right) == (Crossings(p, left + [v]) != Crossings(p, [v] + right))
  {
    if left == [] {
      assert left + [v] + right == [v] + right;
      assert left + [v] == [v];
    } else {
      CrossingsConcat(p, left[1..], v, right);
      var whole, half := left + [v] + right, left + [v];
      assert whole[1..] == left[1..] + [v] + right;
      assert half[1..] == left[1..] + [v];
      assert whole[1] == half[1] && whole[0] == half[0];
    }
  }

  lemma CrossingsAppend(p: Coordinate, path: seq<Coordinate>, v: Coordinate)
    requires path != []
    ensures Crossings(p, path + [v]) == (Crossings(p, path) != Crosses(p, v, path[|path| - 1]))
  {
    var last := path[|path| - 1];
    CrossingsConcat(p, path[..|path| - 1], last, [v]);
    assert path[..|path| - 1] + [last] == path;
    assert [last] + [v] == [last, v];
    assert Crossings(p, [last, v]) == Crosses(p, v, last);
  }

  function Reversed(path: seq<Coordinate>): (r: seq<Coordinate>)
    ensures |r| == |path|
  {
    if path == [] then [] else Reversed(path[1..]) + [path[0]]
  }

  lemma {:induction false} ReversedLast(path: seq<Coordinate>)
    requires path != []
    ensures Reversed(path)[0] == path[|path| - 1] && Reversed(path)[|path| - 1] == path[0]
  {
    if |path| <= 1 {
    } else {
      ReversedLast(path[1..]);
    }
  }

  lemma {:induction false} ReversedAt(path: seq<Coordinate>, k: nat)
    requires k < |path|
    ensures Reversed(path)[k] == path[|path| - 1 - k]
  {
    if k >= |path| - 1 {
    } else {
      ReversedAt(path[1..], k);
    }
  }

  lemma {:induction false} CrossingsReversed(p: Coordinate, path: seq<Coordinate>)
    ensures Crossings(p, Reversed(path)) == Crossings(p, path)
  {
    if |path| >= 2 {
      CrossingsReversed(p, path[1..]);
      ReversedLast(path[1..]);
      CrossingsAppend(p, Reversed(path[1..]), path[0]);
      CrossesSymmetric(p, path[0], path[1]);
    } else if |path| == 1 {
      assert Reversed(path) == path;
    }
  }

  // Polygons of one or two vertices have even parity, so the length test of `Inside` only
  // matters for the empty list.
  lemma SmallPolygonsEven(p: Coordinate, polygon: seq<Coordinate>)
    requires 1 <= |polygon| <= 2
    ensures !Crossings(p, Closed(polygon))
  {
    if |polygon| == 1 {
      assert Closed(polygon) == [polygon[0], polygon[0]];
      assert !Crosses(p, polygon[0], polygon[0]);
    } else {
      var a, b := polygon[0], polygon[1];
      assert Closed(polygon) == [a, b, a];
      CrossesSymmetric(p, a, b);
      assert Crossings(p, [b, a]) == Crosses(p, a, b);
    }
  }

  lemma InsideIsParity(p: Coordinate, polygon: seq<Coordinate>)
    requires polygon != []
    ensures Inside(p, polygon) == Crossings(p, Closed(polygon))
  {
    if |polygon| < 3 {
      SmallPolygonsEven(p, polygon);
    }
  }

  // The ray-casting loop, with its trailing index `j`.
  method Test(point: Coordinate, polygon: seq<Coordinate>) returns (inside: bool)
    ensures inside <==> Inside(point, polygon)
  {
    hide IntersectLon;
    var n := |polygon|;
    if n < 3 {
      return false;
    }
    inside := false;
    var j := n - 1;
    for i := 0 to n
      invariant j == if i == 0 then n - 1 else i - 1
      invariant inside <==> i > 0 && (Crosses(point, polygon[0], polygon[n - 1]) != Crossings(point, polygon[..i]))
    {
      var pi, pj := polygon[i], polygon[j];
      if (pi.lat > point.lat) != (pj.lat > point.lat) {
        var intersectLon := IntersectLon(point, pi, pj);
        if point.lon < intersectLon {
          inside := !inside;
        }
      }
      if i > 0 {
        CrossingsAppend(point, polygon[..i], pi);
        assert polygon[..i] + [pi] == polygon[..i + 1];
      }
      j := i;
    }
    assert polygon[..n] == polygon;
    CrossingsAppend(point, polygon, polygon[0]);
    CrossesSymmetric(point, polygon[0], polygon[n - 1]);
  }

  // -------- main results for arbitrary polygons --------

  // The piece of the polygon from vertex i to vertex j, closed by the chord between them.
  function ChordFront(polygon: seq<Coordinate>, i: nat, j: nat): seq<Coordinate>
    requires i < j < |polygon|
  {
    polygon[i..j + 1]
  }

  // The rest: from vertex j around the end of the list to vertex i.
  function ChordBack(polygon: seq<Coordinate>, i: nat, j: nat): seq<Coordinate>
    requires i < j < |polygon|
  {
    polygon[j..] + polygon[..i + 1]
  }

  // The closed walk is the way to vertex i, from there to vertex j, and from there back.
  lemma WholeWalk(p: Coordinate, polygon: seq<Coordinate>, i: nat, j: nat)
    requires i < j < |polygon|
    ensures Crossings(p, Closed(polygon))
            == ((Crossings(p, polygon[..i + 1]) != Crossings(p, polygon[i..j + 1]))
              != Crossings(p, polygon[j..] + [polygon[0]]))
  {
    hide Crosses, Crossings;
    var vi, vj, end := polygon[i], polygon[j], polygon[j + 1..] + [polygon[0]];
    var rest := polygon[i + 1..] + [polygon[0]];
    CrossingsConcat(p, polygon[..i], vi, rest);
    assert Closed(polygon) == polygon[..i] + [vi] + rest;
    assert polygon[..i + 1] == polygon[..i] + [vi];
    CrossingsConcat(p, polygon[i..j], vj, end);
    assert [vi] + rest == polygon[i..j] + [vj] + end;
    assert polygon[i..j + 1] == polygon[i..j] + [vj];
    assert polygon[j..] + [polygon[0]] == [vj] + end;
  }

  lemma BackWalk(p: Coordinate, polygon: seq<Coordinate>, i: nat, j: nat)
    requires i < j < |polygon|
    ensures Crossings(p, ChordBack(polygon, i, j))
            == (Crossings(p, polygon[j..] + [polygon[0]]) != Crossings(p, polygon[..i + 1]))
    ensures var back := ChordBack(polygon, i, j); Closed(back) == back + [polygon[j]] && back[|back| - 1] == polygon[i]
  {
    hide Crosses, Crossings;
    CrossingsConcat(p, polygon[j..], polygon[0], polygon[1..i + 1]);
    assert ChordBack(polygon, i, j) == polygon[j..] + [polygon[0]] + polygon[1..i + 1];
    assert polygon[..i + 1] == [polygon[0]] + polygon[1..i + 1];
  }

  // Cutting a polygon along any chord: a point is inside the whole exactly when it is
  // inside one of the two pieces and not the other.
  lemma ChordAdditivity(p: Coordinate, polygon: seq<Coordinate>, i: nat, j: nat)
    requires i < j < |polygon|
    ensures Inside(p, polygon) == (Inside(p, ChordFront(polygon, i, j)) != Inside(p, ChordBack(polygon, i, j)))
  {
    hide Crosses, Crossings;
    var vi, vj := polygon[i], polygon[j];
    var front, back := ChordFront(polygon, i, j), ChordBack(polygon, i, j);
    WholeWalk(p, polygon, i, j);
    BackWalk(p, polygon, i, j);
    CrossingsAppend(p, front, vi);
    assert Closed(front) == front + [vi];
    CrossingsAppend(p, back, vj);
    CrossesSymmetric(p, vi, vj);
    InsideIsParity(p, polygon);
    InsideIsParity(p, front);
    InsideIsParity(p, back);
    hide Inside;
  }

  // Both closed walks consist of the way from the first vertex to vertex k and the way back.
  lemma WholeAt(p: Coordinate, polygon: seq<Coordinate>, k: nat)
    requires 0 < k < |polygon|
    ensures Crossings(p, Closed(polygon))
            == (Crossings(p, polygon[..k] + [polygon[k]]) != Crossings(p, polygon[k..] + [polygon[0]]))
  {
    hide Crossings, Crosses;
    var vk, rest := polygon[k], polygon[k + 1..] + [polygon[0]];
    CrossingsConcat(p, polygon[..k], vk, rest);
    assert polygon == polygon[..k] + [vk] + polygon[k + 1..];
    assert Closed(polygon) == polygon[..k] + [vk] + rest;
    assert [vk] + rest == polygon[k..] + [polygon[0]];
  }

  lemma RotatedAt(p: Coordinate, polygon: seq<Coordinate>, k: nat)
    requires 0 < k < |polygon|
    ensures Crossings(p, Closed(polygon[k..] + polygon[..k]))
            == (Crossings(p, polygon[k..] + [polygon[0]]) != Crossings(p, polygon[..k] + [polygon[k]]))
  {
    hide Crossings, Crosses;
    var vk, first := polygon[k], polygon[0];
    CrossingsConcat(p, polygon[k..], first, polygon[1..k] + [vk]);
    assert polygon[..k] == [first] + polygon[1..k];
    assert Closed(polygon[k..] + polygon[..k]) == polygon[k..] + [first] + (polygon[1..k] + [vk]);
    assert [first] + (polygon[1..k] + [vk]) == polygon[..k] + [vk];
  }

  // The answer does not depend on which vertex the list starts with ...
  lemma RotationInvariant(p: Coordinate, polygon: seq<Coordinate>, k: nat)
    requires k <= |polygon|
    ensures Inside(p, polygon[k..] + polygon[..k]) == Inside(p, polygon)
  {
    if k == 0 || k == |polygon| {
      assert polygon[k..] + polygon[..k] == polygon;
    } else {
      WholeAt(p, polygon, k);
      RotatedAt(p, polygon, k);
      hide Crossings;
    }
  }

  // ... nor on the direction in which it goes around.
  lemma ReversalInvariant(p: Coordinate, polygon: seq<Coordinate>)
    ensures Inside(p, Reversed(polygon)) == Inside(p, polygon)
  {
    if |polygon| >= 3 {
      var last := polygon[|polygon| - 1];
      CrossingsReversed(p, polygon);
      ReversedLast(polygon);
      CrossingsAppend(p, Reversed(polygon), last);
      CrossingsAppend(p, polygon, polygon[0]);
      CrossesSymmetric(p, polygon[0], last);
    }
  }

  function Moved(c: Coordinate, dLat: real, dLon: real): Coordinate {
    Coordinate(c.lat + dLat, c.lon + dLon)
  }

  function AllMoved(path: seq<Coordinate>, dLat: real, dLon: real): (r: seq<Coordinate>)
    ensures |r| == |path| && forall i :: 0 <= i < |path| ==> r[i] == Moved(path[i], dLat, dLon)
  {
    seq(|path|, i requires 0 <= i < |path| => Moved(path[i], dLat, dLon))
  }

  lemma OrientMoved(a: Coordinate, b: Coordinate, c: Coordinate, dLat: real, dLon: real)
    ensures Orient(Moved(a, dLat, dLon), Moved(b, dLat, dLon), Moved(c, dLat, dLon)) == Orient(a, b, c)
  {
  }

  lemma {:induction false} CrossingsMoved(p: Coordinate, path: seq<Coordinate>, dLat: real, dLon: real)
    ensures Crossings(Moved(p, dLat, dLon), AllMoved(path, dLat, dLon)) == Crossings(p, path)
  {
    hide Orient, IntersectLon;
    if |path| < 2 {
    } else {
      CrossingsMoved(p, path[1..], dLat, dLon);
      assert AllMoved(path, dLat, dLon)[1..] == AllMoved(path[1..], dLat, dLon);
      var a, b := path[1], path[0];
      var q, a', b' := Moved(p, dLat, dLon), Moved(a, dLat, dLon), Moved(b, dLat, dLon);
      CrossesBySide(p, a, b);
      CrossesBySide(q, a', b');
      OrientMoved(b, a, p, dLat, dLon);
    }
  }

  lemma TranslationInvariant(p: Coordinate, polygon: seq<Coordinate>, dLat: real, dLon: real)
    ensures Inside(Moved(p, dLat, dLon), AllMoved(polygon, dLat, dLon)) == Inside(p, polygon)
  {
    if |polygon| >= 3 {
      CrossingsMoved(p, Closed(polygon), dLat, dLon);
      assert AllMoved(Closed(polygon), dLat, dLon) == Closed(AllMoved(polygon, dLat, dLon));
    }
  }

  // -------- the bounding box --------

  lemma OrientFromPoint(p: Coordinate, a: Coordinate, b: Coordinate)
    ensures Orient(b, a, p) == (a.lon - p.lon) * (p.lat - b.lat) + (b.lon - p.lon) * (a.lat - p.lat)
  {
    assert Orient(b, a, p) == a.lon * p.lat - a.lon * b.lat - b.lon * p.lat - a.lat * p.lon + a.lat * b.lon
      + b.lat * p.lon;
  }

  lemma WeightedSign(u: real, v: real, s: real, t: real)
    requires u > 0.0 && v > 0.0
    ensures s >= 0.0 && t > 0.0 ==> u * s + v * t > 0.0
    ensures s < 0.0 && t <= 0.0 ==> u * s + v * t < 0.0
  {
    if s >= 0.0 && t > 0.0 {
      ProductSign(u, s);
      ProductSign(v, t);
    }
    if s < 0.0 && t <= 0.0 {
      ProductSign(u, -s);
      ProductSign(v, -t);
      Negated(u, s);
      Negated(v, t);
    }
  }

  lemma EdgeEastOf(p: Coordinate, a: Coordinate, b: Coordinate)
    requires Straddles(p, a, b) && p.lon < a.lon && p.lon < b.lon
    ensures if a.lat > b.lat then Orient(b, a, p) > 0.0 else Orient(b, a, p) < 0.0
  {
    OrientFromPoint(p, a, b);
    WeightedSign(a.lon - p.lon, b.lon - p.lon, p.lat - b.lat, a.lat - p.lat);
  }

  // With every vertex strictly east of the point, the crossings of a path are its changes
  // of side, so their parity compares the two ends only.
  lemma {:induction false} CrossingsEastOf(p: Coordinate, path: seq<Coordinate>)
    requires path != [] && forall v :: v in path ==> p.lon < v.lon
    ensures Crossings(p, path) == Straddles(p, path[0], path[|path| - 1])
  {
    if |path| < 2 {
    } else {
      CrossingsEastOf(p, path[1..]);
      var a, b := path[1], path[0];
      if Straddles(p, a, b) {
        CrossesBySide(p, a, b);
        EdgeEastOf(p, a, b);
      }
    }
  }

  lemma EdgeWestOf(u: real, v: real, s: real, t: real)
    requires u >= 0.0 && v >= 0.0
    ensures s >= 0.0 && t >= 0.0 ==> -u * s + -v * t <= 0.0
    ensures s <= 0.0 && t <= 0.0 ==> -u * s + -v * t >= 0.0
  {
    if s >= 0.0 && t >= 0.0 {
      ProductSign(u, s);
      ProductSign(v, t);
    }
    if s <= 0.0 && t <= 0.0 {
      ProductSign(u, -s);
      ProductSign(v, -t);
    }
  }

  // With no vertex strictly east of the point, nothing is crossed.
  lemma {:induction false} CrossingsWestOf(p: Coordinate, path: seq<Coordinate>)
    requires forall v :: v in path ==> v.lon <= p.lon
    ensures !Crossings(p, path)
  {
    if |path| < 2 {
    } else {
      CrossingsWestOf(p, path[1..]);
      var a, b := path[1], path[0];
      if Straddles(p, a, b) {
        CrossesBySide(p, a, b);
        OrientFromPoint(p, a, b);
        var u, v := p.lon - a.lon, p.lon - b.lon;
        EdgeWestOf(u, v, p.lat - b.lat, a.lat - p.lat);
      }
    }
  }

  // A path on one side of the ray's latitude is never crossed.
  lemma {:induction false} CrossingsOneSide(p: Coordinate, path: seq<Coordinate>, above: bool)
    requires forall v :: v in path ==> (v.lat > p.lat) == above
    ensures !Crossings(p, path)
  {
    if |path| < 2 {
    } else {
      CrossingsOneSide(p, path[1..], above);
      assert path[0] in path && path[1] in path;
    }
  }

  // Every point reported inside lies in the half-open bounding box of the vertices.
  lemma InsideBoundingBox(p: Coordinate, polygon: seq<Coordinate>)
    requires Inside(p, polygon)
    ensures exists v :: v in polygon && v.lat <= p.lat
    ensures exists v :: v in polygon && p.lat < v.lat
    ensures exists v :: v in polygon && v.lon <= p.lon
    ensures exists v :: v in polygon && p.lon < v.lon
  {
    var walk := Closed(polygon);
    assert forall v :: v in walk <==> v in polygon;
    if forall v :: v in polygon ==> p.lat < v.lat {
      CrossingsOneSide(p, walk, true);
    }
    if forall v :: v in polygon ==> v.lat <= p.lat {
      CrossingsOneSide(p, walk, false);
    }
    if forall v :: v in polygon ==> p.lon < v.lon {
      CrossingsEastOf(p, walk);
    }
    if forall v :: v in polygon ==> v.lon <= p.lon {
      CrossingsWestOf(p, walk);
    }
  }
}
