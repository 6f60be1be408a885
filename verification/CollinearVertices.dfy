/**
 Vertices in the middle of an edge, which a configured zone may have: they never change the
 answer of the ray-casting test, so the exact condition for strictly convex polygons extends
 to convex polygons with such vertices.
 */
module CollinearVertices {
  import opened PointInPolygon
  import opened ConvexPolygon

  // A point properly between two others.
  ghost predicate IsBetween(v: Coordinate, a: Coordinate, b: Coordinate) {
    exists t :: 0.0 < t < 1.0 && v == At(a, b, t)
  }

  lemma OrientAt(a: Coordinate, b: Coordinate, t: real, p: Coordinate)
    ensures Orient(a, At(a, b, t), p) == t * Orient(a, b, p)
    ensures Orient(At(a, b, t), b, p) == (1.0 - t) * Orient(a, b, p)
  {
  }

  lemma ScaledDifference(u: real, x: real)
    requires u > 0.0
    ensures (u * x > 0.0) == (x > 0.0) && (u * x < 0.0) == (x < 0.0)
  {
  }

  lemma PartOf(t: real, d: real)
    requires 0.0 < t < 1.0
    ensures if d > 0.0 then 0.0 < t * d < d else if d < 0.0 then d < t * d < 0.0 else t * d == 0.0
  {
    ScaledDifference(t, d);
    ScaledDifference(1.0 - t, d);
    assert (1.0 - t) * d == d - t * d;
  }

  lemma LatBetween(a: Coordinate, b: Coordinate, t: real)
    requires 0.0 < t < 1.0
    ensures var lat := At(a, b, t).lat; (a.lat <= lat <= b.lat) || (b.lat <= lat <= a.lat)
  {
    var d := b.lat - a.lat;
    PartOf(t, d);
    assert At(a, b, t).lat == a.lat + t * d;
  }

  // Whichever part of the edge passes the ray's latitude, the point is on the same side of it.
  lemma CrossesPart(p: Coordinate, a: Coordinate, b: Coordinate, t: real)
    requires 0.0 < t < 1.0 && Straddles(p, b, a)
    ensures var v := At(a, b, t);
            if Straddles(p, v, a) then Crosses(p, v, a) == Crosses(p, b, a) else Crosses(p, b, v) == Crosses(p, b, a)
  {
    hide Orient, Crosses, At;
    var v := At(a, b, t);
    CrossesBySide(p, b, a);
    CrossesBySide(p, v, a);
    CrossesBySide(p, b, v);
    OrientAt(a, b, t, p);
    ScaledDifference(t, Orient(a, b, p));
    ScaledDifference(1.0 - t, Orient(a, b, p));
  }

  // An edge is crossed exactly when one of its two parts is.
  lemma CrossesSplit(p: Coordinate, a: Coordinate, b: Coordinate, t: real)
    requires 0.0 < t < 1.0
    ensures Crosses(p, b, a) == (Crosses(p, At(a, b, t), a) != Crosses(p, b, At(a, b, t)))
  {
    LatBetween(a, b, t);
    if Straddles(p, b, a) {
      CrossesPart(p, a, b, t);
    }
    hide At, IntersectLon;
  }

  lemma PathSplit(p: Coordinate, a: Coordinate, b: Coordinate, t: real)
    requires 0.0 < t < 1.0
    ensures Crossings(p, [a, At(a, b, t), b]) == Crossings(p, [a, b])
  {
    hide At;
    var v := At(a, b, t);
    CrossesSplit(p, a, b, t);
    hide Crosses;
    assert [a, v, b][1..] == [v, b] && [v, b][1..] == [b] && [a, b][1..] == [b];
  }

  // -------- inserting a vertex --------

  function Inserted(polygon: seq<Coordinate>, i: nat, v: Coordinate): (r: seq<Coordinate>)
    requires i < |polygon|
    ensures |r| == |polygon| + 1
  {
    polygon[..i + 1] + [v] + polygon[i + 1..]
  }

  // A vertex inserted after vertex i in the middle of its edge never changes the answer,
  // whatever the polygon.
  lemma InsertedVertex(p: Coordinate, polygon: seq<Coordinate>, i: nat, t: real)
    requires |polygon| >= 3 && i < |polygon| && 0.0 < t < 1.0
    ensures Inside(p, Inserted(polygon, i, At(polygon[i], polygon[Next(polygon, i)], t))) == Inside(p, polygon)
  {
    hide Crossings, At;
    var a, b := polygon[i], polygon[Next(polygon, i)];
    var v := At(a, b, t);
    var head, tail := polygon[..i], Closed(polygon)[i + 2..];
    assert Closed(polygon)[i + 1] == b;
    assert Closed(polygon) == head + [a] + ([b] + tail);
    assert Closed(Inserted(polygon, i, v)) == head + [a] + ([v] + ([b] + tail));
    PathSplit(p, a, b, t);
    CrossingsConcat(p, head, a, [b] + tail);
    CrossingsConcat(p, head, a, [v] + ([b] + tail));
    CrossingsConcat(p, [a], b, tail);
    CrossingsConcat(p, [a, v], b, tail);
    assert [a] + [b] + tail == [a] + ([b] + tail) && [a, v] + [b] + tail == [a] + ([v] + ([b] + tail));
    assert [a] + [b] == [a, b] && [a, v] + [b] == [a, v, b];
  }

  // -------- convex polygons --------

  function Prev(polygon: seq<Coordinate>, i: nat): (j: nat)
    requires i < |polygon|
    ensures j < |polygon| && Next(polygon, j) == i
  {
    if i == 0 then |polygon| - 1 else i - 1
  }

  function Without(polygon: seq<Coordinate>, i: nat): (r: seq<Coordinate>)
    requires i < |polygon|
    ensures |r| == |polygon| - 1
  {
    polygon[..i] + polygon[i + 1..]
  }

  // A vertex in the middle of the line from its predecessor to its successor.
  ghost predicate IsCollinear(polygon: seq<Coordinate>, i: nat)
    requires i < |polygon|
  {
    IsBetween(polygon[i], polygon[Prev(polygon, i)], polygon[Next(polygon, i)])
  }

  // A polygon that is strictly convex once its collinear vertices are left out.
  ghost predicate WeaklyConvex(polygon: seq<Coordinate>)
    decreases |polygon|
  {
    StrictlyConvex(polygon)
    || exists i :: 0 <= i < |polygon| && |polygon| >= 4 && IsCollinear(polygon, i) && WeaklyConvex(Without(polygon, i))
  }

  // A vertex inserted before the first one, in the middle of the closing edge.
  lemma InsertedFirst(p: Coordinate, polygon: seq<Coordinate>, t: real)
    requires |polygon| >= 3 && 0.0 < t < 1.0
    ensures Inside(p, [At(polygon[|polygon| - 1], polygon[0], t)] + polygon) == Inside(p, polygon)
  {
    hide Inside, At;
    var n := |polygon|;
    var v := At(polygon[n - 1], polygon[0], t);
    InsertedVertex(p, polygon, n - 1, t);
    assert Inserted(polygon, n - 1, v) == polygon + [v];
    RotationInvariant(p, polygon + [v], n);
    assert (polygon + [v])[n..] + (polygon + [v])[..n] == [v] + polygon;
  }

  lemma WithoutKeepsInside(p: Coordinate, polygon: seq<Coordinate>, i: nat)
    requires |polygon| >= 4 && i < |polygon| && IsCollinear(polygon, i)
    ensures Inside(p, Without(polygon, i)) == Inside(p, polygon)
  {
    hide Inside, At;
    var rest := Without(polygon, i);
    var t :| 0.0 < t < 1.0 && polygon[i] == At(polygon[Prev(polygon, i)], polygon[Next(polygon, i)], t);
    if i == 0 {
      InsertedFirst(p, rest, t);
      assert polygon == [polygon[0]] + rest;
    } else {
      InsertedVertex(p, rest, i - 1, t);
      assert Inserted(rest, i - 1, polygon[i]) == polygon;
    }
  }

  lemma SideAt(a: Coordinate, b: Coordinate, t: real, p: Coordinate)
    ensures Side(a, At(a, b, t), p) == Scale(t, Side(a, b, p))
    ensures Side(At(a, b, t), b, p) == Scale(1.0 - t, Side(a, b, p))
  {
    OrientAt(a, b, t, p);
    hide Orient;
  }

  // Being left of an edge and of either part of it is the same.
  lemma LeftOfPart(p: Coordinate, a: Coordinate, b: Coordinate, t: real)
    requires 0.0 < t < 1.0
    ensures LeftOf(a, At(a, b, t), p) == LeftOf(a, b, p) && LeftOf(At(a, b, t), b, p) == LeftOf(a, b, p)
  {
    OrientAt(a, b, t, p);
    SideAt(a, b, t, p);
    ScalePositive(t, Side(a, b, p));
    ScalePositive(1.0 - t, Side(a, b, p));
    hide Side, Positive, At, Scale;
  }

  // Which edge of the polygon an edge of the shorter list is.
  lemma EdgeWithout(polygon: seq<Coordinate>, i: nat, j: nat)
    requires i < |polygon| && j < |polygon| && |polygon| >= 4 && j != i && j != Prev(polygon, i)
    ensures var rest, k := Without(polygon, i), if j < i then j else j - 1;
            k < |rest| && rest[k] == polygon[j] && rest[Next(rest, k)] == polygon[Next(polygon, j)]
  {
  }

  lemma LeftOfAllWithout(p: Coordinate, polygon: seq<Coordinate>, i: nat)
    requires |polygon| >= 4 && i < |polygon| && IsCollinear(polygon, i)
    ensures LeftOfAll(Without(polygon, i), p) <==> LeftOfAll(polygon, p)
  {
    hide LeftOf, At;
    var rest, h := Without(polygon, i), Prev(polygon, i);
    var g := if i == 0 then |rest| - 1 else i - 1;
    var t :| 0.0 < t < 1.0 && polygon[i] == At(polygon[h], polygon[Next(polygon, i)], t);
    LeftOfPart(p, polygon[h], polygon[Next(polygon, i)], t);
    assert rest[g] == polygon[h] && rest[Next(rest, g)] == polygon[Next(polygon, i)];
    if LeftOfAll(rest, p) {
      forall j | 0 <= j < |polygon| ensures LeftOf(polygon[j], polygon[Next(polygon, j)], p) {
        if j != i && j != h {
          EdgeWithout(polygon, i, j);
        }
      }
    }
    if LeftOfAll(polygon, p) {
      forall k | 0 <= k < |rest| ensures LeftOf(rest[k], rest[Next(rest, k)], p) {
        if k != g {
          EdgeWithout(polygon, i, if k < i then k else k + 1);
        }
      }
    }
  }

  // The exact condition for convex polygons, collinear vertices allowed.
  lemma {:induction false} WeaklyConvexInside(p: Coordinate, polygon: seq<Coordinate>)
    requires WeaklyConvex(polygon)
    ensures Inside(p, polygon) <==> LeftOfAll(polygon, p)
    decreases |polygon|
  {
    if StrictlyConvex(polygon) {
      ConvexInside(p, polygon);
    } else {
      var i :| 0 <= i < |polygon| && |polygon| >= 4 && IsCollinear(polygon, i) && WeaklyConvex(Without(polygon, i));
      WithoutKeepsInside(p, polygon, i);
      LeftOfAllWithout(p, polygon, i);
      hide Inside, LeftOfAll;
      WeaklyConvexInside(p, Without(polygon, i));
    }
  }
}
