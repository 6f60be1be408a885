/**
 Operator lookup by location: the zone filter, the index built over the configured
 operators, and the lookup that joins the two.
 */
module ZoneLookup {
  import opened Wrappers
  import opened PointInPolygon
  import opened EdgeDistance

  datatype Zone = Zone(id: string, name: string, polygon: seq<Coordinate>)

  datatype Rate = Rate(kind: string, amount: real, currency: string)

  datatype AdapterMeta = AdapterMeta(imageRef: string, checksum: string, version: string)

  datatype Operator = Operator(id: string, name: string, zoneId: string, rate: Rate, adapter: AdapterMeta)

  // -------- the zone filter --------

  predicate Within(d: Distance, threshold: real) {
    d.Finite? && d.metres <= threshold
  }

  predicate Matches(earth: Earth, point: Coordinate, zone: Zone, threshold: real) {
    Inside(point, zone.polygon) || Within(PolygonDistance(earth, point, zone.polygon), threshold)
  }

  function MatchingIds(earth: Earth, point: Coordinate, zones: seq<Zone>, threshold: real): seq<string> {
    if zones == [] then []
    else
      var last := zones[|zones| - 1];
      MatchingIds(earth, point, zones[..|zones| - 1], threshold)
      + if Matches(earth, point, last, threshold) then [last.id] else []
  }

  // A point belongs to a zone when it is inside its polygon, or no farther than the threshold
  // from one of the edges, or from the only vertex.
  ghost predicate Covers(earth: Earth, point: Coordinate, zone: Zone, threshold: real) {
    || Inside(point, zone.polygon)
    || (|zone.polygon| == 1 && earth.haversine(point, zone.polygon[0]) <= threshold)
    || (|zone.polygon| >= 2
        && exists i :: 0 <= i < |zone.polygon| && EdgeLength(earth, point, zone.polygon, i) <= threshold)
  }

  ghost predicate Ascending(at: seq<nat>) {
    forall k, l :: 0 <= k < l < |at| ==> at[k] < at[l]
  }

  lemma MatchesIff(earth: Earth, point: Coordinate, zone: Zone, threshold: real)
    ensures Matches(earth, point, zone, threshold) <==> Covers(earth, point, zone, threshold)
  {
    if |zone.polygon| >= 2 {
      FirstEdgesLeast(earth, point, zone.polygon, |zone.polygon|);
      hide Inside, EdgeLength;
    }
  }

  // The positions of the matching zones: all of them, in order.
  lemma {:induction false} MatchingPositions(earth: Earth, point: Coordinate, zones: seq<Zone>, threshold: real)
    returns (at: seq<nat>)
    ensures var ids := MatchingIds(earth, point, zones, threshold);
            |at| == |ids| && Ascending(at) && forall k :: 0 <= k < |at| ==> at[k] < |zones| && ids[k] == zones[at[k]].id
    ensures forall z: nat :: z < |zones| ==> (z in at <==> Covers(earth, point, zones[z], threshold))
  {
    if zones == [] {
      at := [];
    } else {
      var init, last := zones[..|zones| - 1], zones[|zones| - 1];
      at := MatchingPositions(earth, point, init, threshold);
      MatchesIff(earth, point, last, threshold);
      hide Covers, Matches;
      assert forall z: nat :: z in at ==> z < |init|;
      if Matches(earth, point, last, threshold) {
        at := at + [|init|];
      }
    }
  }

  // An id is found exactly when a configured zone of that id covers the point.
  lemma FoundIff(earth: Earth, point: Coordinate, zones: seq<Zone>, threshold: real, id: string)
    ensures id in MatchingIds(earth, point, zones, threshold) <==>
            exists z :: 0 <= z < |zones| && zones[z].id == id && Covers(earth, point, zones[z], threshold)
  {
    var at := MatchingPositions(earth, point, zones, threshold);
    var ids := MatchingIds(earth, point, zones, threshold);
    hide Covers, MatchingIds;
    if id in ids {
      var k :| 0 <= k < |ids| && ids[k] == id;
      assert at[k] in at;
    }
    if z: nat :| z < |zones| && zones[z].id == id && Covers(earth, point, zones[z], threshold) {
      assert z in at;
      var k :| 0 <= k < |at| && at[k] == z;
      assert ids[k] == id;
    }
  }

  method FindMatchingZones(earth: Earth, point: Coordinate, zones: seq<Zone>, threshold: real)
                           returns (result: seq<string>)
    ensures result == MatchingIds(earth, point, zones, threshold)
    ensures forall id :: id in result <==>
              exists z :: 0 <= z < |zones| && zones[z].id == id && Covers(earth, point, zones[z], threshold)
  {
    result := [];
    for i := 0 to |zones|
      invariant result == MatchingIds(earth, point, zones[..i], threshold)
    {
      var zone := zones[i];
      assert zones[..i + 1][..i] == zones[..i];
      var inside := PointInPolygon.Test(point, zone.polygon);
      if inside {
        result := result + [zone.id];
        continue;
      }
      var d := DistanceToPolygonEdge(earth, point, zone.polygon);
      if d.Finite? && d.metres <= threshold {
        result := result + [zone.id];
      }
    }
    assert zones[..|zones|] == zones;
    forall id
      ensures id in result <==>
              exists z :: 0 <= z < |zones| && zones[z].id == id && Covers(earth, point, zones[z], threshold)
    {
      FoundIff(earth, point, zones, threshold, id);
    }
  }

  // -------- the operator index --------

  // The configured operators of a zone, in configuration order.
  function OfZone(operators: seq<Operator>, zoneId: string): seq<Operator> {
    if operators == [] then []
    else
      var last := operators[|operators| - 1];
      OfZone(operators[..|operators| - 1], zoneId) + if last.zoneId == zoneId then [last] else []
  }

  // The last configured operator with the given id.
  function LastOperator(operators: seq<Operator>, id: string): Option<Operator> {
    if operators == [] then None
    else if operators[|operators| - 1].id == id then Some(operators[|operators| - 1])
    else LastOperator(operators[..|operators| - 1], id)
  }

  function LastZone(zones: seq<Zone>, id: string): Option<Zone> {
    if zones == [] then None
    else if zones[|zones| - 1].id == id then Some(zones[|zones| - 1])
    else LastZone(zones[..|zones| - 1], id)
  }

  function Get<V>(m: map<string, V>, key: string): Option<V> {
    if key in m then Some(m[key]) else None
  }

  function GetAll(m: map<string, seq<Operator>>, key: string): seq<Operator> {
    if key in m then m[key] else []
  }

  // For every id in turn, the operators of that zone.
  function Gather(operators: seq<Operator>, zoneIds: seq<string>): seq<Operator> {
    if zoneIds == [] then []
    else Gather(operators, zoneIds[..|zoneIds| - 1]) + OfZone(operators, zoneIds[|zoneIds| - 1])
  }

  class Store {
    var zones: map<string, Zone>
    var operators: map<string, Operator>
    var operatorsByZone: map<string, seq<Operator>>
    ghost const configZones: seq<Zone>
    ghost const configOperators: seq<Operator>

    ghost predicate Valid()
      reads this
    {
      && (forall id: string :: Get(zones, id) == LastZone(configZones, id))
      && (forall id: string :: Get(operators, id) == LastOperator(configOperators, id))
      && (forall id: string :: GetAll(operatorsByZone, id) == OfZone(configOperators, id))
    }

    constructor (zones: seq<Zone>, operators: seq<Operator>)
      ensures Valid() && configZones == zones && configOperators == operators
    {
      this.zones, this.operators, this.operatorsByZone := map[], map[], map[];
      configZones, configOperators := zones, operators;
      new;
      for i := 0 to |zones|
        invariant this.operators == map[] && this.operatorsByZone == map[]
        invariant forall id: string :: Get(this.zones, id) == LastZone(zones[..i], id)
      {
        assert zones[..i + 1][..i] == zones[..i];
        var z := zones[i];
        this.zones := this.zones[z.id := z];
      }
      assert zones[..|zones|] == zones;
      for i := 0 to |operators|
        invariant forall id: string :: Get(this.zones, id) == LastZone(zones, id)
        invariant forall id: string :: Get(this.operators, id) == LastOperator(operators[..i], id)
        invariant forall id: string :: GetAll(this.operatorsByZone, id) == OfZone(operators[..i], id)
      {
        assert operators[..i + 1][..i] == operators[..i];
        var op := operators[i];
        this.operators := this.operators[op.id := op];
        this.operatorsByZone := this.operatorsByZone[op.zoneId := GetAll(this.operatorsByZone, op.zoneId) + [op]];
      }
      assert operators[..|operators|] == operators;
    }

    method GetZone(id: string) returns (r: Option<Zone>)
      requires Valid()
      ensures r == LastZone(configZones, id)
    {
      r := if id in zones then Some(zones[id]) else None;
      assert Get(zones, id) == r;
    }

    method GetOperator(id: string) returns (r: Option<Operator>)
      requires Valid()
      ensures r == LastOperator(configOperators, id)
    {
      r := if id in operators then Some(operators[id]) else None;
      assert Get(operators, id) == r;
    }

    method GetOperatorsByZoneIDs(zoneIds: seq<string>) returns (result: seq<Operator>)
      requires Valid()
      ensures result == Gather(configOperators, zoneIds)
    {
      result := [];
      for i := 0 to |zoneIds|
        invariant result == Gather(configOperators, zoneIds[..i])
      {
        assert zoneIds[..i + 1][..i] == zoneIds[..i];
        assert GetAll(operatorsByZone, zoneIds[i]) == OfZone(configOperators, zoneIds[i]);
        if zoneIds[i] in operatorsByZone {
          result := result + operatorsByZone[zoneIds[i]];
        }
      }
      assert zoneIds[..|zoneIds|] == zoneIds;
    }
  }

  // -------- the lookup --------

  // The naive join: for every configured zone that matches, in configuration order, the
  // configured operators that name it, in configuration order.
  function Join(earth: Earth, point: Coordinate, zones: seq<Zone>, operators: seq<Operator>,
                threshold: real): seq<Operator> {
    if zones == [] then []
    else
      var last := zones[|zones| - 1];
      Join(earth, point, zones[..|zones| - 1], operators, threshold)
      + if Matches(earth, point, last, threshold) then OfZone(operators, last.id) else []
  }

  lemma {:induction false} GatherIsJoin(earth: Earth, point: Coordinate, zones: seq<Zone>, operators: seq<Operator>,
                                        threshold: real)
    ensures Gather(operators, MatchingIds(earth, point, zones, threshold))
            == Join(earth, point, zones, operators, threshold)
  {
    if zones == [] {
    } else {
      var init, last := zones[..|zones| - 1], zones[|zones| - 1];
      GatherIsJoin(earth, point, init, operators, threshold);
      var ids := MatchingIds(earth, point, init, threshold);
      if Matches(earth, point, last, threshold) {
        assert (ids + [last.id])[..|ids|] == ids;
      } else {
        assert ids + [] == ids;
      }
    }
  }

  // An operator found for the k-th given zone id.
  datatype Hit = Hit(zone: nat, operator: nat)

  ghost predicate IsHit(operators: seq<Operator>, zoneIds: seq<string>, h: Hit) {
    h.zone < |zoneIds| && h.operator < |operators| && operators[h.operator].zoneId == zoneIds[h.zone]
  }

  predicate Precedes(a: Hit, b: Hit) {
    a.zone < b.zone || (a.zone == b.zone && a.operator < b.operator)
  }

  ghost predicate AreHits(operators: seq<Operator>, zoneIds: seq<string>, hits: seq<Hit>) {
    && (forall k :: 0 <= k < |hits| ==> IsHit(operators, zoneIds, hits[k]))
    && (forall k, l :: 0 <= k < l < |hits| ==> Precedes(hits[k], hits[l]))
    && (forall h :: IsHit(operators, zoneIds, h) ==> h in hits)
  }

  // The positions of a zone's operators: all of them, in order.
  lemma {:induction false} OfZonePositions(operators: seq<Operator>, zoneId: string) returns (at: seq<nat>)
    ensures var found := OfZone(operators, zoneId);
            && |at| == |found| && Ascending(at)
            && forall k :: 0 <= k < |at| ==> at[k] < |operators| && found[k] == operators[at[k]]
    ensures forall o: nat :: o < |operators| ==> (o in at <==> operators[o].zoneId == zoneId)
  {
    if operators == [] {
      at := [];
    } else {
      var init, last := operators[..|operators| - 1], operators[|operators| - 1];
      var before := OfZonePositions(init, zoneId);
      var found, all := OfZone(init, zoneId), OfZone(operators, zoneId);
      assert all == found + if last.zoneId == zoneId then [last] else [];
      hide OfZone;
      at := before + if last.zoneId == zoneId then [|init|] else [];
      forall o: nat | o < |operators| ensures o in at <==> operators[o].zoneId == zoneId {
        if o < |init| {
          assert o in at <==> o in before;
          assert operators[o] == init[o];
        } else {
          assert o !in before;
        }
      }
    }
  }

  lemma HitsOfLast(operators: seq<Operator>, zoneIds: seq<string>, before: seq<Hit>, at: seq<nat>)
    requires zoneIds != [] && AreHits(operators, zoneIds[..|zoneIds| - 1], before) && Ascending(at)
    requires forall o: nat :: o in at <==> o < |operators| && operators[o].zoneId == zoneIds[|zoneIds| - 1]
    ensures AreHits(operators, zoneIds, before + seq(|at|, k requires 0 <= k < |at| => Hit(|zoneIds| - 1, at[k])))
  {
    var n := |zoneIds| - 1;
    var init := zoneIds[..n];
    var more := seq(|at|, k requires 0 <= k < |at| => Hit(n, at[k]));
    var hits := before + more;
    forall k | 0 <= k < |hits| ensures IsHit(operators, zoneIds, hits[k]) {
      if k < |before| {
        assert IsHit(operators, init, before[k]);
      } else {
        assert at[k - |before|] in at;
      }
    }
    forall k, l | 0 <= k < l < |hits| ensures Precedes(hits[k], hits[l]) {
      if k < |before| && l >= |before| {
        assert IsHit(operators, init, before[k]);
      }
    }
    forall h | IsHit(operators, zoneIds, h) ensures h in hits {
      if h.zone < n {
        assert IsHit(operators, init, h);
      } else {
        var k :| 0 <= k < |at| && at[k] == h.operator;
        assert more[k] == h;
      }
    }
  }

  // The index answers with every pair of a given zone id and an operator that names it, in
  // the order of the ids and, for each id, of the operators.
  lemma {:induction false} GatherHits(operators: seq<Operator>, zoneIds: seq<string>) returns (hits: seq<Hit>)
    ensures AreHits(operators, zoneIds, hits)
    ensures var found := Gather(operators, zoneIds);
            |hits| == |found| && forall k :: 0 <= k < |hits| ==>
              hits[k].operator < |operators| && found[k] == operators[hits[k].operator]
  {
    if zoneIds == [] {
      hits := [];
    } else {
      var n := |zoneIds| - 1;
      var before := GatherHits(operators, zoneIds[..n]);
      var at := OfZonePositions(operators, zoneIds[n]);
      forall o: nat ensures o in at <==> o < |operators| && operators[o].zoneId == zoneIds[n] {
      }
      HitsOfLast(operators, zoneIds, before, at);
      hits := before + seq(|at|, k requires 0 <= k < |at| => Hit(n, at[k]));
      hide AreHits, OfZone;
    }
  }

  // An operator is looked up exactly when it is configured and names a zone that covers the
  // point.
  lemma LookedUpIff(earth: Earth, point: Coordinate, zones: seq<Zone>, operators: seq<Operator>, threshold: real,
                    op: Operator)
    ensures op in Join(earth, point, zones, operators, threshold) <==>
            op in operators
            && exists z :: 0 <= z < |zones| && zones[z].id == op.zoneId && Covers(earth, point, zones[z], threshold)
  {
    var ids := MatchingIds(earth, point, zones, threshold);
    GatherIsJoin(earth, point, zones, operators, threshold);
    FoundIff(earth, point, zones, threshold, op.zoneId);
    var hits := GatherHits(operators, ids);
    var found := Gather(operators, ids);
    hide Covers, MatchingIds, Gather, Join;
    if op in found {
      var k :| 0 <= k < |found| && found[k] == op;
      assert IsHit(operators, ids, hits[k]);
      assert ids[hits[k].zone] in ids;
    }
    if op in operators && op.zoneId in ids {
      var o :| 0 <= o < |operators| && operators[o] == op;
      var z :| 0 <= z < |ids| && ids[z] == op.zoneId;
      assert IsHit(operators, ids, Hit(z, o));
      var k :| 0 <= k < |hits| && hits[k] == Hit(z, o);
      assert found[k] == op;
    }
  }

  // The handler's lookup, through the filter and the index.
  method Lookup(store: Store, earth: Earth, point: Coordinate, zones: seq<Zone>, threshold: real)
                returns (result: seq<Operator>)
    requires store.Valid()
    ensures result == Join(earth, point, zones, store.configOperators, threshold)
    ensures forall op :: op in result <==>
              op in store.configOperators
              && exists z :: 0 <= z < |zones| && zones[z].id == op.zoneId && Covers(earth, point, zones[z], threshold)
  {
    var zoneIds := FindMatchingZones(earth, point, zones, threshold);
    result := store.GetOperatorsByZoneIDs(zoneIds);
    GatherIsJoin(earth, point, zones, store.configOperators, threshold);
    forall op
      ensures op in result <==>
              op in store.configOperators
              && exists z :: 0 <= z < |zones| && zones[z].id == op.zoneId && Covers(earth, point, zones[z], threshold)
    {
      LookedUpIff(earth, point, zones, store.configOperators, threshold, op);
    }
  }

  lemma {:induction false} OfZoneCount(operators: seq<Operator>, zoneId: string, op: Operator)
    ensures multiset(OfZone(operators, zoneId))[op] == if op.zoneId == zoneId then multiset(operators)[op] else 0
  {
    if operators == [] {
    } else {
      var init, last := operators[..|operators| - 1], operators[|operators| - 1];
      OfZoneCount(init, zoneId, op);
      assert operators == init + [last];
    }
  }

  lemma OneMore(k: nat, m: nat)
    ensures (k + 1) * m == k * m + m
  {
  }

  lemma MatchingIdsStep(earth: Earth, point: Coordinate, zones: seq<Zone>, threshold: real, id: string)
    requires zones != []
    ensures var init, last := zones[..|zones| - 1], zones[|zones| - 1];
            multiset(MatchingIds(earth, point, zones, threshold))[id]
            == multiset(MatchingIds(earth, point, init, threshold))[id]
               + if Matches(earth, point, last, threshold) && last.id == id then 1 else 0
  {
    hide Matches;
  }

  lemma JoinStep(earth: Earth, point: Coordinate, zones: seq<Zone>, operators: seq<Operator>, threshold: real,
                 op: Operator)
    requires zones != []
    ensures var init, last := zones[..|zones| - 1], zones[|zones| - 1];
            multiset(Join(earth, point, zones, operators, threshold))[op]
            == multiset(Join(earth, point, init, operators, threshold))[op]
               + if Matches(earth, point, last, threshold) && last.id == op.zoneId then multiset(operators)[op] else 0
  {
    hide Matches;
    OfZoneCount(operators, zones[|zones| - 1].id, op);
  }

  // How often an operator is returned: once for every configured occurrence of it and every
  // matching zone entry with its zone id.
  lemma {:induction false} JoinCount(earth: Earth, point: Coordinate, zones: seq<Zone>, operators: seq<Operator>,
                                     threshold: real, op: Operator)
    ensures multiset(Join(earth, point, zones, operators, threshold))[op]
            == multiset(MatchingIds(earth, point, zones, threshold))[op.zoneId] * multiset(operators)[op]
  {
    if zones == [] {
    } else {
      var init := zones[..|zones| - 1];
      JoinCount(earth, point, init, operators, threshold, op);
      MatchingIdsStep(earth, point, zones, threshold, op.zoneId);
      JoinStep(earth, point, zones, operators, threshold, op);
      OneMore(multiset(MatchingIds(earth, point, init, threshold))[op.zoneId], multiset(operators)[op]);
      hide Matches, MatchingIds, Join;
    }
  }

  ghost predicate DistinctZoneIds(zones: seq<Zone>) {
    forall i, j :: 0 <= i < j < |zones| ==> zones[i].id != zones[j].id
  }

  ghost predicate ZoneMatches(earth: Earth, point: Coordinate, zones: seq<Zone>, threshold: real, zoneId: string) {
    exists z :: z in zones && z.id == zoneId && Matches(earth, point, z, threshold)
  }

  lemma {:induction false} MatchingIdCount(earth: Earth, point: Coordinate, zones: seq<Zone>, threshold: real,
                                           zoneId: string)
    requires DistinctZoneIds(zones)
    ensures multiset(MatchingIds(earth, point, zones, threshold))[zoneId]
            == if ZoneMatches(earth, point, zones, threshold, zoneId) then 1 else 0
  {
    if zones == [] {
    } else {
      var init, last := zones[..|zones| - 1], zones[|zones| - 1];
      MatchingIdCount(earth, point, init, threshold, zoneId);
      assert zones == init + [last];
      assert last in zones;
      if ZoneMatches(earth, point, init, threshold, zoneId) {
        var z :| z in init && z.id == zoneId && Matches(earth, point, z, threshold);
        assert z in zones;
      }
    }
  }

  // With distinct zone ids the lookup returns exactly the configured operators whose zone
  // matches, each as often as it is configured.
  lemma LookupExact(earth: Earth, point: Coordinate, zones: seq<Zone>, operators: seq<Operator>, threshold: real,
                    op: Operator)
    requires DistinctZoneIds(zones)
    ensures multiset(Join(earth, point, zones, operators, threshold))[op]
            == if ZoneMatches(earth, point, zones, threshold, op.zoneId) then multiset(operators)[op] else 0
  {
    JoinCount(earth, point, zones, operators, threshold, op);
    MatchingIdCount(earth, point, zones, threshold, op.zoneId);
  }

  lemma {:induction false} LastOperatorFound(operators: seq<Operator>, id: string)
    requires exists op :: op in operators && op.id == id
    ensures LastOperator(operators, id).Some?
    ensures LastOperator(operators, id).value in operators && LastOperator(operators, id).value.id == id
  {
    var init, last := operators[..|operators| - 1], operators[|operators| - 1];
    if last.id != id {
      var op :| op in operators && op.id == id;
      assert op in init;
      LastOperatorFound(init, id);
    }
  }

  // The adapter endpoint finds every looked-up operator itself exactly when no two
  // different operators are configured under one id.
  lemma {:induction false} AdapterLookupAgrees(operators: seq<Operator>)
    ensures (forall op :: op in operators ==> LastOperator(operators, op.id) == Some(op))
            <==> (forall op, other :: op in operators && other in operators && op.id == other.id ==> op == other)
  {
    forall id: string | exists op :: op in operators && op.id == id
      ensures LastOperator(operators, id).Some?
      ensures LastOperator(operators, id).value in operators && LastOperator(operators, id).value.id == id
    {
      LastOperatorFound(operators, id);
    }
  }

  // -------- raising the threshold --------

  ghost predicate Subsequence<T>(a: seq<T>, b: seq<T>)
    decreases |b|
  {
    a == []
    || (b != [] && a[|a| - 1] == b[|b| - 1] && Subsequence(a[..|a| - 1], b[..|b| - 1]))
    || (b != [] && Subsequence(a, b[..|b| - 1]))
  }

  // What a subsequence is: its elements sit at increasing positions of the other list.
  lemma {:induction false} SubsequencePositions<T>(a: seq<T>, b: seq<T>) returns (at: seq<nat>)
    requires Subsequence(a, b)
    ensures |at| == |a| && forall i :: 0 <= i < |a| ==> at[i] < |b| && b[at[i]] == a[i]
    ensures forall i, j :: 0 <= i < j < |a| ==> at[i] < at[j]
    decreases |b|
  {
    if a == [] {
      at := [];
    } else if a[|a| - 1] == b[|b| - 1] && Subsequence(a[..|a| - 1], b[..|b| - 1]) {
      at := SubsequencePositions(a[..|a| - 1], b[..|b| - 1]);
      at := at + [|b| - 1];
    } else {
      at := SubsequencePositions(a, b[..|b| - 1]);
    }
  }

  lemma {:induction false} SubsequenceAppend<T>(a: seq<T>, b: seq<T>, c: seq<T>)
    requires Subsequence(a, b)
    ensures Subsequence(a + c, b + c) && Subsequence(a, b + c)
  {
    if c == [] {
      assert a + c == a && b + c == b;
    } else {
      var init := c[..|c| - 1];
      SubsequenceAppend(a, b, init);
      assert (a + c)[..|a + c| - 1] == a + init && (b + c)[..|b + c| - 1] == b + init;
    }
  }

  // Raising the threshold only adds operators, and keeps the order of the others.
  lemma {:induction false} ThresholdMonotone(earth: Earth, point: Coordinate, zones: seq<Zone>,
                                             operators: seq<Operator>, low: real, high: real)
    requires low <= high
    ensures Subsequence(Join(earth, point, zones, operators, low), Join(earth, point, zones, operators, high))
  {
    if zones == [] {
    } else {
      var init, last := zones[..|zones| - 1], zones[|zones| - 1];
      ThresholdMonotone(earth, point, init, operators, low, high);
      var a, b := Join(earth, point, init, operators, low), Join(earth, point, init, operators, high);
      assert Matches(earth, point, last, low) ==> Matches(earth, point, last, high);
      assert a + [] == a && b + [] == b;
      SubsequenceAppend(a, b, OfZone(operators, last.id));
    }
  }

  // -------- lookups by id --------

  // By id, the last configured entry answers.
  lemma {:induction false} LastOperatorIff(operators: seq<Operator>, id: string, op: Operator)
    ensures LastOperator(operators, id) == Some(op) <==>
            exists i :: 0 <= i < |operators| && operators[i] == op && op.id == id
                        && forall j :: i < j < |operators| ==> operators[j].id != id
  {
    if operators == [] {
    } else {
      var last := |operators| - 1;
      var init := operators[..last];
      LastOperatorIff(init, id, op);
      assert forall i :: 0 <= i < last ==> init[i] == operators[i];
    }
  }

  lemma {:induction false} LastZoneIff(zones: seq<Zone>, id: string, zone: Zone)
    ensures LastZone(zones, id) == Some(zone) <==>
            exists i :: 0 <= i < |zones| && zones[i] == zone && zone.id == id
                        && forall j :: i < j < |zones| ==> zones[j].id != id
  {
    if zones == [] {
    } else {
      var last := |zones| - 1;
      var init := zones[..last];
      LastZoneIff(init, id, zone);
      assert forall i :: 0 <= i < last ==> init[i] == zones[i];
    }
  }
}
