/** Route aggregation of `calculateTripStats` (lib/trip-data.ts): trips
    with complete coordinates are grouped by route key, each group
    remembering the first trip's endpoints and counting its trips, and the
    groups are ranked by count and cut to the top fifty. */
module Routes {
  import opened Common
  import opened Text
  import opened Sorting
  import opened TripRecords

  /** One route of the table. */
  datatype RouteData = RouteData(
    startLat: real,
    startLon: real,
    endLat: real,
    endLon: real,
    count: nat,
    startStation: string,
    endStation: string)

  /** How many routes the statistics keep. */
  const TopRouteLimit: nat := 50

  /** `trip.start_lat && trip.start_lon && trip.end_lat && trip.end_lon`:
      zero is falsy, so every coordinate must be non-zero. */
  predicate HasCoordinates(t: TripRecord) {
    t.startLat != 0.0 && t.startLon != 0.0 && t.endLat != 0.0 && t.endLon != 0.0
  }

  /** The entry created for the first trip of a route. */
  function NewRoute(t: TripRecord): RouteData {
    RouteData(t.startLat, t.startLon, t.endLat, t.endLon, 1, t.startStation, t.endStation)
  }

  /** The key `calculateTripStats` builds: `${start_station}-${end_station}`. */
  function ConcatKey(startStation: string, endStation: string): string {
    startStation + "-" + endStation
  }

  /** The directed station pair itself. */
  function PairKey(startStation: string, endStation: string): (string, string) {
    (startStation, endStation)
  }

  function TripKey<K>(t: TripRecord, key: (string, string) -> K): K {
    key(t.startStation, t.endStation)
  }

  function RouteKey<K>(r: RouteData, key: (string, string) -> K): K {
    key(r.startStation, r.endStation)
  }

  /** The route key of every trip, in trip order. */
  function KeysOf<K>(trips: seq<TripRecord>, key: (string, string) -> K): (ks: seq<K>)
    ensures |ks| == |trips|
    ensures forall i :: 0 <= i < |trips| ==> ks[i] == TripKey(trips[i], key)
  {
    seq(|trips|, i requires 0 <= i < |trips| => TripKey(trips[i], key))
  }

  /** Position of the first occurrence of `k`. */
  ghost function FirstIndex<K>(s: seq<K>, k: K): (i: nat)
    requires k in s
    ensures i < |s| && s[i] == k
    ensures forall j :: 0 <= j < i ==> s[j] != k
  {
    if s[0] == k then 0 else 1 + FirstIndex(s[1..], k)
  }

  lemma FirstIndexAppend<K>(s: seq<K>, x: K, k: K)
    requires k in s + [x]
    ensures k in s ==> FirstIndex(s + [x], k) == FirstIndex(s, k)
    ensures k !in s ==> FirstIndex(s + [x], k) == |s|
  {
    var i := FirstIndex(s + [x], k);
    if k in s {
      var j := FirstIndex(s, k);
      assert (s + [x])[j] == k;
    }
  }

  /** Index of the entry with key `k`, or -1 (`routeMap[routeKey]`). */
  function Find<K(==)>(routes: seq<RouteData>, k: K, key: (string, string) -> K): (i: int)
    ensures -1 <= i < |routes|
    ensures i >= 0 ==> RouteKey(routes[i], key) == k
    ensures i < 0 ==> forall j :: 0 <= j < |routes| ==> RouteKey(routes[j], key) != k
  {
    if |routes| == 0 then -1
    else if RouteKey(routes[0], key) == k then 0
    else
      var j := Find(routes[1..], k, key);
      if j < 0 then -1 else j + 1
  }

  /** One step of the grouping loop. */
  function AddTrip<K(==)>(routes: seq<RouteData>, t: TripRecord, key: (string, string) -> K): seq<RouteData> {
    var i := Find(routes, TripKey(t, key), key);
    if i >= 0 then routes[i := routes[i].(count := routes[i].count + 1)]
    else routes + [NewRoute(t)]
  }

  /** The entry carries the endpoints and stations of trip `t`. */
  predicate FromTrip(r: RouteData, t: TripRecord) {
    r.startLat == t.startLat && r.startLon == t.startLon
    && r.endLat == t.endLat && r.endLon == t.endLon
    && r.startStation == t.startStation && r.endStation == t.endStation
  }

  /** No two entries share a key. */
  ghost predicate DistinctKeys<K>(routes: seq<RouteData>, key: (string, string) -> K) {
    forall i, j :: 0 <= i < j < |routes| ==> RouteKey(routes[i], key) != RouteKey(routes[j], key)
  }

  /** Every entry's key is the key of some trip. */
  ghost predicate KeysIn<K>(routes: seq<RouteData>, ks: seq<K>, key: (string, string) -> K) {
    forall i :: 0 <= i < |routes| ==> RouteKey(routes[i], key) in ks
  }

  /** Every trip's key has an entry. */
  ghost predicate Covers<K>(routes: seq<RouteData>, ks: seq<K>, key: (string, string) -> K) {
    forall j :: 0 <= j < |ks| ==> exists i :: 0 <= i < |routes| && RouteKey(routes[i], key) == ks[j]
  }

  /** Each entry counts the trips with its key. */
  ghost predicate CountsOf<K>(routes: seq<RouteData>, ks: seq<K>, key: (string, string) -> K) {
    forall i :: 0 <= i < |routes| ==> routes[i].count == multiset(ks)[RouteKey(routes[i], key)]
  }

  /** Each entry carries the endpoints of the first trip with its key. */
  ghost predicate FirstEndpoints<K>(routes: seq<RouteData>, trips: seq<TripRecord>, key: (string, string) -> K) {
    var ks := KeysOf(trips, key);
    forall i :: 0 <= i < |routes| && RouteKey(routes[i], key) in ks ==>
      FromTrip(routes[i], trips[FirstIndex(ks, RouteKey(routes[i], key))])
  }

  /** `routes` is the route table of `trips` under `key`: one entry per
      distinct key, counting the trips with that key, with the endpoints of
      the first such trip. */
  ghost predicate IsRouteTable<K>(routes: seq<RouteData>, trips: seq<TripRecord>, key: (string, string) -> K) {
    var ks := KeysOf(trips, key);
    && DistinctKeys(routes, key)
    && KeysIn(routes, ks, key)
    && Covers(routes, ks, key)
    && CountsOf(routes, ks, key)
    && FirstEndpoints(routes, trips, key)
  }

  /** Sum of the route counts. */
  function TotalCount(routes: seq<RouteData>): nat {
    if |routes| == 0 then 0 else routes[0].count + TotalCount(routes[1..])
  }

  lemma {:induction false} TotalCountIncrement(routes: seq<RouteData>, i: nat)
    requires i < |routes|
    ensures TotalCount(routes[i := routes[i].(count := routes[i].count + 1)]) == TotalCount(routes) + 1
  {
    if i > 0 {
      var r' := routes[i := routes[i].(count := routes[i].count + 1)];
      assert r'[1..] == routes[1..][i - 1 := routes[i].(count := routes[i].count + 1)];
      TotalCountIncrement(routes[1..], i - 1);
    }
  }

  lemma {:induction false} TotalCountAppend(routes: seq<RouteData>, r: RouteData)
    ensures TotalCount(routes + [r]) == TotalCount(routes) + r.count
  {
    if |routes| > 0 {
      assert (routes + [r])[1..] == routes[1..] + [r];
      TotalCountAppend(routes[1..], r);
    }
  }

  lemma KeysOfAppend<K>(trips: seq<TripRecord>, t: TripRecord, key: (string, string) -> K)
    ensures KeysOf(trips + [t], key) == KeysOf(trips, key) + [TripKey(t, key)]
  {
  }

  /** One grouping step keeps the table exact for one more trip. */
  lemma AddTripKeepsTable<K>(routes: seq<RouteData>, trips: seq<TripRecord>, t: TripRecord, key: (string, string) -> K)
    requires IsRouteTable(routes, trips, key)
    ensures IsRouteTable(AddTrip(routes, t, key), trips + [t], key)
    ensures TotalCount(AddTrip(routes, t, key)) == TotalCount(routes) + 1
  {
    var k := TripKey(t, key);
    KeysOfAppend(trips, t, key);
    var i := Find(routes, k, key);
    if i >= 0 {
      BumpKeepsTable(routes, trips, t, key, i);
    } else {
      AppendKeepsTable(routes, trips, t, key);
    }
  }

  /** The trip's key is already in the table: its entry is bumped. */
  lemma BumpKeepsTable<K>(routes: seq<RouteData>, trips: seq<TripRecord>, t: TripRecord, key: (string, string) -> K, i: nat)
    requires IsRouteTable(routes, trips, key)
    requires i < |routes| && RouteKey(routes[i], key) == TripKey(t, key)
    requires KeysOf(trips + [t], key) == KeysOf(trips, key) + [TripKey(t, key)]
    ensures var r := routes[i := routes[i].(count := routes[i].count + 1)];
      IsRouteTable(r, trips + [t], key) && TotalCount(r) == TotalCount(routes) + 1
  {
    var ks0 := KeysOf(trips, key);
    assert KeysOf(trips + [t], key) == ks0 + [RouteKey(routes[i], key)];
    TotalCountIncrement(routes, i);
    BumpDistinct(routes, key, i);
    BumpCounts(routes, ks0, key, i);
    BumpCovers(routes, ks0, key, i);
    BumpEndpoints(routes, trips, t, key, i);
  }

  /** The trip's key is new: an entry for it is appended. */
  lemma AppendKeepsTable<K>(routes: seq<RouteData>, trips: seq<TripRecord>, t: TripRecord, key: (string, string) -> K)
    requires IsRouteTable(routes, trips, key)
    requires forall j :: 0 <= j < |routes| ==> RouteKey(routes[j], key) != TripKey(t, key)
    requires KeysOf(trips + [t], key) == KeysOf(trips, key) + [TripKey(t, key)]
    ensures IsRouteTable(routes + [NewRoute(t)], trips + [t], key)
    ensures TotalCount(routes + [NewRoute(t)]) == TotalCount(routes) + 1
  {
    var ks0 := KeysOf(trips, key);
    TotalCountAppend(routes, NewRoute(t));
    AppendDistinct(routes, ks0, t, key);
    AppendCounts(routes, ks0, t, key);
    AppendCovers(routes, ks0, t, key);
    NewKeyUnseen(routes, ks0, key, TripKey(t, key));
    AppendEndpoints(routes, trips, t, key);
  }

  /** Bumping a count leaves the keys, hence their distinctness, as they were. */
  lemma BumpDistinct<K>(routes: seq<RouteData>, key: (string, string) -> K, i: nat)
    requires i < |routes| && DistinctKeys(routes, key)
    ensures DistinctKeys(routes[i := routes[i].(count := routes[i].count + 1)], key)
  {
    var r := routes[i := routes[i].(count := routes[i].count + 1)];
    assert forall a :: 0 <= a < |r| ==> RouteKey(r[a], key) == RouteKey(routes[a], key);
  }

  lemma BumpCounts<K>(routes: seq<RouteData>, ks: seq<K>, key: (string, string) -> K, i: nat)
    requires i < |routes|
    requires DistinctKeys(routes, key) && CountsOf(routes, ks, key)
    ensures CountsOf(routes[i := routes[i].(count := routes[i].count + 1)], ks + [RouteKey(routes[i], key)], key)
  {
    var k := RouteKey(routes[i], key);
    var r := routes[i := routes[i].(count := routes[i].count + 1)];
    assert multiset(ks + [k]) == multiset(ks) + multiset{k};
    forall a | 0 <= a < |r| ensures r[a].count == multiset(ks + [k])[RouteKey(r[a], key)] {
      if a != i {
        assert r[a] == routes[a];
        assert RouteKey(routes[a], key) != k;
      }
    }
  }

  lemma BumpCovers<K>(routes: seq<RouteData>, ks: seq<K>, key: (string, string) -> K, i: nat)
    requires i < |routes|
    requires Covers(routes, ks, key) && KeysIn(routes, ks, key)
    ensures var r := routes[i := routes[i].(count := routes[i].count + 1)];
      Covers(r, ks + [RouteKey(routes[i], key)], key) && KeysIn(r, ks + [RouteKey(routes[i], key)], key)
  {
    var k := RouteKey(routes[i], key);
    var r := routes[i := routes[i].(count := routes[i].count + 1)];
    var ks' := ks + [k];
    assert forall a :: 0 <= a < |r| ==> RouteKey(r[a], key) == RouteKey(routes[a], key);
    forall j | 0 <= j < |ks'| ensures exists a :: 0 <= a < |r| && RouteKey(r[a], key) == ks'[j] {
      if j < |ks| {
        assert ks'[j] == ks[j];
        var a :| 0 <= a < |routes| && RouteKey(routes[a], key) == ks[j];
        assert RouteKey(r[a], key) == ks'[j];
      } else {
        assert RouteKey(r[i], key) == ks'[j];
      }
    }
    forall a | 0 <= a < |r| ensures RouteKey(r[a], key) in ks' {
      assert RouteKey(routes[a], key) in ks;
    }
  }

  lemma BumpEndpoints<K>(routes: seq<RouteData>, trips: seq<TripRecord>, t: TripRecord, key: (string, string) -> K, i: nat)
    requires i < |routes| && RouteKey(routes[i], key) == TripKey(t, key)
    requires KeysIn(routes, KeysOf(trips, key), key) && FirstEndpoints(routes, trips, key)
    ensures FirstEndpoints(routes[i := routes[i].(count := routes[i].count + 1)], trips + [t], key)
  {
    var ks0 := KeysOf(trips, key);
    var k := TripKey(t, key);
    var ts := trips + [t];
    KeysOfAppend(trips, t, key);
    var ks := KeysOf(ts, key);
    var r := routes[i := routes[i].(count := routes[i].count + 1)];
    forall a | 0 <= a < |r| && RouteKey(r[a], key) in ks
      ensures FromTrip(r[a], ts[FirstIndex(ks, RouteKey(r[a], key))])
    {
      var ka := RouteKey(routes[a], key);
      assert RouteKey(r[a], key) == ka;
      assert ka in ks0;
      FirstIndexAppend(ks0, k, ka);
      assert ts[FirstIndex(ks0, ka)] == trips[FirstIndex(ks0, ka)];
    }
  }

  /** A key without an entry belongs to no trip seen so far. */
  lemma NewKeyUnseen<K>(routes: seq<RouteData>, ks: seq<K>, key: (string, string) -> K, k: K)
    requires Covers(routes, ks, key)
    requires forall a :: 0 <= a < |routes| ==> RouteKey(routes[a], key) != k
    ensures k !in ks
  {
    forall j | 0 <= j < |ks| ensures ks[j] != k {
      var kj := ks[j];
      var a :| 0 <= a < |routes| && RouteKey(routes[a], key) == kj;
    }
  }

  lemma AppendDistinct<K>(routes: seq<RouteData>, ks: seq<K>, t: TripRecord, key: (string, string) -> K)
    requires DistinctKeys(routes, key)
    requires forall a :: 0 <= a < |routes| ==> RouteKey(routes[a], key) != TripKey(t, key)
    ensures DistinctKeys(routes + [NewRoute(t)], key)
  {
    var r := routes + [NewRoute(t)];
    forall i, j | 0 <= i < j < |r| ensures RouteKey(r[i], key) != RouteKey(r[j], key) {
      assert r[i] == routes[i];
      if j == |routes| {
        assert RouteKey(r[j], key) == TripKey(t, key);
      } else {
        assert r[j] == routes[j];
      }
    }
  }

  lemma AppendCounts<K>(routes: seq<RouteData>, ks: seq<K>, t: TripRecord, key: (string, string) -> K)
    requires CountsOf(routes, ks, key) && Covers(routes, ks, key)
    requires forall a :: 0 <= a < |routes| ==> RouteKey(routes[a], key) != TripKey(t, key)
    ensures CountsOf(routes + [NewRoute(t)], ks + [TripKey(t, key)], key)
  {
    var k := TripKey(t, key);
    var r := routes + [NewRoute(t)];
    assert multiset(ks + [k]) == multiset(ks) + multiset{k};
    NewKeyUnseen(routes, ks, key, k);
    forall a | 0 <= a < |r| ensures r[a].count == multiset(ks + [k])[RouteKey(r[a], key)] {
      if a < |routes| {
        assert r[a] == routes[a];
      } else {
        assert RouteKey(r[a], key) == k;
      }
    }
  }

  lemma AppendCovers<K>(routes: seq<RouteData>, ks: seq<K>, t: TripRecord, key: (string, string) -> K)
    requires Covers(routes, ks, key) && KeysIn(routes, ks, key)
    ensures var r := routes + [NewRoute(t)];
      Covers(r, ks + [TripKey(t, key)], key) && KeysIn(r, ks + [TripKey(t, key)], key)
  {
    var r := routes + [NewRoute(t)];
    var ks' := ks + [TripKey(t, key)];
    forall j | 0 <= j < |ks'| ensures exists a :: 0 <= a < |r| && RouteKey(r[a], key) == ks'[j] {
      if j < |ks| {
        assert ks'[j] == ks[j];
        var a :| 0 <= a < |routes| && RouteKey(routes[a], key) == ks[j];
        assert r[a] == routes[a];
        assert 0 <= a < |r| && RouteKey(r[a], key) == ks'[j];
      } else {
        assert r[|routes|] == NewRoute(t);
        assert 0 <= |routes| < |r| && RouteKey(r[|routes|], key) == ks'[j];
      }
    }
    assert forall j :: 0 <= j < |ks'| ==> exists a :: 0 <= a < |r| && RouteKey(r[a], key) == ks'[j];
    assert Covers(r, ks', key);
    forall a | 0 <= a < |r| ensures RouteKey(r[a], key) in ks' {
      if a < |routes| {
        assert r[a] == routes[a];
        assert RouteKey(routes[a], key) in ks;
      } else {
        assert ks'[|ks|] == RouteKey(r[a], key);
      }
    }
  }

  lemma AppendEndpoints<K>(routes: seq<RouteData>, trips: seq<TripRecord>, t: TripRecord, key: (string, string) -> K)
    requires KeysIn(routes, KeysOf(trips, key), key) && FirstEndpoints(routes, trips, key)
    requires forall a :: 0 <= a < |routes| ==> RouteKey(routes[a], key) != TripKey(t, key)
    requires TripKey(t, key) !in KeysOf(trips, key)
    ensures FirstEndpoints(routes + [NewRoute(t)], trips + [t], key)
  {
    var ks0 := KeysOf(trips, key);
    var k := TripKey(t, key);
    var ts := trips + [t];
    KeysOfAppend(trips, t, key);
    var ks := KeysOf(ts, key);
    var r := routes + [NewRoute(t)];
    forall a | 0 <= a < |r| && RouteKey(r[a], key) in ks
      ensures FromTrip(r[a], ts[FirstIndex(ks, RouteKey(r[a], key))])
    {
      var ka := RouteKey(r[a], key);
      if a < |routes| {
        assert r[a] == routes[a];
        assert ka in ks0;
        FirstIndexAppend(ks0, k, ka);
        assert ts[FirstIndex(ks0, ka)] == trips[FirstIndex(ks0, ka)];
      } else {
        assert ka == k;
        FirstIndexAppend(ks0, k, k);
      }
    }
  }

  /** The grouping loop over trips that all have coordinates. */
  function GroupRoutes<K(==)>(trips: seq<TripRecord>, key: (string, string) -> K): (routes: seq<RouteData>)
    ensures IsRouteTable(routes, trips, key)
    ensures TotalCount(routes) == |trips|
  {
    if |trips| == 0 then []
    else
      var pre := trips[..|trips| - 1];
      var t := trips[|trips| - 1];
      assert trips == pre + [t];
      var routes := GroupRoutes(pre, key);
      AddTripKeepsTable(routes, pre, t, key);
      AddTrip(routes, t, key)
  }

  /** `Object.values(routeMap).sort((a, b) => b.count - a.count).slice(0, 50)`. */
  function PopularRoutes(table: seq<RouteData>): (r: seq<RouteData>)
    ensures |r| == if |table| < TopRouteLimit then |table| else TopRouteLimit
    ensures multiset(r) <= multiset(table)
    ensures forall i, j :: 0 <= i < j < |r| ==> r[i].count >= r[j].count
    ensures forall x, y :: x in multiset(table) - multiset(r) && y in r ==> x.count <= y.count
  {
    var sorted := SortBy(table, NegCount);
    TopOfSorted(sorted, TopRouteLimit);
    Take(sorted, TopRouteLimit)
  }

  /** A prefix of a sequence sorted by descending count holds the largest counts. */
  lemma TopOfSorted(sorted: seq<RouteData>, n: nat)
    requires SortedBy(sorted, NegCount)
    ensures var r := Take(sorted, n);
      && multiset(r) <= multiset(sorted)
      && (forall i, j :: 0 <= i < j < |r| ==> r[i].count >= r[j].count)
      && (forall x, y :: x in multiset(sorted) - multiset(r) && y in r ==> x.count <= y.count)
  {
    var r := Take(sorted, n);
    var rest := sorted[|r|..];
    assert sorted == r + rest;
    assert multiset(sorted) == multiset(r) + multiset(rest);
    assert multiset(sorted) - multiset(r) == multiset(rest);
    forall i, j | 0 <= i < j < |r| ensures r[i].count >= r[j].count {
      assert NegCount(sorted[i]) <= NegCount(sorted[j]);
    }
    SortedSplit(sorted, |r|);
  }

  /** Everything after position `m` counts no more than anything before it. */
  lemma SortedSplit(sorted: seq<RouteData>, m: nat)
    requires SortedBy(sorted, NegCount) && m <= |sorted|
    ensures forall x, y :: x in sorted[m..] && y in sorted[..m] ==> x.count <= y.count
  {
    forall x, y | x in sorted[m..] && y in sorted[..m] ensures x.count <= y.count {
      var j :| 0 <= j < |sorted[m..]| && sorted[m..][j] == x;
      var i :| 0 <= i < |sorted[..m]| && sorted[..m][i] == y;
      assert sorted[i] == y && sorted[m + j] == x;
      assert NegCount(sorted[i]) <= NegCount(sorted[m + j]);
    }
  }

  function NegCount(r: RouteData): real {
    -(r.count as real)
  }

  /** Without a '-' in the start ids, the text key identifies the pair. */
  lemma ConcatKeyInjective(a: string, b: string, c: string, d: string)
    requires '-' !in a && '-' !in c
    ensures ConcatKey(a, b) == ConcatKey(c, d) <==> a == c && b == d
  {
    var x := ConcatKey(a, b);
    var y := ConcatKey(c, d);
    assert x == a + ['-'] + b && y == c + ['-'] + d;
    IndexOfAfter(a, '-', b);
    IndexOfAfter(c, '-', d);
    if x == y {
      assert |a| == |c|;
      assert a == x[..|a|] && c == y[..|c|];
      assert b == x[|a| + 1..] && d == y[|c| + 1..];
    }
  }

  /** Station ids of a trip contain no '-'. */
  predicate DashFree(t: TripRecord) {
    '-' !in t.startStation && '-' !in t.endStation
  }

  lemma {:induction false} FindAgrees(routes: seq<RouteData>, t: TripRecord)
    requires DashFree(t)
    requires forall i :: 0 <= i < |routes| ==> '-' !in routes[i].startStation
    ensures Find(routes, TripKey(t, ConcatKey), ConcatKey) == Find(routes, TripKey(t, PairKey), PairKey)
  {
    if |routes| > 0 {
      ConcatKeyInjective(routes[0].startStation, routes[0].endStation, t.startStation, t.endStation);
      FindAgrees(routes[1..], t);
    }
  }

  /** A route table built from trips with dash-free start stations has dash-free start stations. */
  lemma TableStartsDashFree<K>(routes: seq<RouteData>, trips: seq<TripRecord>, key: (string, string) -> K)
    requires IsRouteTable(routes, trips, key)
    requires forall i :: 0 <= i < |trips| ==> DashFree(trips[i])
    ensures forall i :: 0 <= i < |routes| ==> '-' !in routes[i].startStation
  {
    var ks := KeysOf(trips, key);
    forall i | 0 <= i < |routes| ensures '-' !in routes[i].startStation {
      assert RouteKey(routes[i], key) in ks;
      var j := FirstIndex(ks, RouteKey(routes[i], key));
      assert FromTrip(routes[i], trips[j]);
      assert DashFree(trips[j]);
    }
  }

  /** The last step of the grouping loop. */
  lemma GroupRoutesLast<K>(trips: seq<TripRecord>, key: (string, string) -> K)
    requires |trips| > 0
    ensures GroupRoutes(trips, key) == AddTrip(GroupRoutes(trips[..|trips| - 1], key), trips[|trips| - 1], key)
  {
  }

  /** With dash-free ids both keys pick the same entry, so the step agrees. */
  lemma AddTripAgrees(routes: seq<RouteData>, t: TripRecord)
    requires DashFree(t)
    requires forall i :: 0 <= i < |routes| ==> '-' !in routes[i].startStation
    ensures AddTrip(routes, t, ConcatKey) == AddTrip(routes, t, PairKey)
  {
    FindAgrees(routes, t);
  }

  /** When no station id contains '-', grouping by the code's text key
      gives the same table as grouping by station pair. */
  lemma {:induction false} ConcatKeyGroupsByPair(trips: seq<TripRecord>)
    requires forall i :: 0 <= i < |trips| ==> DashFree(trips[i])
    ensures GroupRoutes(trips, ConcatKey) == GroupRoutes(trips, PairKey)
  {
    if |trips| > 0 {
      var pre := trips[..|trips| - 1];
      var t := trips[|trips| - 1];
      assert forall i :: 0 <= i < |pre| ==> DashFree(pre[i]);
      ConcatKeyGroupsByPair(pre);
      var routes := GroupRoutes(pre, PairKey);
      GroupRoutesLast(trips, ConcatKey);
      GroupRoutesLast(trips, PairKey);
      TableStartsDashFree(routes, pre, PairKey);
      AddTripAgrees(routes, t);
    }
  }

  /** A trip from "1-2" to "3" and a trip from "1" to "2-3". */
  const DashedStart := TripRecord("a", 1.0, "", "", "1-2", 1.0, 1.0, "3", 1.0, 1.0, "", 0.0, "", "", "")
  const DashedEnd := TripRecord("b", 1.0, "", "", "1", 1.0, 1.0, "2-3", 1.0, 1.0, "", 0.0, "", "", "")

  /** The two trips share the text key "1-2-3", so the code's table merges
      two different routes into one entry of count two. */
  lemma ConcatKeyCollision()
    ensures ConcatKey(DashedStart.startStation, DashedStart.endStation) == ConcatKey(DashedEnd.startStation, DashedEnd.endStation)
    ensures |GroupRoutes([DashedStart, DashedEnd], ConcatKey)| == 1
    ensures GroupRoutes([DashedStart, DashedEnd], ConcatKey)[0].count == 2
  {
    assert ConcatKey(DashedStart.startStation, DashedStart.endStation) == "1-2-3";
    assert ConcatKey(DashedEnd.startStation, DashedEnd.endStation) == "1-2-3";
    GroupRoutesLast([DashedStart, DashedEnd], ConcatKey);
    GroupRoutesLast([DashedStart], ConcatKey);
    assert [DashedStart, DashedEnd][..1] == [DashedStart];
    assert [DashedStart][..0] == [];
    var g1 := GroupRoutes([DashedStart], ConcatKey);
    assert g1 == [NewRoute(DashedStart)];
    assert Find(g1, TripKey(DashedEnd, ConcatKey), ConcatKey) == 0;
  }

  /** The pair key keeps the two trips apart. */
  lemma PairKeySeparates()
    ensures |GroupRoutes([DashedStart, DashedEnd], PairKey)| == 2
  {
    GroupRoutesLast([DashedStart, DashedEnd], PairKey);
    GroupRoutesLast([DashedStart], PairKey);
    assert [DashedStart, DashedEnd][..1] == [DashedStart];
    assert [DashedStart][..0] == [];
    var p1 := GroupRoutes([DashedStart], PairKey);
    assert p1 == [NewRoute(DashedStart)];
    assert Find(p1, TripKey(DashedEnd, PairKey), PairKey) == -1;
  }
}
