/** The popular-routes table (components/maps/routes-table.tsx): each route
    gets its great-circle length, the search keeps routes whose station ids
    or resolved names contain the term, the rows are sorted by the chosen
    column and direction, and the bar of each row is coloured by its count
    relative to the largest count. */
module RoutesTable {
  import opened Common
  import opened Text
  import opened Sorting
  import opened Routes
  import opened StationMapping

  /** The sortable columns. */
  datatype SortField = ByCount | ByStartStation | ByEndStation | ByDistance

  datatype SortDirection = Asc | Desc

  /** The column and direction the table is sorted by. */
  datatype SortState = SortState(field: SortField, direction: SortDirection)

  /** The table opens sorted by count, largest first. */
  const InitialSort := SortState(ByCount, Desc)

  /** `handleSort(field)`: the current column flips its direction; another
      column becomes current, sorted descending. */
  function HandleSort(st: SortState, field: SortField): (r: SortState)
    ensures r.field == field
    ensures st.field == field ==> r.direction != st.direction
    ensures st.field != field ==> r.direction == Desc
  {
    if st.field == field then SortState(field, if st.direction == Asc then Desc else Asc)
    else SortState(field, Desc)
  }

  /** Clicking a column twice restores the state when it was already the
      current column, and leaves it sorted ascending otherwise. */
  lemma HandleSortTwice(st: SortState, field: SortField)
    ensures HandleSort(HandleSort(st, field), field) == if st.field == field then st else SortState(field, Asc)
  {
  }

  /** A route with the distance the table computes for it. */
  datatype ShownRoute = ShownRoute(route: RouteData, distance: real)

  /** `routes.map(route => ({...route, distance: calculateDistance(...)}))`,
      with the component's haversine formula as the parameter `dist`. */
  function Annotate(routes: seq<RouteData>, dist: (real, real, real, real) -> real): (r: seq<ShownRoute>)
    ensures |r| == |routes|
    ensures forall i :: 0 <= i < |routes| ==>
      r[i].route == routes[i] && r[i].distance == dist(routes[i].startLat, routes[i].startLon, routes[i].endLat, routes[i].endLon)
  {
    seq(|routes|, i requires 0 <= i < |routes| =>
      ShownRoute(routes[i], dist(routes[i].startLat, routes[i].startLon, routes[i].endLat, routes[i].endLon)))
  }

  /** The lowercased term occurs in the lowercased start or end id, or in
      the lowercased name the mapping resolves either id to. */
  predicate MatchesRoute(x: ShownRoute, term: string, mapping: map<string, string>) {
    var t := ToLower(term);
    || Includes(ToLower(x.route.startStation), t)
    || Includes(ToLower(x.route.endStation), t)
    || Includes(ToLower(GetStationName(x.route.startStation, mapping)), t)
    || Includes(ToLower(GetStationName(x.route.endStation, mapping)), t)
  }

  /** The search ignores the case of the term: lowercasing it first matches the same routes. */
  lemma RouteSearchIgnoresTermCase(x: ShownRoute, term: string, mapping: map<string, string>)
    ensures MatchesRoute(x, ToLower(term), mapping) <==> MatchesRoute(x, term, mapping)
  {
    ToLowerIdempotent(term);
  }

  function RouteSearch(term: string, mapping: map<string, string>): ShownRoute -> bool {
    (x: ShownRoute) => MatchesRoute(x, term, mapping)
  }

  /** The search step of `processedRoutes`: applied only to a non-empty term. */
  function SearchRoutes(shown: seq<ShownRoute>, term: string, mapping: map<string, string>): (r: seq<ShownRoute>)
    ensures IsSubsequence(r, shown)
    ensures forall x :: x in r <==> x in shown && (term == "" || MatchesRoute(x, term, mapping))
    ensures forall x :: x in shown && (term == "" || MatchesRoute(x, term, mapping)) ==> multiset(r)[x] == multiset(shown)[x]
    ensures term == "" ==> r == shown
  {
    SubsequenceRefl(shown);
    if term != "" then Filter(shown, RouteSearch(term, mapping)) else shown
  }

  /** The value the comparator compares for the chosen column. Station
      names are compared by `localeCompare`, which the model represents by
      the collation key `collate`: a name sorts before another when its key
      is smaller. */
  function SortKey(field: SortField, mapping: map<string, string>, collate: string -> real): ShownRoute -> real {
    (x: ShownRoute) =>
      match field
      case ByCount => x.route.count as real
      case ByStartStation => collate(GetStationName(x.route.startStation, mapping))
      case ByEndStation => collate(GetStationName(x.route.endStation, mapping))
      case ByDistance => x.distance
  }

  /** The key the descending comparator `value(b) - value(a)` sorts ascending by. */
  function Negated(key: ShownRoute -> real): ShownRoute -> real {
    (x: ShownRoute) => -key(x)
  }

  /** `filtered.sort(...)` for the chosen column and direction. */
  function SortRoutes(s: seq<ShownRoute>, st: SortState, mapping: map<string, string>, collate: string -> real): (r: seq<ShownRoute>)
    ensures |r| == |s| && multiset(r) == multiset(s)
    ensures st.direction == Asc ==> SortedBy(r, SortKey(st.field, mapping, collate))
    ensures st.direction == Desc ==> forall i, j :: 0 <= i < j < |r| ==>
      SortKey(st.field, mapping, collate)(r[i]) >= SortKey(st.field, mapping, collate)(r[j])
  {
    var key := SortKey(st.field, mapping, collate);
    if st.direction == Asc then SortBy(s, key)
    else
      var r := SortBy(s, Negated(key));
      assert forall i, j :: 0 <= i < j < |r| ==> Negated(key)(r[i]) <= Negated(key)(r[j]);
      r
  }

  /** `processedRoutes`: annotate, search, sort. */
  function ProcessedRoutes(
    routes: seq<RouteData>, term: string, st: SortState, mapping: map<string, string>,
    dist: (real, real, real, real) -> real, collate: string -> real): (r: seq<ShownRoute>)
    ensures |r| <= |routes|
    ensures term == "" ==> |r| == |routes|
    ensures multiset(r) == multiset(SearchRoutes(Annotate(routes, dist), term, mapping))
    ensures forall x :: x in r <==> x in Annotate(routes, dist) && (term == "" || MatchesRoute(x, term, mapping))
    ensures st.direction == Asc ==> SortedBy(r, SortKey(st.field, mapping, collate))
    ensures st.direction == Desc ==> forall i, j :: 0 <= i < j < |r| ==>
      SortKey(st.field, mapping, collate)(r[i]) >= SortKey(st.field, mapping, collate)(r[j])
  {
    var found := SearchRoutes(Annotate(routes, dist), term, mapping);
    var r := SortRoutes(found, st, mapping, collate);
    assert forall x :: x in r <==> x in found by {
      forall x ensures x in r <==> x in found {
        assert x in r <==> x in multiset(r);
      }
    }
    r
  }

  /** Sorted by count descending, the count never increases down the table. */
  lemma CountDescending(
    routes: seq<RouteData>, term: string, mapping: map<string, string>,
    dist: (real, real, real, real) -> real, collate: string -> real)
    ensures var r := ProcessedRoutes(routes, term, SortState(ByCount, Desc), mapping, dist, collate);
      forall i, j :: 0 <= i < j < |r| ==> r[i].route.count >= r[j].route.count
  {
    var r := ProcessedRoutes(routes, term, SortState(ByCount, Desc), mapping, dist, collate);
    var key := SortKey(ByCount, mapping, collate);
    forall i, j | 0 <= i < j < |r| ensures r[i].route.count >= r[j].route.count {
      assert key(r[i]) >= key(r[j]);
    }
  }

  /** Sorted by count ascending, the count never decreases down the table. */
  lemma CountAscending(
    routes: seq<RouteData>, term: string, mapping: map<string, string>,
    dist: (real, real, real, real) -> real, collate: string -> real)
    ensures var r := ProcessedRoutes(routes, term, SortState(ByCount, Asc), mapping, dist, collate);
      forall i, j :: 0 <= i < j < |r| ==> r[i].route.count <= r[j].route.count
  {
    var r := ProcessedRoutes(routes, term, SortState(ByCount, Asc), mapping, dist, collate);
    var key := SortKey(ByCount, mapping, collate);
    forall i, j | 0 <= i < j < |r| ensures r[i].route.count <= r[j].route.count {
      assert key(r[i]) <= key(r[j]);
    }
  }

  /** `Math.max(...routes.map(r => r.count), 1)`. */
  function MaxCount(routes: seq<RouteData>): (m: nat)
    ensures m >= 1
    ensures forall i :: 0 <= i < |routes| ==> routes[i].count <= m
    ensures m == 1 || exists i :: 0 <= i < |routes| && routes[i].count == m
  {
    if |routes| == 0 then 1
    else
      var rest := MaxCount(routes[1..]);
      assert forall i :: 1 <= i < |routes| ==> routes[i] == routes[1..][i - 1];
      if routes[0].count > rest then routes[0].count
      else
        assert rest != 1 ==> exists i :: 1 <= i < |routes| && routes[i].count == rest by {
          if rest != 1 {
            var k :| 0 <= k < |routes[1..]| && routes[1..][k].count == rest;
            assert routes[k + 1].count == rest;
          }
        }
        rest
  }

  /** The five bar colours, from the busiest band down. */
  datatype Intensity = Red | Orange | Yellow | Blue | Gray

  /** Quieter bands rank lower. */
  function Level(c: Intensity): nat {
    match c
    case Gray => 0
    case Blue => 1
    case Yellow => 2
    case Orange => 3
    case Red => 4
  }

  function Band(intensity: real): Intensity {
    if intensity >= 0.8 then Red
    else if intensity >= 0.6 then Orange
    else if intensity >= 0.4 then Yellow
    else if intensity >= 0.2 then Blue
    else Gray
  }

  /** `getIntensityColor(count, maxCount)`: `count / maxCount` against 0.8,
      0.6, 0.4 and 0.2. A zero `maxCount` divides to Infinity for a positive
      count (red) and to NaN or -Infinity otherwise (grey). For a positive
      `maxCount` the bands are the integer tests `5 * count >= k * maxCount`. */
  function IntensityColor(count: int, maxCount: int): (c: Intensity)
    ensures maxCount > 0 ==> (c == Red <==> 5 * count >= 4 * maxCount)
    ensures maxCount > 0 ==> (c == Orange <==> 4 * maxCount > 5 * count >= 3 * maxCount)
    ensures maxCount > 0 ==> (c == Yellow <==> 3 * maxCount > 5 * count >= 2 * maxCount)
    ensures maxCount > 0 ==> (c == Blue <==> 2 * maxCount > 5 * count >= maxCount)
    ensures maxCount > 0 ==> (c == Gray <==> maxCount > 5 * count)
    ensures maxCount == 0 ==> (c == Red <==> count > 0)
    ensures maxCount == 0 ==> (c == Gray <==> count <= 0)
  {
    if maxCount == 0 then (if count > 0 then Red else Gray)
    else if maxCount > 0 then
      RatioAtLeast(count, maxCount, 4, 5);
      RatioAtLeast(count, maxCount, 3, 5);
      RatioAtLeast(count, maxCount, 2, 5);
      RatioAtLeast(count, maxCount, 1, 5);
      Band(count as real / maxCount as real)
    else Band(count as real / maxCount as real)
  }

  /** For a fixed positive maximum, a larger count never gets a quieter colour. */
  lemma IntensityMonotone(c1: int, c2: int, maxCount: int)
    requires maxCount > 0 && c1 <= c2
    ensures Level(IntensityColor(c1, maxCount)) <= Level(IntensityColor(c2, maxCount))
  {
  }

  /** The busiest route of the table is drawn red, and no route's bar is
      computed against a zero maximum. */
  lemma BusiestIsRed(routes: seq<RouteData>, i: nat)
    requires i < |routes| && routes[i].count == MaxCount(routes)
    ensures IntensityColor(routes[i].count, MaxCount(routes)) == Red
  {
  }
}
