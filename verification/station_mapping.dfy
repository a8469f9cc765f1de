/** The station-name cache (lib/station-mapping.ts). The module-level
    variables `stationMappingCache` and `cacheTimestamp` become an explicit
    state; the clock reading and the outcome of the feed fetch are inputs. */
module StationMapping {
  import opened Common
  import opened Api

  /** How long a mapping is served from the cache: five minutes, in milliseconds. */
  const CacheDuration: int := 5 * 60 * 1000

  /** The cached id-to-name table, if any, and when it was stored. */
  datatype CacheState = CacheState(cache: Option<map<string, string>>, timestamp: int)

  /** The state when the module is loaded. */
  const Initial := CacheState(None, 0)

  /** Position of the last station with id `k`, or -1 when there is none. */
  function LastIndex(stations: seq<Station>, k: string): (r: int)
    ensures -1 <= r < |stations|
    ensures r >= 0 ==> stations[r].id == k && forall j :: r < j < |stations| ==> stations[j].id != k
    ensures r < 0 ==> forall j :: 0 <= j < |stations| ==> stations[j].id != k
  {
    if |stations| == 0 then -1
    else if stations[|stations| - 1].id == k then |stations| - 1
    else LastIndex(stations[..|stations| - 1], k)
  }

  /** `stations.forEach(s => mapping[s.id] = s.name)`: a later station with
      the same id overwrites an earlier one. */
  function BuildMapping(stations: seq<Station>): (m: map<string, string>)
    ensures forall k :: k in m <==> LastIndex(stations, k) >= 0
    ensures forall k :: k in m ==> m[k] == stations[LastIndex(stations, k)].name
  {
    if |stations| == 0 then map[]
    else
      var pre := stations[..|stations| - 1];
      var s := stations[|stations| - 1];
      var m0 := BuildMapping(pre);
      assert forall k :: k != s.id ==> LastIndex(stations, k) == LastIndex(pre, k);
      m0[s.id := s.name]
  }

  /** The cache check of `getStationMapping`. Any stored table is truthy,
      the empty one included. */
  predicate IsFresh(st: CacheState, now: int) {
    st.cache.Some? && now - st.timestamp < CacheDuration
  }

  /** `getStationMapping` at time `now`, where `fetched` is what
      `fetchStationStatus` delivers or the error it throws. Returns the
      mapping and the state after the call. */
  function GetMapping(st: CacheState, now: int, fetched: Result<seq<Station>, string>): (r: (map<string, string>, CacheState))
    ensures IsFresh(st, now) ==> r.0 == st.cache.value && r.1 == st
    ensures !IsFresh(st, now) && fetched.Success? ==>
      r.0 == BuildMapping(fetched.value) && r.1 == CacheState(Some(r.0), now)
    ensures !IsFresh(st, now) && fetched.Failure? ==> r.0 == map[] && r.1 == st
  {
    if IsFresh(st, now) then (st.cache.value, st)
    else
      match fetched
      case Success(stations) =>
        var m := BuildMapping(stations);
        (m, CacheState(Some(m), now))
      case Failure(_) => (map[], st)
  }

  /** A refresh is served from the cache for the following five minutes,
      whatever the feed would deliver then, and fetched again afterwards. */
  lemma RefreshThenHit(st: CacheState, now: int, fetched: Result<seq<Station>, string>, later: int, next: Result<seq<Station>, string>)
    requires !IsFresh(st, now) && fetched.Success?
    requires now <= later
    ensures var (m, st1) := GetMapping(st, now, fetched);
      (later < now + CacheDuration ==> GetMapping(st1, later, next) == (m, st1))
      && (later >= now + CacheDuration ==> !IsFresh(st1, later))
  {
  }

  /** An empty feed still installs a cache: the empty table is served for
      the next five minutes instead of a refetch. */
  lemma EmptyFeedIsCached(st: CacheState, now: int, later: int, next: Result<seq<Station>, string>)
    requires !IsFresh(st, now)
    requires now <= later < now + CacheDuration
    ensures GetMapping(st, now, Success([])).1 == CacheState(Some(map[]), now)
    ensures GetMapping(GetMapping(st, now, Success([])).1, later, next).0 == map[]
  {
    assert BuildMapping([]) == map[];
  }

  /** A failed fetch never installs a cache, so the next call fetches again. */
  lemma FailureKeepsMissing(now: int, error: string, later: int)
    ensures GetMapping(Initial, now, Failure(error)) == (map[], Initial)
    ensures !IsFresh(GetMapping(Initial, now, Failure(error)).1, later)
  {
  }

  /** `mapping[stationId] || stationId`: a missing or empty name falls back to the id. */
  function GetStationName(stationId: string, mapping: map<string, string>): (name: string)
    ensures stationId in mapping && mapping[stationId] != "" ==> name == mapping[stationId]
    ensures stationId !in mapping || mapping[stationId] == "" ==> name == stationId
    ensures name != "" || stationId == ""
  {
    if stationId in mapping && mapping[stationId] != "" then mapping[stationId] else stationId
  }

  /** Looking an id up in a freshly built mapping gives the name of the last
      station with that id, or the id itself when there is none or that
      name is empty; a failed refresh resolves every id to itself. */
  lemma NameFromFeed(stations: seq<Station>, id: string, i: nat)
    requires i < |stations| && stations[i].id == id
    requires forall j :: i < j < |stations| ==> stations[j].id != id
    ensures GetStationName(id, BuildMapping(stations)) == if stations[i].name != "" then stations[i].name else id
    ensures GetStationName(id, map[]) == id
  {
    assert LastIndex(stations, id) == i;
  }

  /** An id no station carries resolves to itself. */
  lemma UnknownIdIsItsOwnName(stations: seq<Station>, id: string)
    requires forall j :: 0 <= j < |stations| ==> stations[j].id != id
    ensures GetStationName(id, BuildMapping(stations)) == id
  {
  }
}
