/** The live station feed (lib/api.ts): the projection of each GeoJSON
    feature to a `Station`, the fallback to an empty list when the fetch
    fails, and the system-wide summary folded from the stations. */
module Api {
  import opened Common
  import opened Text

  datatype BikeInfo = BikeInfo(dockNumber: int, isElectric: bool, isAvailable: bool, battery: Option<real>)

  /** The feature properties the projection reads. `bikes` may be missing. */
  datatype FeatureProperties = FeatureProperties(
    id: int,
    name: string,
    totalDocks: int,
    docksAvailable: int,
    bikesAvailable: int,
    classicBikesAvailable: int,
    smartBikesAvailable: int,
    electricBikesAvailable: int,
    kioskStatus: string,
    kioskPublicStatus: string,
    addressStreet: string,
    addressCity: string,
    addressState: string,
    addressZipCode: string,
    bikes: Option<seq<BikeInfo>>,
    latitude: real,
    longitude: real)

  datatype StationFeature = StationFeature(properties: FeatureProperties)

  datatype Station = Station(
    id: string,
    name: string,
    lat: real,
    lng: real,
    bikesAvailable: int,
    docksAvailable: int,
    totalDocks: int,
    classicBikesAvailable: int,
    electricBikesAvailable: int,
    smartBikesAvailable: int,
    kioskStatus: string,
    kioskPublicStatus: string,
    addressStreet: string,
    addressCity: string,
    addressState: string,
    addressZipCode: string,
    bikes: seq<BikeInfo>)

  datatype SystemStats = SystemStats(
    totalStations: int,
    totalBikes: int,
    totalDocks: int,
    availableBikes: int,
    availableDocks: int,
    classicBikes: int,
    electricBikes: int,
    smartBikes: int,
    activeStations: int)

  /** One feature as a `Station`: the id in decimal, the position from
      `latitude`/`longitude`, a missing bike list as the empty list. */
  function ToStation(f: StationFeature): (s: Station)
    ensures s.id == IntToString(f.properties.id)
    ensures s.lat == f.properties.latitude && s.lng == f.properties.longitude
    ensures f.properties.bikes.None? ==> s.bikes == []
    ensures f.properties.bikes.Some? ==> s.bikes == f.properties.bikes.value
    ensures s.bikesAvailable == f.properties.bikesAvailable && s.docksAvailable == f.properties.docksAvailable
    ensures s.totalDocks == f.properties.totalDocks
    ensures s.kioskPublicStatus == f.properties.kioskPublicStatus && s.kioskStatus == f.properties.kioskStatus
    ensures s.name == f.properties.name
    ensures s.classicBikesAvailable == f.properties.classicBikesAvailable
    ensures s.electricBikesAvailable == f.properties.electricBikesAvailable
    ensures s.smartBikesAvailable == f.properties.smartBikesAvailable
    ensures s.addressStreet == f.properties.addressStreet && s.addressCity == f.properties.addressCity
    ensures s.addressState == f.properties.addressState && s.addressZipCode == f.properties.addressZipCode
  {
    var p := f.properties;
    Station(
      IntToString(p.id), p.name, p.latitude, p.longitude,
      p.bikesAvailable, p.docksAvailable, p.totalDocks,
      p.classicBikesAvailable, p.electricBikesAvailable, p.smartBikesAvailable,
      p.kioskStatus, p.kioskPublicStatus,
      p.addressStreet, p.addressCity, p.addressState, p.addressZipCode,
      match p.bikes case Some(b) => b case None => [])
  }

  /** `data.features.map(...)`: one station per feature, in feed order. */
  function ProjectFeatures(features: seq<StationFeature>): (stations: seq<Station>)
    ensures |stations| == |features|
    ensures forall i :: 0 <= i < |features| ==> stations[i] == ToStation(features[i])
  {
    seq(|features|, i requires 0 <= i < |features| => ToStation(features[i]))
  }

  /** Features with different numeric ids become stations with different ids. */
  lemma ProjectionKeepsIdsApart(features: seq<StationFeature>, i: nat, j: nat)
    requires i < |features| && j < |features|
    requires features[i].properties.id != features[j].properties.id
    ensures ProjectFeatures(features)[i].id != ProjectFeatures(features)[j].id
  {
    if ProjectFeatures(features)[i].id == ProjectFeatures(features)[j].id {
      IntToStringInjective(features[i].properties.id, features[j].properties.id);
    }
  }

  /** `fetchStationStatus`: the outcome of the fetch is either the feed's
      features or an error (network, HTTP status, JSON), which becomes `[]`. */
  function FetchStationStatus(outcome: Result<seq<StationFeature>, string>): (stations: seq<Station>)
    ensures outcome.Failure? ==> stations == []
    ensures outcome.Success? ==> stations == ProjectFeatures(outcome.value)
  {
    match outcome
    case Success(features) => ProjectFeatures(features)
    case Failure(_) => []
  }

  const ZeroStats := SystemStats(0, 0, 0, 0, 0, 0, 0, 0, 0)

  /** The kiosk is public, by exact and case-sensitive comparison. */
  predicate IsActive(s: Station) {
    s.kioskPublicStatus == "Active"
  }

  /** One step of the `stations.reduce`. */
  function Step(acc: SystemStats, s: Station): SystemStats {
    SystemStats(
      acc.totalStations + 1,
      acc.totalBikes + s.bikesAvailable,
      acc.totalDocks + s.totalDocks,
      acc.availableBikes + s.bikesAvailable,
      acc.availableDocks + s.docksAvailable,
      acc.classicBikes + s.classicBikesAvailable,
      acc.electricBikes + s.electricBikesAvailable,
      acc.smartBikes + s.smartBikesAvailable,
      acc.activeStations + (if IsActive(s) then 1 else 0))
  }

  /** Fieldwise sum of two summaries. */
  function Add(a: SystemStats, b: SystemStats): SystemStats {
    SystemStats(
      a.totalStations + b.totalStations,
      a.totalBikes + b.totalBikes,
      a.totalDocks + b.totalDocks,
      a.availableBikes + b.availableBikes,
      a.availableDocks + b.availableDocks,
      a.classicBikes + b.classicBikes,
      a.electricBikes + b.electricBikes,
      a.smartBikes + b.smartBikes,
      a.activeStations + b.activeStations)
  }

  /** The left fold `reduce(Step, acc)`. */
  function Reduce(acc: SystemStats, stations: seq<Station>): SystemStats
    decreases |stations|
  {
    if |stations| == 0 then acc else Reduce(Step(acc, stations[0]), stations[1..])
  }

  function BikesOf(s: Station): int { s.bikesAvailable }
  function DocksOf(s: Station): int { s.totalDocks }
  function FreeDocksOf(s: Station): int { s.docksAvailable }
  function ClassicOf(s: Station): int { s.classicBikesAvailable }
  function ElectricOf(s: Station): int { s.electricBikesAvailable }
  function SmartOf(s: Station): int { s.smartBikesAvailable }

  /** Folding from `acc` adds the fold from zero to `acc`. */
  lemma {:induction false} ReduceFrom(acc: SystemStats, stations: seq<Station>)
    ensures Reduce(acc, stations) == Add(acc, Reduce(ZeroStats, stations))
    decreases |stations|
  {
    if |stations| > 0 {
      var s := stations[0];
      ReduceFrom(Step(acc, s), stations[1..]);
      ReduceFrom(Step(ZeroStats, s), stations[1..]);
    }
  }

  /** `fetchSystemStats`: the station count, the six sums of station fields,
      and the number of stations whose public status is exactly "Active". */
  function Summarize(stations: seq<Station>): (r: SystemStats)
    ensures r.totalStations == |stations|
    ensures r.totalBikes == SumBy(stations, BikesOf)
    ensures r.availableBikes == r.totalBikes
    ensures r.totalDocks == SumBy(stations, DocksOf)
    ensures r.availableDocks == SumBy(stations, FreeDocksOf)
    ensures r.classicBikes == SumBy(stations, ClassicOf)
    ensures r.electricBikes == SumBy(stations, ElectricOf)
    ensures r.smartBikes == SumBy(stations, SmartOf)
    ensures r.activeStations == Count(stations, IsActive)
    ensures 0 <= r.activeStations <= r.totalStations
  {
    SummarizeFields(stations);
    Reduce(ZeroStats, stations)
  }

  lemma {:induction false} SummarizeFields(stations: seq<Station>)
    ensures var r := Reduce(ZeroStats, stations);
      && r.totalStations == |stations|
      && r.totalBikes == SumBy(stations, BikesOf)
      && r.availableBikes == SumBy(stations, BikesOf)
      && r.totalDocks == SumBy(stations, DocksOf)
      && r.availableDocks == SumBy(stations, FreeDocksOf)
      && r.classicBikes == SumBy(stations, ClassicOf)
      && r.electricBikes == SumBy(stations, ElectricOf)
      && r.smartBikes == SumBy(stations, SmartOf)
      && r.activeStations == Count(stations, IsActive)
  {
    if |stations| > 0 {
      SummarizeFields(stations[1..]);
      ReduceFrom(Step(ZeroStats, stations[0]), stations[1..]);
    }
  }

  /** Summarising a concatenation adds the two summaries. */
  lemma SummarizeConcat(s: seq<Station>, t: seq<Station>)
    ensures Summarize(s + t) == Add(Summarize(s), Summarize(t))
  {
    var a, b, c := Summarize(s), Summarize(t), Summarize(s + t);
    SumByConcat(s, t, BikesOf);
    assert c.totalBikes == a.totalBikes + b.totalBikes;
    assert c.availableBikes == a.availableBikes + b.availableBikes;
    SumByConcat(s, t, DocksOf);
    assert c.totalDocks == a.totalDocks + b.totalDocks;
    SumByConcat(s, t, FreeDocksOf);
    assert c.availableDocks == a.availableDocks + b.availableDocks;
    SumByConcat(s, t, ClassicOf);
    assert c.classicBikes == a.classicBikes + b.classicBikes;
    SumByConcat(s, t, ElectricOf);
    assert c.electricBikes == a.electricBikes + b.electricBikes;
    SumByConcat(s, t, SmartOf);
    assert c.smartBikes == a.smartBikes + b.smartBikes;
    CountConcat(s, t, IsActive);
    assert c.activeStations == a.activeStations + b.activeStations;
    assert c.totalStations == a.totalStations + b.totalStations;
  }

  /** The summary does not depend on the order of the stations. */
  lemma {:induction false} SummarizePermutation(s: seq<Station>, t: seq<Station>)
    requires multiset(s) == multiset(t)
    ensures Summarize(s) == Summarize(t)
    decreases |s|
  {
    if |s| > 0 {
      var x := s[0];
      var i := RemoveFirst(s, t);
      SummarizePermutation(s[1..], t[..i] + t[i + 1..]);
      SummarizeConcat([x], s[1..]);
      assert [x] + s[1..] == s;
      SummarizeMiddle(t[..i], x, t[i + 1..]);
      assert t[..i] + [x] + t[i + 1..] == t;
    } else {
      assert t == [];
    }
  }

  /** The head of `s` occurs in its permutation `t`; without it the two stay permutations. */
  lemma RemoveFirst<T>(s: seq<T>, t: seq<T>) returns (i: nat)
    requires |s| > 0 && multiset(s) == multiset(t)
    ensures i < |t| && t[i] == s[0]
    ensures multiset(s[1..]) == multiset(t[..i] + t[i + 1..])
  {
    var x := s[0];
    assert x in multiset(t);
    i :| 0 <= i < |t| && t[i] == x;
    assert t == t[..i] + [x] + t[i + 1..];
    assert s == [x] + s[1..];
    assert multiset(s[1..]) == multiset(s) - multiset{x};
    assert multiset(t[..i] + t[i + 1..]) == multiset(t) - multiset{x};
  }

  /** A station in the middle contributes as if it came first. */
  lemma SummarizeMiddle(a: seq<Station>, x: Station, b: seq<Station>)
    ensures Summarize(a + [x] + b) == Add(Summarize([x]), Summarize(a + b))
  {
    SummarizeConcat(a, [x]);
    SummarizeConcat(a + [x], b);
    SummarizeConcat(a, b);
  }

  /** `fetchSystemStats` over the outcome of the feed fetch; a failed fetch
      summarises the empty list. */
  function FetchSystemStats(outcome: Result<seq<StationFeature>, string>): (r: SystemStats)
    ensures outcome.Failure? ==> r == ZeroStats
    ensures outcome.Success? ==> r.totalStations == |outcome.value|
    ensures outcome.Success? ==> r.totalBikes == SumBy(ProjectFeatures(outcome.value), BikesOf)
    ensures outcome.Success? ==> r.activeStations == Count(ProjectFeatures(outcome.value), IsActive)
    ensures outcome.Success? ==> r.availableBikes == r.totalBikes
    ensures outcome.Success? ==> r.totalDocks == SumBy(ProjectFeatures(outcome.value), DocksOf)
    ensures outcome.Success? ==> r.availableDocks == SumBy(ProjectFeatures(outcome.value), FreeDocksOf)
    ensures outcome.Success? ==> r.classicBikes == SumBy(ProjectFeatures(outcome.value), ClassicOf)
    ensures outcome.Success? ==> r.electricBikes == SumBy(ProjectFeatures(outcome.value), ElectricOf)
    ensures outcome.Success? ==> r.smartBikes == SumBy(ProjectFeatures(outcome.value), SmartOf)
    ensures outcome.Success? ==> r == Summarize(ProjectFeatures(outcome.value))
  {
    Summarize(FetchStationStatus(outcome))
  }
}
