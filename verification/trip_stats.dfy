/** `calculateTripStats` and `loadTripData` (lib/trip-data.ts): one pass over
    the trips that fills frequency tables, a 24-bucket hourly histogram, a
    bike-type breakdown and a dated series, followed by the route ranking. */
module TripStats {
  import opened Common
  import opened Text
  import opened Tally
  import opened TripRecords
  import opened Routes

  datatype BikeTypeBreakdown = BikeTypeBreakdown(standard: nat, electric: nat)

  datatype DayCount = DayCount(date: string, trips: nat)

  datatype HourCount = HourCount(hour: nat, trips: nat)

  datatype TripStats = TripStats(
    totalTrips: nat,
    averageDuration: int,
    totalDistance: int,
    tripsWithDistance: nat,
    mostPopularStartStation: string,
    mostPopularEndStation: string,
    peakHour: string,
    bikeTypeBreakdown: BikeTypeBreakdown,
    passholderTypeBreakdown: map<string, nat>,
    dailyTrips: seq<DayCount>,
    hourlyDistribution: seq<HourCount>,
    popularRoutes: seq<RouteData>)

  /** Number of hourly buckets. */
  const HoursPerDay: nat := 24

  /** What `toISOString` throws on an invalid date. */
  const InvalidTimeValue: string := "Invalid time value"

  /** An hour that has a bucket (`hour >= 0 && hour < 24`). */
  predicate InDay(h: int) {
    0 <= h < HoursPerDay
  }

  /** The histogram with every bucket empty. */
  function EmptyHistogram(): (hs: seq<HourCount>)
    ensures |hs| == HoursPerDay
    ensures forall i :: 0 <= i < |hs| ==> hs[i] == HourCount(i, 0)
  {
    seq(HoursPerDay, i requires 0 <= i < HoursPerDay => HourCount(i, 0))
  }

  /** The statistics of an empty trip list. */
  function EmptyStats(): TripStats {
    TripStats(0, 0, 0, 0, "", "", "", BikeTypeBreakdown(0, 0), map[], [], EmptyHistogram(), [])
  }

  /** The column of one string field, in trip order. */
  function Column(trips: seq<TripRecord>, f: TripRecord -> string): (c: seq<string>)
    ensures |c| == |trips|
    ensures forall i :: 0 <= i < |trips| ==> c[i] == f(trips[i])
  {
    seq(|trips|, i requires 0 <= i < |trips| => f(trips[i]))
  }

  function StartStation(t: TripRecord): string { t.startStation }
  function EndStation(t: TripRecord): string { t.endStation }
  function Passholder(t: TripRecord): string { t.passholderType }

  /** Only the exact label "electric" counts as electric. */
  predicate IsElectric(t: TripRecord) {
    t.bikeType == "electric"
  }

  /** The bike-type counters, one increment per trip. */
  function BikeBreakdown(trips: seq<TripRecord>): (b: BikeTypeBreakdown)
    ensures b.electric == Count(trips, IsElectric)
    ensures b.standard + b.electric == |trips|
  {
    if |trips| == 0 then BikeTypeBreakdown(0, 0)
    else
      var rest := BikeBreakdown(trips[1..]);
      if IsElectric(trips[0]) then rest.(electric := rest.electric + 1)
      else rest.(standard := rest.standard + 1)
  }

  lemma {:induction false} SumZeros(n: nat)
    ensures Sum(seq(n, _ => 0)) == 0
  {
    if n > 0 {
      assert seq(n, _ => 0)[1..] == seq(n - 1, _ => 0);
      SumZeros(n - 1);
    }
  }

  /** The bucket counters: `hourlyDistribution[hour].trips++` for an hour
      in range, nothing otherwise. */
  function HourBuckets(hours: seq<int>): (b: seq<nat>)
    ensures |b| == HoursPerDay
    ensures forall h :: 0 <= h < HoursPerDay ==> b[h] == multiset(hours)[h]
    ensures Sum(b) == Count(hours, InDay)
  {
    if |hours| == 0 then
      SumZeros(HoursPerDay);
      seq(HoursPerDay, _ => 0)
    else
      var pre := hours[..|hours| - 1];
      var h := hours[|hours| - 1];
      assert hours == pre + [h];
      var b0 := HourBuckets(pre);
      CountConcat(pre, [h], InDay);
      if InDay(h) then
        SumIncrement(b0, h);
        b0[h := b0[h] + 1]
      else b0
  }

  /** The histogram as `{hour, trips}` records. */
  function Histogram(hours: seq<int>): (hs: seq<HourCount>)
    ensures |hs| == HoursPerDay
    ensures forall i :: 0 <= i < HoursPerDay ==> hs[i].hour == i && hs[i].trips == multiset(hours)[i]
  {
    var b := HourBuckets(hours);
    seq(HoursPerDay, i requires 0 <= i < HoursPerDay => HourCount(i, b[i]))
  }

  /** Sum of the bucket counts. */
  function HistogramTotal(hs: seq<HourCount>): nat {
    if |hs| == 0 then 0 else hs[0].trips + HistogramTotal(hs[1..])
  }

  lemma {:induction false} HistogramTotalIsSum(hs: seq<HourCount>, b: seq<nat>)
    requires |hs| == |b|
    requires forall i :: 0 <= i < |b| ==> hs[i].trips == b[i]
    ensures HistogramTotal(hs) == Sum(b)
  {
    if |hs| > 0 {
      HistogramTotalIsSum(hs[1..], b[1..]);
    }
  }

  /** The histogram counts exactly the trips whose hour lies in 0..23,
      so it never counts more trips than there are. */
  lemma HistogramCounts(hours: seq<int>)
    ensures HistogramTotal(Histogram(hours)) == Count(hours, InDay) <= |hours|
    ensures (forall i :: 0 <= i < |hours| ==> InDay(hours[i])) ==> HistogramTotal(Histogram(hours)) == |hours|
  {
    HistogramTotalIsSum(Histogram(hours), HourBuckets(hours));
    if forall i :: 0 <= i < |hours| ==> InDay(hours[i]) {
      CountAll(hours, InDay);
    }
  }


  /** `hourlyDistribution.reduce((max, cur) => cur.trips > max.trips ? cur : max, max)`. */
  function ScanPeak(hs: seq<HourCount>, max: HourCount): HourCount {
    if |hs| == 0 then max
    else ScanPeak(hs[1..], if hs[0].trips > max.trips then hs[0] else max)
  }

  /** A histogram whose entry `i` is the bucket of hour `i`. */
  ghost predicate HourIndexed(hs: seq<HourCount>) {
    forall i :: 0 <= i < |hs| ==> hs[i].hour == i
  }

  /** What the scan knows after the first `k` buckets: either nothing
      positive has been seen and the start value stands, or it holds the
      first bucket of maximal count among them. */
  ghost predicate PeakSoFar(hs: seq<HourCount>, k: nat, max: HourCount)
    requires k <= |hs|
  {
    || (max == HourCount(0, 0) && forall j :: 0 <= j < k ==> hs[j].trips == 0)
    || (max.hour < k && max == hs[max.hour]
        && (forall j :: 0 <= j < k ==> hs[j].trips <= max.trips)
        && (forall j :: 0 <= j < max.hour ==> hs[j].trips < max.trips))
  }

  lemma {:induction false} ScanPeakFrom(hs: seq<HourCount>, k: nat, max: HourCount)
    requires HourIndexed(hs) && k <= |hs|
    requires PeakSoFar(hs, k, max)
    ensures PeakSoFar(hs, |hs|, ScanPeak(hs[k..], max))
    decreases |hs| - k
  {
    if k < |hs| {
      assert hs[k..][1..] == hs[k + 1..];
      var next := if hs[k].trips > max.trips then hs[k] else max;
      assert PeakSoFar(hs, k + 1, next);
      ScanPeakFrom(hs, k + 1, next);
    } else {
      assert hs[k..] == [];
    }
  }

  /** The peak of a non-empty hour-indexed histogram is the lowest hour of
      maximal count (hour 0 when every bucket is empty). */
  function PeakOf(hs: seq<HourCount>): (p: HourCount)
    requires |hs| > 0 && HourIndexed(hs)
    ensures p.hour < |hs| && p == hs[p.hour]
    ensures forall j :: 0 <= j < |hs| ==> hs[j].trips <= p.trips
    ensures forall j :: 0 <= j < p.hour ==> hs[j].trips < p.trips
  {
    assert hs[0..] == hs;
    ScanPeakFrom(hs, 0, HourCount(0, 0));
    ScanPeak(hs, HourCount(0, 0))
  }

  /** `${h}:00-${h + 1}:00`. */
  function HourLabel(h: nat): string {
    NatToString(h) + ":00-" + NatToString(h + 1) + ":00"
  }

  /** The label is the hour's digits, a ':' and then the rest. */
  lemma HourLabelShape(h: nat)
    ensures HourLabel(h) == NatToString(h) + [':'] + ("00-" + NatToString(h + 1) + ":00")
    ensures ':' !in NatToString(h)
  {
    var sh := NatToString(h);
    var sn := NatToString(h + 1);
    assert ":00-" == [':'] + "00-";
    assert sh + ":00-" + sn + ":00" == sh + [':'] + ("00-" + sn + ":00");
    assert forall i :: 0 <= i < |sh| ==> IsDigit(sh[i]);
  }

  /** Distinct hours get distinct labels, and the label starts with the hour. */
  lemma HourLabelInjective(a: nat, b: nat)
    ensures HourLabel(a) == HourLabel(b) <==> a == b
    ensures IsPrefix(NatToString(a), HourLabel(a))
  {
    var sa := NatToString(a);
    var ra := "00-" + NatToString(a + 1) + ":00";
    HourLabelShape(a);
    HourLabelShape(b);
    assert (sa + [':'] + ra)[..|sa|] == sa;
    if HourLabel(a) == HourLabel(b) {
      SameBeforeSeparator(sa, ra, NatToString(b), "00-" + NatToString(b + 1) + ":00", ':');
      NatToStringInjective(a, b);
    }
  }

  /** Every trip's UTC date key, or None as soon as one date is invalid. */
  function IsoDates(trips: seq<TripRecord>, host: Host): (r: Option<seq<string>>)
    ensures r.None? <==> exists i :: 0 <= i < |trips| && host.isoDate(trips[i].startTime).None?
    ensures r.Some? ==> (|r.value| == |trips|
      && forall i :: 0 <= i < |trips| ==> host.isoDate(trips[i].startTime) == Some(r.value[i]))
  {
    if |trips| == 0 then Some([])
    else
      match host.isoDate(trips[0].startTime)
      case None => None
      case Some(d) =>
        var rest := IsoDates(trips[1..], host);
        if rest.None? then
          var i :| 0 <= i < |trips[1..]| && host.isoDate(trips[1..][i].startTime).None?;
          assert host.isoDate(trips[i + 1].startTime).None?;
          None
        else
          var ds := [d] + rest.value;
          assert forall i :: 1 <= i < |trips| ==> trips[i] == trips[1..][i - 1];
          Some(ds)
  }

  /** The daily series from a table of date counts, in the order of `ks`. */
  function DayCounts(ks: seq<string>, m: map<string, nat>): (days: seq<DayCount>)
    requires forall i :: 0 <= i < |ks| ==> ks[i] in m
    ensures |days| == |ks|
    ensures forall i :: 0 <= i < |ks| ==> days[i] == DayCount(ks[i], m[ks[i]])
  {
    seq(|ks|, i requires 0 <= i < |ks| => DayCount(ks[i], m[ks[i]]))
  }

  /** Sum of the day counts. */
  function DaysTotal(days: seq<DayCount>): nat {
    if |days| == 0 then 0 else days[0].trips + DaysTotal(days[1..])
  }

  lemma {:induction false} DaysTotalIsSumOver(ks: seq<string>, m: map<string, nat>)
    requires forall i :: 0 <= i < |ks| ==> ks[i] in m
    ensures DaysTotal(DayCounts(ks, m)) == SumOver(ks, m)
  {
    if |ks| > 0 {
      assert DayCounts(ks, m)[1..] == DayCounts(ks[1..], m);
      DaysTotalIsSumOver(ks[1..], m);
    }
  }

  /** `Object.entries(dailyTripsMap)` sorted by date. */
  function DailyTrips(dates: seq<string>): (days: seq<DayCount>)
    ensures forall i, j :: 0 <= i < j < |days| ==> LexLess(days[i].date, days[j].date)
    ensures forall d :: d in dates <==> exists i :: 0 <= i < |days| && days[i].date == d
    ensures forall i :: 0 <= i < |days| ==> days[i].trips == multiset(dates)[days[i].date]
  {
    var m := Tally.Tally(dates);
    var ks := SortedKeys(dates);
    DayCountsDates(ks, m);
    DayCounts(ks, m)
  }

  /** The series lists exactly the dates of `ks`. */
  lemma DayCountsDates(ks: seq<string>, m: map<string, nat>)
    requires forall i :: 0 <= i < |ks| ==> ks[i] in m
    ensures forall d :: d in ks <==> exists i :: 0 <= i < |ks| && DayCounts(ks, m)[i].date == d
  {
    var days := DayCounts(ks, m);
    forall d | d in ks ensures exists i :: 0 <= i < |ks| && days[i].date == d {
      var i :| 0 <= i < |ks| && ks[i] == d;
      assert days[i].date == d;
    }
  }

  /** The daily counts add up to the number of trips. */
  lemma DailyTripsTotal(dates: seq<string>)
    ensures DaysTotal(DailyTrips(dates)) == |dates|
  {
    var m := Tally.Tally(dates);
    var ks := SortedKeys(dates);
    DaysTotalIsSumOver(ks, m);
    AscendingDistinct(ks);
    SumOverAllKeys(ks, m);
    TallySum(dates);
  }

  /** The distance reduction: trips lacking a coordinate are skipped, the
      others counted and their distances summed. */
  function DistanceFold(trips: seq<TripRecord>, host: Host): (r: (nat, real))
    ensures r.0 == Count(trips, HasCoordinates)
    ensures r.1 == TotalDistance(Filter(trips, HasCoordinates), host)
  {
    if |trips| == 0 then (0, 0.0)
    else
      var rest := DistanceFold(trips[1..], host);
      if HasCoordinates(trips[0]) then (rest.0 + 1, TripDistance(trips[0], host) + rest.1)
      else rest
  }

  /** Great-circle length of a trip. */
  function TripDistance(t: TripRecord, host: Host): real {
    host.distance(t.startLat, t.startLon, t.endLat, t.endLon)
  }

  /** Sum of the trip lengths. */
  function TotalDistance(trips: seq<TripRecord>, host: Host): real {
    if |trips| == 0 then 0.0 else TripDistance(trips[0], host) + TotalDistance(trips[1..], host)
  }

  function Duration(t: TripRecord): real { t.duration }


  /** `new Date(trip.start_time).getHours()` for every trip. */
  function Hours(trips: seq<TripRecord>, host: Host): (hours: seq<int>)
    ensures |hours| == |trips|
    ensures forall i :: 0 <= i < |trips| ==> hours[i] == host.localHour(trips[i].startTime)
  {
    seq(|trips|, i requires 0 <= i < |trips| => host.localHour(trips[i].startTime))
  }

  /** The statistics of a non-empty trip list whose date keys are `dates`. */
  function Aggregate(trips: seq<TripRecord>, dates: seq<string>, host: Host): TripStats
    requires |trips| > 0
  {
    var histogram := Histogram(Hours(trips, host));
    var distance := DistanceFold(trips, host);
    TripStats(
      |trips|,
      Round(SumReal(trips, Duration) / |trips| as real),
      Round(distance.1),
      distance.0,
      MostFrequent(Column(trips, StartStation)),
      MostFrequent(Column(trips, EndStation)),
      HourLabel(PeakOf(histogram).hour),
      BikeBreakdown(trips),
      Tally.Tally(Column(trips, Passholder)),
      DailyTrips(dates),
      histogram,
      PopularRoutes(GroupRoutes(Filter(trips, HasCoordinates), PairKey)))
  }

  /** `calculateTripStats`: the empty list short-cuts to zeroed statistics;
      otherwise an invalid start time makes `toISOString` throw. */
  function CalculateTripStats(trips: seq<TripRecord>, host: Host): (r: Result<TripStats, string>)
    ensures r.Failure? <==> |trips| > 0 && exists i :: 0 <= i < |trips| && host.isoDate(trips[i].startTime).None?
    ensures r.Failure? ==> r.error == InvalidTimeValue
    ensures |trips| == 0 ==> (r.Success? && r.value.totalTrips == 0
      && r.value.averageDuration == 0 && r.value.totalDistance == 0 && r.value.tripsWithDistance == 0
      && r.value.mostPopularStartStation == "" && r.value.mostPopularEndStation == "" && r.value.peakHour == ""
      && r.value.dailyTrips == [] && r.value.popularRoutes == [] && r.value.passholderTypeBreakdown == map[]
      && r.value.bikeTypeBreakdown == BikeTypeBreakdown(0, 0)
      && |r.value.hourlyDistribution| == HoursPerDay
      && forall i :: 0 <= i < HoursPerDay ==> r.value.hourlyDistribution[i] == HourCount(i, 0))
    ensures r.Success? && |trips| > 0 ==> (IsoDates(trips, host).Some?
      && r.value == Aggregate(trips, IsoDates(trips, host).value, host))
  {
    if |trips| == 0 then Success(EmptyStats())
    else
      match IsoDates(trips, host)
      case None => Failure(InvalidTimeValue)
      case Some(dates) => Success(Aggregate(trips, dates, host))
  }

  /** Trip count, rounded mean duration, and the trips with coordinates
      together with their rounded total distance. */
  lemma AggregateTotals(trips: seq<TripRecord>, dates: seq<string>, host: Host)
    requires |trips| > 0
    ensures var s := Aggregate(trips, dates, host);
      && s.totalTrips == |trips|
      && s.averageDuration as real - 0.5 <= SumReal(trips, Duration) / |trips| as real < s.averageDuration as real + 0.5
      && s.tripsWithDistance == Count(trips, HasCoordinates)
      && s.totalDistance as real - 0.5 <= TotalDistance(Filter(trips, HasCoordinates), host) < s.totalDistance as real + 0.5
  {
  }

  /** The most popular start and end stations have maximal counts among the stations seen. */
  lemma AggregateStations(trips: seq<TripRecord>, dates: seq<string>, host: Host)
    requires |trips| > 0
    ensures var s := Aggregate(trips, dates, host);
      var starts := Column(trips, StartStation);
      var ends := Column(trips, EndStation);
      && s.mostPopularStartStation in starts
      && (forall k :: k in starts ==> multiset(starts)[k] <= multiset(starts)[s.mostPopularStartStation])
      && s.mostPopularEndStation in ends
      && (forall k :: k in ends ==> multiset(ends)[k] <= multiset(ends)[s.mostPopularEndStation])
  {
  }

  /** The bike-type split covers every trip, and the passholder table has
      exactly the labels seen, with counts adding up to the number of trips. */
  lemma AggregateBreakdowns(trips: seq<TripRecord>, dates: seq<string>, host: Host)
    requires |trips| > 0
    ensures var s := Aggregate(trips, dates, host);
      && s.bikeTypeBreakdown.electric == Count(trips, IsElectric)
      && s.bikeTypeBreakdown.standard + s.bikeTypeBreakdown.electric == |trips|
      && MapSum(s.passholderTypeBreakdown) == |trips|
      && (forall p :: p in s.passholderTypeBreakdown <==> exists i :: 0 <= i < |trips| && trips[i].passholderType == p)
  {
    PassholderTable(trips);
  }

  /** The passholder table has exactly the labels seen, with counts adding up to the number of trips. */
  lemma PassholderTable(trips: seq<TripRecord>)
    ensures var m := Tally.Tally(Column(trips, Passholder));
      && MapSum(m) == |trips|
      && (forall p :: p in m <==> exists i :: 0 <= i < |trips| && trips[i].passholderType == p)
  {
    var labels := Column(trips, Passholder);
    var m := Tally.Tally(labels);
    TallySum(labels);
    forall p ensures p in m <==> exists i :: 0 <= i < |trips| && trips[i].passholderType == p {
      if p in labels {
        var i :| 0 <= i < |labels| && labels[i] == p;
        assert trips[i].passholderType == p;
      }
      if exists i :: 0 <= i < |trips| && trips[i].passholderType == p {
        var i :| 0 <= i < |trips| && trips[i].passholderType == p;
        assert labels[i] == p;
      }
    }
  }

  /** The daily series lists every date once, in ascending order, with its
      number of trips, and the counts add up to the number of trips. */
  lemma AggregateDaily(trips: seq<TripRecord>, dates: seq<string>, host: Host)
    requires |trips| > 0
    ensures var days := Aggregate(trips, dates, host).dailyTrips;
      && (forall i, j :: 0 <= i < j < |days| ==> LexLess(days[i].date, days[j].date))
      && (forall d :: d in dates <==> exists i :: 0 <= i < |days| && days[i].date == d)
      && (forall i :: 0 <= i < |days| ==> days[i].trips == multiset(dates)[days[i].date])
      && DaysTotal(days) == |dates|
  {
    DailyTripsTotal(dates);
  }

  /** Twenty-four buckets indexed by hour, counting the trips whose hour is
      in range, and a peak label naming the lowest busiest hour. */
  lemma AggregateHourly(trips: seq<TripRecord>, dates: seq<string>, host: Host)
    requires |trips| > 0
    ensures var s := Aggregate(trips, dates, host);
      HourlyFacts(Hours(trips, host), s.hourlyDistribution, s.peakHour)
  {
    HourlyFactsHold(Hours(trips, host));
  }

  /** The hourly part of the statistics of trips whose hours are `hours`. */
  ghost predicate HourlyFacts(hours: seq<int>, hs: seq<HourCount>, peakHour: string) {
    && |hs| == HoursPerDay
    && (forall i :: 0 <= i < HoursPerDay ==> hs[i].hour == i && hs[i].trips == multiset(hours)[i])
    && HistogramTotal(hs) <= |hours|
    && ((forall i :: 0 <= i < |hours| ==> InDay(hours[i])) ==> HistogramTotal(hs) == |hours|)
    && (exists h :: (0 <= h < HoursPerDay && peakHour == HourLabel(h)
        && (forall j :: 0 <= j < HoursPerDay ==> hs[j].trips <= hs[h].trips)
        && (forall j :: 0 <= j < h ==> hs[j].trips < hs[h].trips)))
  }

  lemma HourlyFactsHold(hours: seq<int>)
    ensures var hs := Histogram(hours);
      HourlyFacts(hours, hs, HourLabel(PeakOf(hs).hour))
  {
    var hs := Histogram(hours);
    HistogramCounts(hours);
    var p := PeakOf(hs);
    assert hs[p.hour] == p;
  }

  /** The route table is exact for the trips with coordinates and counts each
      of them once; the ranking keeps at most fifty of its routes, busiest
      first, and no route left out is busier than one kept. */
  lemma AggregateRoutes(trips: seq<TripRecord>, dates: seq<string>, host: Host)
    requires |trips| > 0
    ensures RouteFacts(trips, Aggregate(trips, dates, host).popularRoutes)
  {
    RouteFactsHold(trips);
  }

  /** The route part of the statistics of `trips`. */
  ghost predicate RouteFacts(trips: seq<TripRecord>, top: seq<RouteData>) {
    var table := GroupRoutes(Filter(trips, HasCoordinates), PairKey);
    && IsRouteTable(table, Filter(trips, HasCoordinates), PairKey)
    && TotalCount(table) == Count(trips, HasCoordinates)
    && |top| == (if |table| < TopRouteLimit then |table| else TopRouteLimit)
    && multiset(top) <= multiset(table)
    && (forall i, j :: 0 <= i < j < |top| ==> top[i].count >= top[j].count)
    && (forall x, y :: x in multiset(table) - multiset(top) && y in top ==> x.count <= y.count)
  }

  lemma RouteFactsHold(trips: seq<TripRecord>)
    ensures RouteFacts(trips, PopularRoutes(GroupRoutes(Filter(trips, HasCoordinates), PairKey)))
  {
    FilterCount(trips, HasCoordinates);
  }

  /** When no station id contains a dash, the top routes are those the
      `${start}-${end}` key of `calculateTripStats` gives. */
  lemma AggregateRoutesAsWritten(trips: seq<TripRecord>, dates: seq<string>, host: Host)
    requires |trips| > 0
    requires forall i :: 0 <= i < |trips| ==> DashFree(trips[i])
    ensures Aggregate(trips, dates, host).popularRoutes
      == PopularRoutes(GroupRoutes(Filter(trips, HasCoordinates), ConcatKey))
  {
    var f := Filter(trips, HasCoordinates);
    forall i | 0 <= i < |f| ensures DashFree(f[i]) {
      assert f[i] in trips;
    }
    ConcatKeyGroupsByPair(f);
  }

  /** The length of each quarter's list. */
  function Sizes(quarters: seq<seq<TripRecord>>): (n: seq<nat>)
    ensures |n| == |quarters|
    ensures forall q :: 0 <= q < |quarters| ==> n[q] == |quarters[q]|
  {
    seq(|quarters|, q requires 0 <= q < |quarters| => |quarters[q]|)
  }

  /** `parsedArrays.flat()`: every trip of every quarter, as many times as
      it occurs there. */
  function Flatten(quarters: seq<seq<TripRecord>>): (trips: seq<TripRecord>)
    ensures |trips| == Sum(Sizes(quarters))
    ensures forall q, t :: 0 <= q < |quarters| && t in quarters[q] ==> t in trips
    ensures forall t :: t in trips ==> exists q :: 0 <= q < |quarters| && t in quarters[q]
  {
    if |quarters| == 0 then []
    else
      var rest := Flatten(quarters[1..]);
      assert forall q :: 1 <= q < |quarters| ==> quarters[q] == quarters[1..][q - 1];
      assert Sizes(quarters)[1..] == Sizes(quarters[1..]);
      quarters[0] + rest
  }

  /** Adding a quarter appends its trips, in order, after the earlier ones. */
  lemma {:induction false} FlattenAppend(quarters: seq<seq<TripRecord>>, q: seq<TripRecord>)
    ensures Flatten(quarters + [q]) == Flatten(quarters) + q
  {
    if |quarters| == 0 {
      assert quarters + [q] == [q];
      assert [q][1..] == [];
    } else {
      assert (quarters + [q])[1..] == quarters[1..] + [q];
      FlattenAppend(quarters[1..], q);
    }
  }

  /** `loadTripData` after the four quarter files have been fetched and
      parsed: the trips are concatenated, filtered by month and summarised. */
  function LoadTripData(quarters: seq<seq<TripRecord>>, monthFilter: Option<string>, host: Host): (r: Result<(seq<TripRecord>, TripStats), string>)
    ensures var trips := FilterByMonth(Flatten(quarters), monthFilter, host);
      && (r.Success? <==> CalculateTripStats(trips, host).Success?)
      && (r.Success? ==> r.value.0 == trips && r.value.1 == CalculateTripStats(trips, host).value)
    ensures KeepsAllMonths(monthFilter) && r.Success? ==> r.value.0 == Flatten(quarters)
  {
    var trips := FilterByMonth(Flatten(quarters), monthFilter, host);
    match CalculateTripStats(trips, host)
    case Failure(e) => Failure(e)
    case Success(stats) => Success((trips, stats))
  }
}
