/** Trip records as the CSV loader produces them (lib/trip-data.ts): the
    record type, the numeric-column coercion applied to each parsed cell,
    the month filter applied before aggregation, and the month choices
    offered to the user. */
module TripRecords {
  import opened Common
  import opened Text

  /** One bike trip, one CSV row. Numeric columns are exact reals. */
  datatype TripRecord = TripRecord(
    tripId: string,
    duration: real,
    startTime: string,
    endTime: string,
    startStation: string,
    startLat: real,
    startLon: real,
    endStation: string,
    endLat: real,
    endLon: real,
    bikeId: string,
    planDuration: real,
    tripRouteCategory: string,
    passholderType: string,
    bikeType: string)

  /** What the JavaScript runtime supplies for a timestamp string and for
      the haversine formula. None of these is computed by the model. */
  datatype Host = Host(
    // `new Date(t).toISOString().split("T")[0]`; None when the date is invalid and toISOString throws
    isoDate: string -> Option<string>,
    // `new Date(t).getHours()` in the local time zone
    localHour: string -> int,
    // `${d.getFullYear()}-${String(d.getMonth() + 1).padStart(2, "0")}` in the local time zone
    localMonth: string -> string,
    // great-circle distance in miles between (lat1, lon1) and (lat2, lon2)
    distance: (real, real, real, real) -> real)

  /** A cell after the parser's `transform` callback. */
  datatype Cell = Number(num: real) | Str(str: string)

  /** The columns the loader converts to numbers. */
  const NumericHeaders: seq<string> :=
    ["duration", "start_lat", "start_lon", "end_lat", "end_lon", "plan_duration"]

  /** The `transform` callback: a numeric column becomes `parseFloat(v) || 0`
      (`parseFloat` yields None for NaN), every other column is kept as text. */
  function TransformCell(value: string, header: string, parseFloat: string -> Option<real>): (c: Cell)
    ensures header in NumericHeaders <==> c.Number?
    ensures c.Str? ==> c.str == value
    ensures c.Number? && parseFloat(value).None? ==> c.num == 0.0
    ensures c.Number? && parseFloat(value).Some? ==> c.num == parseFloat(value).value
  {
    if header in NumericHeaders then
      Number(match parseFloat(value) case Some(x) => x case None => 0.0)
    else Str(value)
  }

  /** A whole parsed row: the same columns, each cell transformed. */
  function TransformRow(row: map<string, string>, parseFloat: string -> Option<real>): (cells: map<string, Cell>)
    ensures cells.Keys == row.Keys
    ensures forall h :: h in row && h !in NumericHeaders ==> cells[h] == Str(row[h])
    ensures forall h :: h in row && h in NumericHeaders && parseFloat(row[h]).Some? ==>
      cells[h] == Number(parseFloat(row[h]).value)
    ensures forall h :: h in row && h in NumericHeaders && parseFloat(row[h]).None? ==>
      cells[h] == Number(0.0)
  {
    map h | h in row :: TransformCell(row[h], h, parseFloat)
  }

  /** A filter value that keeps every trip: absent, empty (falsy) or "all". */
  predicate KeepsAllMonths(monthFilter: Option<string>) {
    monthFilter.None? || monthFilter.value == "" || monthFilter.value == "all"
  }

  /** The month filter of `loadTripData`. */
  function FilterByMonth(trips: seq<TripRecord>, monthFilter: Option<string>, host: Host): (r: seq<TripRecord>)
    ensures KeepsAllMonths(monthFilter) ==> r == trips
    ensures IsSubsequence(r, trips)
    ensures !KeepsAllMonths(monthFilter) ==>
      forall t :: t in r ==> host.localMonth(t.startTime) == monthFilter.value
    ensures !KeepsAllMonths(monthFilter) ==>
      forall t :: t in trips && host.localMonth(t.startTime) == monthFilter.value ==>
        multiset(r)[t] == multiset(trips)[t]
  {
    if KeepsAllMonths(monthFilter) then
      SubsequenceRefl(trips);
      trips
    else
      Filter(trips, (t: TripRecord) => host.localMonth(t.startTime) == monthFilter.value)
  }

  /** `String(m).padStart(2, "0")` for a month number. */
  function TwoDigits(m: nat): string {
    PadStart(NatToString(m), 2, '0')
  }

  /** The two characters of a month number: a leading zero below ten. */
  lemma TwoDigitsShape(m: nat)
    requires 1 <= m <= 12
    ensures m < 10 ==> TwoDigits(m) == ['0', DigitChar(m)]
    ensures m >= 10 ==> TwoDigits(m) == ['1', DigitChar(m - 10)]
  {
    if m >= 10 {
      assert m / 10 == 1 && m % 10 == m - 10;
      assert NatToString(m) == NatToString(1) + [DigitChar(m - 10)];
    } else {
      assert NatToString(m) == [DigitChar(m)];
    }
  }

  /** The filter key of month `m` of 2025. */
  function MonthKey(m: nat): string
    requires 1 <= m <= 12
  {
    "2025-" + TwoDigits(m)
  }

  /** A `YYYY-MM` token. */
  predicate IsMonthToken(s: string) {
    |s| == 7 && s[4] == '-' && forall i :: 0 <= i < 7 && i != 4 ==> IsDigit(s[i])
  }

  /** The month number a `YYYY-MM` token names. */
  function MonthOf(s: string): nat
    requires IsMonthToken(s)
  {
    DigitsValue(s[5..])
  }

  /** The key of month `m` is a well-formed token naming month `m` of 2025. */
  lemma MonthKeyShape(m: nat)
    requires 1 <= m <= 12
    ensures IsMonthToken(MonthKey(m)) && MonthKey(m)[..5] == "2025-" && MonthOf(MonthKey(m)) == m
  {
    TwoDigitsShape(m);
    var tens := if m < 10 then 0 else 1;
    var units := m - 10 * tens;
    var t := TwoDigits(m);
    assert t == [DigitChar(tens), DigitChar(units)];
    var k := MonthKey(m);
    assert k == "2025-" + t;
    assert k[5..] == t;
    TwoDigitsValue(tens, units);
  }

  /** Month keys sort in calendar order. */
  lemma MonthKeyOrder(i: nat, j: nat)
    requires 1 <= i < j <= 12
    ensures LexLess(MonthKey(i), MonthKey(j))
  {
    TwoDigitsShape(i);
    TwoDigitsShape(j);
    var a := TwoDigits(i);
    var b := TwoDigits(j);
    if i < 10 <= j {
      assert a[0] < b[0];
    } else {
      assert a[0] == b[0];
      assert a[1] < b[1];
      assert LexLess(a[1..], b[1..]);
    }
    LexLessCommonPrefix("2025-", a, b);
  }

  /** The filter keys of `getAvailableMonths`: "all", then the twelve months
      of 2025 in calendar order. */
  function AvailableMonths(): (r: seq<string>)
    ensures |r| == 13 && r[0] == "all"
    ensures forall i :: 1 <= i < 13 ==> IsMonthToken(r[i]) && r[i][..5] == "2025-" && MonthOf(r[i]) == i
    ensures forall i, j :: 1 <= i < j < 13 ==> LexLess(r[i], r[j])
  {
    var r := ["all"] + seq(12, i requires 0 <= i < 12 => MonthKey(i + 1));
    assert forall i :: 1 <= i < 13 ==> r[i] == MonthKey(i);
    assert forall i :: 1 <= i < 13 ==> IsMonthToken(r[i]) && r[i][..5] == "2025-" && MonthOf(r[i]) == i by {
      forall i | 1 <= i < 13 ensures IsMonthToken(r[i]) && r[i][..5] == "2025-" && MonthOf(r[i]) == i {
        MonthKeyShape(i);
      }
    }
    assert forall i, j :: 1 <= i < j < 13 ==> LexLess(r[i], r[j]) by {
      forall i, j | 1 <= i < j < 13 ensures LexLess(r[i], r[j]) {
        MonthKeyOrder(i, j);
      }
    }
    r
  }

  /** A shared prefix does not change the order. */
  lemma {:induction false} LexLessCommonPrefix(p: string, a: string, b: string)
    ensures LexLess(p + a, p + b) <==> LexLess(a, b)
  {
    if |p| > 0 {
      assert (p + a)[1..] == p[1..] + a;
      assert (p + b)[1..] == p[1..] + b;
      LexLessCommonPrefix(p[1..], a, b);
    } else {
      assert p + a == a && p + b == b;
    }
  }

  /** Choosing the first entry of the month list turns the filter off, and
      choosing any other entry keeps only the trips of that month. */
  lemma MonthChoices(trips: seq<TripRecord>, host: Host, i: nat)
    requires i < |AvailableMonths()|
    ensures i == 0 ==> FilterByMonth(trips, Some(AvailableMonths()[i]), host) == trips
    ensures i > 0 ==> forall t :: t in FilterByMonth(trips, Some(AvailableMonths()[i]), host) ==>
      host.localMonth(t.startTime) == MonthKey(i)
  {
  }
}
