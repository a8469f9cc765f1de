# Indego dashboard core, modelled in Dafny

The Indego dashboard shows Philadelphia's bike-share system: a live station
feed (bikes and docks per station, with a system summary) and a year of trip
records loaded from quarterly CSV files and aggregated into statistics.
This project models the data-handling core of the dashboard as pure
functions over immutable values and proves what the code promises:

- **Trip data** (`lib/trip-data.ts`): the numeric-column coercion applied
  to each parsed CSV cell, the month filter, the month choices offered to
  the user, and `calculateTripStats` — trip count, rounded average
  duration and distance, the most popular stations, bike-type and
  passholder breakdowns, the daily series, the hourly histogram and its
  peak, and the route table with its top fifty routes
  (modules `TripRecords`, `Tally`, `Routes`, `TripStats`).
- **Station feed** (`lib/api.ts`): the projection of the GeoJSON features
  into stations and the reduction into system statistics (`Api`).
- **Station names** (`lib/station-mapping.ts`): the five-minute cache of the
  id-to-name mapping and the name lookup with its fallback to the id
  (`StationMapping`).
- **Components**: the trip search panel (`TripSearch`), the station table's
  search, availability colours and status badge (`StationTable`), and the
  popular-routes table's search, sort and intensity colours
  (`RoutesTable`).
- **Trip-data endpoint** (`app/api/trips/data/route.ts`): stitching two CSV
  files into one (`CsvStitch`).

Shared pieces live in `Common` (options, results, filtering, counting,
sums, rounding), `Text` (lowercasing, substring search, splitting and
joining, decimal rendering, code-point order) and `Sorting` (an insertion
sort by a key).

What the JavaScript runtime computes and the model does not is passed in as
parameters: `Host.isoDate`, `Host.localHour` and `Host.localMonth` stand for
`Date` in the local time zone; `Host.distance` and `dist` stand for the
haversine formulas; `parseFloat` for the number parser; `collate` for the
`localeCompare` collation; `now` and the fetch outcome for `Date.now()` and
the network. Numbers are exact reals or integers; `Math.round(x)` is
`Floor(x + 0.5)`.

## Model

| member | source | states |
|---|---|---|
| TripRecords.TransformCell | lib/trip-data.ts:96-110 | A cell becomes a number exactly when its column is one of the six numeric headers; a number is the parsed value, or 0 when parsing gives NaN; any other column keeps its text unchanged |
| TripRecords.TransformRow | lib/trip-data.ts:93-110 | A parsed row keeps the same columns; text columns are unchanged; a numeric column holds the parsed number, or 0 when parsing gives NaN |
| TripRecords.FilterByMonth | lib/trip-data.ts:135-142 | An absent, empty or "all" filter keeps the list as is; otherwise exactly the trips whose local start month equals the filter are kept, each as often as before, in their original order |
| TripRecords.TwoDigitsShape | lib/trip-data.ts:160 | Padding a month number to two characters puts a leading zero before months one to nine and leaves ten to twelve as they are |
| TripRecords.MonthKeyShape | lib/trip-data.ts:160 | The key of month m is a well-formed YYYY-MM token of 2025 whose month digits read back as m |
| TripRecords.MonthKeyOrder | lib/trip-data.ts:158-160 | Keys of earlier months sort strictly before keys of later months |
| TripRecords.AvailableMonths | lib/trip-data.ts:153-169 | Thirteen choices: "all" first, then the twelve months of 2025 as tokens naming months one to twelve, in ascending order |
| TripRecords.MonthChoices | lib/trip-data.ts:136-168 | Choosing the first entry of the month list keeps every trip; choosing entry i keeps only trips that started in month i of 2025 |
| Tally.Tally | lib/trip-data.ts:237-239 | The counting table has exactly the keys seen, each mapped to its number of occurrences |
| Tally.TallySum | lib/trip-data.ts:249-250 | The counts of a counting table add up to the number of keys counted |
| Tally.MostFrequent | lib/trip-data.ts:264-267 | The most popular key is one that was seen and no key was seen more often; with nothing seen it is the empty string |
| Tally.SortedKeys | lib/trip-data.ts:277-279 | The keys of a table listed once each, strictly ascending, exactly the keys seen |
| Sorting.SortBy | lib/trip-data.ts:309-310 | Sorting by a key gives a permutation of the input in non-decreasing key order |
| TripStats.EmptyHistogram | lib/trip-data.ts:230-233 | Twenty-four buckets, bucket i labelled hour i with no trips |
| TripStats.BikeBreakdown | lib/trip-data.ts:241-246 | Electric counts exactly the trips labelled "electric", and standard and electric together count every trip |
| TripStats.HourBuckets | lib/trip-data.ts:256-260 | Bucket h counts the trips whose hour is h; together the buckets count the trips whose hour lies in 0..23 |
| TripStats.Histogram | lib/trip-data.ts:229-260 | The hourly histogram has one entry per hour, labelled with that hour and counting the trips that started in it |
| TripStats.HistogramCounts | lib/trip-data.ts:256-260 | The histogram counts at most every trip, and exactly every trip when all hours are in range |
| TripStats.PeakOf | lib/trip-data.ts:269-273 | The peak is a bucket with the largest count, and no earlier bucket reaches that count (ties go to the lowest hour) |
| TripStats.HourLabelInjective | lib/trip-data.ts:274 | Distinct peak hours give distinct "h:00-h+1:00" labels, and each label starts with its hour |
| TripStats.IsoDates | lib/trip-data.ts:253 | The date keys exist exactly when every start time is a valid date; then there is one key per trip, in trip order |
| TripStats.DailyTrips | lib/trip-data.ts:252-279 | The daily series lists each date seen exactly once, in ascending order, with its number of trips |
| TripStats.DailyTripsTotal | lib/trip-data.ts:252-279 | The daily counts add up to the number of trips |
| TripStats.DistanceFold | lib/trip-data.ts:198-214 | Counts the trips with all four coordinates non-zero and sums the distances of exactly those trips |
| TripStats.CalculateTripStats | lib/trip-data.ts:171-327 | An empty list gives zeroed statistics: zero trips, average duration, distance and trips with distance, empty station names, peak, tables and lists, and twenty-four empty hourly buckets; otherwise an invalid start time is an error and nothing else is; a valid list gives the aggregate the lemmas below describe |
| TripStats.AggregateTotals | lib/trip-data.ts:172-214 | The trip count is the list length; the average duration and total distance are within one half of the exact values; the trips-with-distance count is the number of trips with coordinates |
| TripStats.AggregateStations | lib/trip-data.ts:263-267 | The most popular start and end stations occur in the trips and no station occurs more often |
| TripStats.AggregateBreakdowns | lib/trip-data.ts:241-250 | The bike-type split covers every trip; the passholder table holds exactly the labels seen and its counts add up to the number of trips |
| TripStats.PassholderTable | lib/trip-data.ts:249-250 | The passholder counting table has exactly the labels seen and counts adding up to the number of trips |
| TripStats.AggregateDaily | lib/trip-data.ts:252-279 | The daily series of the statistics is ascending and duplicate-free, covers every date, counts each date's trips and adds up to the number of trips |
| TripStats.AggregateHourly | lib/trip-data.ts:229-274 | The hourly histogram counts each hour's trips, and the peak label names the lowest hour with the largest count |
| TripStats.AggregateRoutes | lib/trip-data.ts:281-311 | The route table is exact for the trips with coordinates and counts each of them once; the top list keeps exactly fifty routes, or all of them when there are fewer, busiest first, and no route left out is busier than one kept |
| TripStats.AggregateRoutesAsWritten | lib/trip-data.ts:284-311 | When no station id contains a dash, the top routes of the statistics are exactly those the code's "start-end" text key gives |
| TripStats.Flatten | lib/trip-data.ts:133 | The combined list is as long as the quarter lists together and holds exactly their trips |
| TripStats.FlattenAppend | lib/trip-data.ts:133 | Flattening one more quarter appends that quarter's trips, in order, after the earlier ones |
| TripStats.LoadTripData | lib/trip-data.ts:117-150 | Loading succeeds exactly when the statistics of the month-filtered trips can be computed, and then returns those trips and their statistics; without a filter the trips are all the quarters' trips |
| Routes.Find | lib/trip-data.ts:293 | The lookup finds an entry with the trip's key, or reports that no entry has it |
| Routes.GroupRoutes | lib/trip-data.ts:282-306 | One entry per distinct route key, counting the trips with that key and carrying the coordinates of the first such trip; the counts add up to the number of trips |
| Routes.AddTripKeepsTable | lib/trip-data.ts:293-305 | Counting one more trip, by bumping its entry or adding a new one, keeps the table exact for the longer trip list and raises the total by one |
| Routes.PopularRoutes | lib/trip-data.ts:308-311 | The top list has min(50, table size) entries taken from the table, busiest first, and no route left out has a larger count than any route kept |
| Routes.ConcatKeyInjective | lib/trip-data.ts:291 | The "start-end" key identifies the station pair whenever start ids contain no dash |
| Routes.ConcatKeyGroupsByPair | lib/trip-data.ts:282-306 | When no station id contains a dash, grouping by the "start-end" string gives the same table as grouping by the station pair |
| Routes.ConcatKeyCollision | lib/trip-data.ts:291 | A trip from "1-2" to "3" and a trip from "1" to "2-3" get the same key and are merged into one route counted twice |
| Routes.PairKeySeparates | lib/trip-data.ts:291 | Grouping by the station pair keeps those two trips as two routes |
| Api.ToStation | lib/api.ts:91-109 | A station carries the feature's id as text and copies its name, coordinates, availability, per-type bike counts, dock counts, both statuses and the four address fields; a missing bike list becomes empty |
| Api.ProjectFeatures | lib/api.ts:91-109 | One station per feature, in feed order |
| Api.ProjectionKeepsIdsApart | lib/api.ts:92 | Features with different numeric ids become stations with different text ids |
| Api.FetchStationStatus | lib/api.ts:82-114 | A failed fetch gives no stations; a successful one gives the projected features |
| Api.Summarize | lib/api.ts:132-152 | The system totals are the per-station sums of each counter, the station count is the number of stations, available bikes equal total bikes, and the active count is the number of stations whose status is exactly "Active" |
| Api.SummarizeConcat | lib/api.ts:132-152 | Summarising two station lists one after the other is the field-wise sum of their summaries |
| Api.SummarizePermutation | lib/api.ts:132-152 | The summary does not depend on the order of the stations |
| Api.FetchSystemStats | lib/api.ts:128-158 | A failed station fetch gives all-zero statistics; otherwise the statistics are the summary of the projected stations: one station per feature, each bike, dock and bike-type total summed over them, available bikes equal to total bikes, and the active ones counted |
| StationMapping.BuildMapping | lib/station-mapping.ts:21-25 | The mapping has exactly the ids in the feed, each mapped to the name of its last station with that id |
| StationMapping.GetMapping | lib/station-mapping.ts:11-37 | A cache younger than five minutes is returned unchanged; otherwise a successful fetch builds, stores and returns a fresh mapping stamped now, and a failure returns an empty mapping and leaves the cache alone |
| StationMapping.RefreshThenHit | lib/station-mapping.ts:15-28 | After a refresh, any call within five minutes returns the same mapping without fetching |
| StationMapping.EmptyFeedIsCached | lib/station-mapping.ts:15-28 | An empty feed is cached too, and later calls within five minutes get the empty mapping |
| StationMapping.FailureKeepsMissing | lib/station-mapping.ts:31-36 | A failure with nothing cached returns an empty mapping and the next call fetches again |
| StationMapping.GetStationName | lib/station-mapping.ts:39-44 | A known id with a non-empty name gives the name; an unknown id or an empty name gives the id itself |
| StationMapping.NameFromFeed | lib/station-mapping.ts:23-43 | With a mapping built from the feed, an id resolves to the name of its last station, or to itself when that name is empty; with no mapping every id resolves to itself |
| StationMapping.UnknownIdIsItsOwnName | lib/station-mapping.ts:43 | An id missing from the feed resolves to itself |
| Text.ToLowerIdempotent | components/trip-search.tsx:27-29 | Lowercasing leaves no capital letter behind, so lowercasing the term and the fields again changes nothing |
| TripSearch.SearchIgnoresTermCase | components/trip-search.tsx:27-29 | A trip matches a term exactly when it matches the lowercased term: the search ignores the case of what is typed |
| StationTable.StationSearchIgnoresTermCase | components/station-table.tsx:27-29 | A station matches a term exactly when it matches the lowercased term |
| RoutesTable.RouteSearchIgnoresTermCase | components/maps/routes-table.tsx:91-97 | A route matches a term exactly when it matches the lowercased term |
| TripSearch.HandleFilter | components/trip-search.tsx:21-44 | The shown trips are exactly those passing every active filter, each as often as before, in their original order; with every filter off the whole list is shown |
| TripSearch.HandleFilterIsOneFilter | components/trip-search.tsx:25-41 | The three filters applied one after the other keep the same trips as one filter testing all three conditions |
| TripSearch.HandleReset | components/trip-search.tsx:46-51 | Reset sets the inputs to "", "all" and "all" and shows the whole list, which is what filtering with those inputs shows |
| TripSearch.Dedup | components/trip-search.tsx:54 | Each value once, exactly the values present, in the order of their first occurrence |
| TripSearch.PassholderTypes | components/trip-search.tsx:54 | The passholder choices are duplicate-free and are exactly the passholder types of the trips |
| StationTable.FilteredStations | components/station-table.tsx:25-31 | The shown stations are those whose name or street contains the term ignoring case, each as often as in the feed, in feed order; the empty term shows every station |
| StationTable.AvailabilityColor | components/station-table.tsx:38-43 | For a positive total: green when more than half is available, yellow when more than a fifth but at most half, red otherwise; with a zero total green exactly when something is available and red otherwise (the NaN ratio of 0/0 fails both tests) |
| StationTable.AvailabilityMonotone | components/station-table.tsx:38-43 | For a fixed positive total, more availability never gives a worse colour |
| StationTable.StatusBadge | components/station-table.tsx:33-36 | The highlighted badge is used exactly for the status "Active" |
| StationTable.DefaultBadgesAreActive | components/station-table.tsx:33-36 | The stations with a highlighted badge are as many as the active stations of the system summary |
| RoutesTable.HandleSort | components/maps/routes-table.tsx:143-150 | Clicking the current column flips its direction; clicking another column selects it, sorted descending |
| RoutesTable.HandleSortTwice | components/maps/routes-table.tsx:143-150 | Two clicks on the current column restore the state; two clicks on another column leave it ascending |
| RoutesTable.Annotate | components/maps/routes-table.tsx:76-84 | Each route keeps its data and gains the distance between its endpoints |
| RoutesTable.SearchRoutes | components/maps/routes-table.tsx:86-100 | A non-empty term keeps exactly the routes whose ids or resolved names contain it ignoring case, in order; the empty term keeps all |
| RoutesTable.SortRoutes | components/maps/routes-table.tsx:102-138 | The sorted rows are a permutation of the input, non-decreasing in the chosen column when ascending and non-increasing when descending |
| RoutesTable.ProcessedRoutes | components/maps/routes-table.tsx:75-141 | The rows are exactly the annotated routes the search keeps, each as often as the search keeps it, ordered by the chosen column and direction; the empty term shows every route |
| RoutesTable.CountDescending | components/maps/routes-table.tsx:103-138 | Sorted by count descending, counts never increase down the table |
| RoutesTable.CountAscending | components/maps/routes-table.tsx:103-138 | Sorted by count ascending, counts never decrease down the table |
| RoutesTable.MaxCount | components/maps/routes-table.tsx:172 | The maximum is at least one, at least every route's count, and is attained by a route unless it is the floor of one |
| RoutesTable.IntensityColor | components/maps/routes-table.tsx:163-170 | For a positive maximum the colour is the band of count/maxCount at 0.8, 0.6, 0.4 and 0.2, inclusive; with a zero maximum red exactly for a positive count and grey otherwise |
| RoutesTable.IntensityMonotone | components/maps/routes-table.tsx:163-170 | For a fixed positive maximum, a larger count never gets a quieter colour |
| RoutesTable.BusiestIsRed | components/maps/routes-table.tsx:163-172 | The busiest route of the table is drawn red |
| CsvStitch.Combine | app/api/trips/data/route.ts:24-33 | The combined file's lines are the first file's lines followed by the second file's lines without its header; the first file is a prefix of the result and a header-only second file adds nothing |
| CsvStitch.StitchedLines | app/api/trips/data/route.ts:29-33 | Joining the stitched lines and splitting again gives back those lines, and the joined text is the first file, a newline, and the second file's data |
| CsvStitch.CombineLineBreaks | app/api/trips/data/route.ts:24-33 | The combined file has as many line breaks as the two files together |
| CsvStitch.SecondHeaderSkipped | app/api/trips/data/route.ts:32 | Right after the first file's lines comes the second file's first data line, not its header |

## Left out

- Fetching the CSV files and the station feed, HTTP responses and status
  codes, and the `try`/`catch` logging: fetch outcomes are parameters
  (`Result` values) or the trip lists after parsing.
- The CSV parser itself (quoting, `skipEmptyLines`, header handling): only
  its per-cell `transform` callback is modelled; `parseFloat` is a
  parameter.
- The haversine formulas in `lib/trip-data.ts` and the routes table, and all
  floating-point rounding: distances come from a parameter and arithmetic
  is exact.
- `Date` parsing, local time zones, `getHours`, `getMonth` and
  `toISOString`: they are the `Host` parameters.
- `localeCompare`: the daily series is ordered by code points, which agrees
  with locale order for same-shaped `YYYY-MM-DD` dates; the routes table
  compares station names through a collation key parameter.
- `toLowerCase` is modelled for ASCII letters only.
- `toLocaleDateString` month labels of the month choices: only the filter
  keys are modelled.
- React state, effects, memoisation, polling and rendering, including the
  displayed counts and badges' markup.
- TripStats.CalculateTripStats: the route table groups trips by the
  station pair rather than by the text `${start}-${end}`; the two differ
  only when a station id contains a dash (see Findings), and
  TripStats.AggregateRoutesAsWritten shows they agree otherwise.
- Tally.Tally: the tallies of `calculateTripStats` (start and end
  stations, passholder types, dates) are plain JavaScript objects; a value
  named like an `Object.prototype` member is not modelled: `__proto__` is
  never recorded, and `constructor` or `toString` start from a function
  and end up as a string rather than a count. The model treats every
  value as an ordinary key.
- Tally.MostFrequent: states maximality only and not which of several
  equally popular stations is returned, because `Object.entries` lists
  integer-like keys (station ids) in numeric order before other keys.
- Routes.PopularRoutes: does not state the order among routes with equal
  counts, which the stable sort takes from `Object.values` key order.
- Sorting.SortBy: stability is not stated.
- Api.FetchSystemStats: the `catch` that returns `null` is not modelled;
  `fetchStationStatus` already turns every fetch failure into an empty
  list, and the reduction over that list cannot throw.
- StationMapping.GetMapping: the failure branch is kept for completeness
  although `fetchStationStatus` catches its own errors and returns an
  empty list, which is then cached. Each call is modelled as one
  uninterrupted step: overlapping calls, which can both miss, both fetch
  across the `await` and store the cache in the order they finish (so a
  later writer may store an earlier `now`), are not modelled.
- StationMapping.GetStationName: JavaScript prototype keys such as
  `constructor` are not modelled; the mapping is a plain finite map.
- StationTable.AvailabilityColor and RoutesTable.IntensityColor: the
  double-precision ratio is exact here, so counts whose floating-point
  quotient lands just beside a threshold may differ; for a negative total
  the contracts say nothing.

## Findings

| source | as written | input that shows it | evidently intended | confidence | as-written member | corrected member |
|---|---|---|---|---|---|---|
| lib/trip-data.ts:291 | The route key is the start and end station ids joined by "-" | A trip from station "1-2" to "3" and a trip from "1" to "2-3" share the key "1-2-3" and are merged into one route with count 2 | One route per directed station pair | low (Indego ids are numeric, so no real id contains a dash); not executed | Routes.ConcatKeyCollision | Routes.PairKeySeparates |

The statistics use the station pair as the route key (`PairKey`);
`Routes.ConcatKeyGroupsByPair` shows that this gives the same table as the
code's string key whenever no station id contains a dash.
