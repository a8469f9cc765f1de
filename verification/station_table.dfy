/** The station list (components/station-table.tsx): the search over name
    and street, the colour of each availability figure, and the status badge. */
module StationTable {
  import opened Common
  import opened Text
  import opened Api

  /** The term occurs, ignoring case, in the station's name or street address. */
  predicate MatchesStation(s: Station, term: string) {
    Includes(ToLower(s.name), ToLower(term)) || Includes(ToLower(s.addressStreet), ToLower(term))
  }

  /** The search ignores the case of the term: lowercasing it first matches the same stations. */
  lemma StationSearchIgnoresTermCase(s: Station, term: string)
    ensures MatchesStation(s, ToLower(term)) <==> MatchesStation(s, term)
  {
    ToLowerIdempotent(term);
  }

  function StationSearch(term: string): Station -> bool {
    (s: Station) => MatchesStation(s, term)
  }

  /** `filteredStations`: the stations the search matches, in feed order.
      The filter always runs; the empty term matches every station. */
  function FilteredStations(stations: seq<Station>, term: string): (r: seq<Station>)
    ensures IsSubsequence(r, stations)
    ensures |r| <= |stations|
    ensures forall s :: s in r <==> s in stations && MatchesStation(s, term)
    ensures forall s :: s in stations && MatchesStation(s, term) ==> multiset(r)[s] == multiset(stations)[s]
    ensures term == "" ==> r == stations
  {
    EmptyTermKeepsAll(stations);
    Filter(stations, StationSearch(term))
  }

  lemma EmptyTermKeepsAll(stations: seq<Station>)
    ensures Filter(stations, StationSearch("")) == stations
  {
    forall i | 0 <= i < |stations| ensures MatchesStation(stations[i], "") {
      IncludesEmpty(ToLower(stations[i].name));
    }
    FilterAll(stations, StationSearch(""));
  }

  /** The three text colours of an availability figure. */
  datatype Availability = Green | Yellow | Red

  /** Worse colours rank lower. */
  function Rank(a: Availability): nat {
    match a
    case Red => 0
    case Yellow => 1
    case Green => 2
  }

  /** `getAvailabilityColor(available, total)`: the ratio against 0.5 and
      0.2, both strict. A zero total divides to Infinity when something is
      available (green) and to NaN otherwise, which fails both tests (red). */
  function AvailabilityColor(available: int, total: int): (c: Availability)
    ensures total > 0 ==> (c == Green <==> 2 * available > total)
    ensures total > 0 ==> (c == Yellow <==> 2 * available <= total && 5 * available > total)
    ensures total > 0 ==> (c == Red <==> 5 * available <= total)
    ensures total == 0 ==> (c == Green <==> available > 0)
    ensures total == 0 ==> (c == Red <==> available <= 0)
  {
    if total == 0 then (if available > 0 then Green else Red)
    else if total > 0 then
      RatioAbove(available, total, 1, 2);
      RatioAbove(available, total, 1, 5);
      ByRatio(available as real / total as real)
    else ByRatio(available as real / total as real)
  }

  function ByRatio(ratio: real): Availability {
    if ratio > 0.5 then Green
    else if ratio > 0.2 then Yellow
    else Red
  }

  /** With the total fixed and positive, more availability never gives a worse colour. */
  lemma AvailabilityMonotone(a1: int, a2: int, total: int)
    requires total > 0 && a1 <= a2
    ensures Rank(AvailabilityColor(a1, total)) <= Rank(AvailabilityColor(a2, total))
  {
  }

  /** The badge variants of `getStatusBadge`. */
  datatype BadgeVariant = Default | Secondary

  /** `getStatusBadge(status)`: the highlighted variant for exactly "Active". */
  function StatusBadge(status: string): (v: BadgeVariant)
    ensures v == Default <==> status == "Active"
  {
    if status == "Active" then Default else Secondary
  }

  predicate HasDefaultBadge(s: Station) {
    StatusBadge(s.kioskPublicStatus) == Default
  }

  /** The highlighted badges in the table are exactly the stations the
      system summary counts as active. */
  lemma DefaultBadgesAreActive(stations: seq<Station>)
    ensures Count(stations, HasDefaultBadge) == Summarize(stations).activeStations
  {
    CountExt(stations, HasDefaultBadge, IsActive);
  }
}
