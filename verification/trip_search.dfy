/** The trip search panel (components/trip-search.tsx): a free-text search
    over station ids and bike id, two exact-match selects, the reset button,
    and the list of passholder types offered in the select. */
module TripSearch {
  import opened Common
  import opened Text
  import opened TripRecords

  /** The panel's three inputs. */
  datatype FilterState = FilterState(searchTerm: string, bikeTypeFilter: string, passholderFilter: string)

  /** The select value that switches a filter off. */
  const All: string := "all"

  /** The term occurs, ignoring case, in the start station, end station or bike id. */
  predicate MatchesSearch(t: TripRecord, term: string) {
    var needle := ToLower(term);
    Includes(ToLower(t.startStation), needle)
    || Includes(ToLower(t.endStation), needle)
    || Includes(ToLower(t.bikeId), needle)
  }

  /** The search ignores the case of the term: lowercasing it first matches the same trips. */
  lemma SearchIgnoresTermCase(t: TripRecord, term: string)
    ensures MatchesSearch(t, ToLower(term)) <==> MatchesSearch(t, term)
  {
    ToLowerIdempotent(term);
  }

  function SearchFilter(term: string): TripRecord -> bool {
    (t: TripRecord) => MatchesSearch(t, term)
  }

  function BikeTypeFilter(bikeType: string): TripRecord -> bool {
    (t: TripRecord) => t.bikeType == bikeType
  }

  function PassholderFilter(passholder: string): TripRecord -> bool {
    (t: TripRecord) => t.passholderType == passholder
  }

  /** A trip passes every filter that is switched on. */
  predicate Keeps(st: FilterState, t: TripRecord) {
    && (st.searchTerm == "" || MatchesSearch(t, st.searchTerm))
    && (st.bikeTypeFilter == All || t.bikeType == st.bikeTypeFilter)
    && (st.passholderFilter == All || t.passholderType == st.passholderFilter)
  }

  function KeepsFilter(st: FilterState): TripRecord -> bool {
    (t: TripRecord) => Keeps(st, t)
  }

  /** `handleFilter`: the three filters applied one after the other, each
      only when switched on (a non-empty term, a select other than "all"). */
  function HandleFilter(trips: seq<TripRecord>, st: FilterState): (r: seq<TripRecord>)
    ensures IsSubsequence(r, trips)
    ensures forall t :: t in r ==> Keeps(st, t)
    ensures forall t :: t in trips && Keeps(st, t) ==> multiset(r)[t] == multiset(trips)[t]
    ensures st.searchTerm == "" && st.bikeTypeFilter == All && st.passholderFilter == All ==> r == trips
  {
    var bySearch := if st.searchTerm != "" then Filter(trips, SearchFilter(st.searchTerm)) else trips;
    var byBike := if st.bikeTypeFilter != All then Filter(bySearch, BikeTypeFilter(st.bikeTypeFilter)) else bySearch;
    var r := if st.passholderFilter != All then Filter(byBike, PassholderFilter(st.passholderFilter)) else byBike;
    HandleFilterIsOneFilter(trips, st);
    assert forall t :: KeepsFilter(st)(t) == Keeps(st, t);
    r
  }

  /** The chain of filters keeps exactly the trips passing all active
      filters, so the order in which they are applied does not matter. */
  lemma HandleFilterIsOneFilter(trips: seq<TripRecord>, st: FilterState)
    ensures var bySearch := if st.searchTerm != "" then Filter(trips, SearchFilter(st.searchTerm)) else trips;
      var byBike := if st.bikeTypeFilter != All then Filter(bySearch, BikeTypeFilter(st.bikeTypeFilter)) else bySearch;
      var r := if st.passholderFilter != All then Filter(byBike, PassholderFilter(st.passholderFilter)) else byBike;
      r == Filter(trips, KeepsFilter(st))
  {
    var s := SearchFilter(st.searchTerm);
    var b := BikeTypeFilter(st.bikeTypeFilter);
    var p := PassholderFilter(st.passholderFilter);
    var sOn: TripRecord -> bool := t => st.searchTerm == "" || s(t);
    var bOn: TripRecord -> bool := t => st.bikeTypeFilter == All || b(t);
    var pOn: TripRecord -> bool := t => st.passholderFilter == All || p(t);
    var sb: TripRecord -> bool := t => sOn(t) && bOn(t);
    var bySearch := Filter(trips, sOn);
    if st.searchTerm != "" {
      FilterExt(trips, s, sOn);
    } else {
      FilterAll(trips, sOn);
    }
    var byBike := Filter(bySearch, bOn);
    if st.bikeTypeFilter != All {
      FilterExt(bySearch, b, bOn);
    } else {
      FilterAll(bySearch, bOn);
    }
    FilterFilter(trips, sOn, bOn, sb);
    if st.passholderFilter != All {
      FilterExt(byBike, p, pOn);
    } else {
      FilterAll(byBike, pOn);
    }
    FilterFilter(trips, sb, pOn, KeepsFilter(st));
  }

  /** `handleReset`: the inputs go back to "", "all", "all" and the whole
      list is shown, which is what filtering with those inputs gives. */
  function HandleReset(trips: seq<TripRecord>): (r: (FilterState, seq<TripRecord>))
    ensures r.0.searchTerm == "" && r.0.bikeTypeFilter == All && r.0.passholderFilter == All
    ensures r.1 == trips
    ensures HandleFilter(trips, r.0) == r.1
  {
    (FilterState("", All, All), trips)
  }

  /** Position of the first occurrence of `x` in `s`. */
  function First<T(==)>(s: seq<T>, x: T): (i: nat)
    requires x in s
    ensures i < |s| && s[i] == x && x !in s[..i]
  {
    var pre := s[..|s| - 1];
    if x in pre then
      var i := First(pre, x);
      assert s[..i] == pre[..i];
      i
    else |s| - 1
  }

  /** `[...new Set(values)]`: each value once, in the order of first occurrence. */
  function Dedup(values: seq<string>): (r: seq<string>)
    ensures Distinct(r)
    ensures forall x :: x in r <==> x in values
    ensures forall i, j :: 0 <= i < j < |r| ==> First(values, r[i]) < First(values, r[j])
  {
    if |values| == 0 then []
    else
      var pre := values[..|values| - 1];
      var x := values[|values| - 1];
      var d := Dedup(pre);
      assert values == pre + [x];
      assert forall y :: y in pre ==> First(values, y) == First(pre, y);
      if x in d then d
      else
        assert First(values, x) == |pre|;
        d + [x]
  }

  /** The passholder types offered in the select. */
  function PassholderTypes(trips: seq<TripRecord>): (r: seq<string>)
    ensures Distinct(r)
    ensures forall p :: p in r <==> exists i :: 0 <= i < |trips| && trips[i].passholderType == p
  {
    var values := seq(|trips|, i requires 0 <= i < |trips| => trips[i].passholderType);
    var r := Dedup(values);
    assert forall p :: p in values <==> exists i :: 0 <= i < |trips| && trips[i].passholderType == p by {
      forall p ensures p in values <==> exists i :: 0 <= i < |trips| && trips[i].passholderType == p {
        if exists i :: 0 <= i < |trips| && trips[i].passholderType == p {
          var i :| 0 <= i < |trips| && trips[i].passholderType == p;
          assert values[i] == p;
        }
      }
    }
    r
  }
}
