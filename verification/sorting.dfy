/** `Array.prototype.sort` with a numeric comparator `(a, b) => key(a) - key(b)`.
    The engine's sort is stable, which insertion sort reproduces; a descending
    comparator `key(b) - key(a)` is the ascending sort on the negated key. */
module Sorting {

  /** Ascending by `key` (non-decreasing). */
  ghost predicate SortedBy<T>(s: seq<T>, key: T -> real) {
    forall i, j :: 0 <= i < j < |s| ==> key(s[i]) <= key(s[j])
  }

  /** A sorted sequence stays sorted under a head no larger than any element. */
  lemma SortedCons<T>(a: T, s: seq<T>, key: T -> real)
    requires SortedBy(s, key)
    requires forall k :: 0 <= k < |s| ==> key(a) <= key(s[k])
    ensures SortedBy([a] + s, key)
  {
    var r := [a] + s;
    forall i, j | 0 <= i < j < |r| ensures key(r[i]) <= key(r[j]) {
      if i > 0 {
        assert r[i] == s[i - 1] && r[j] == s[j - 1];
      } else {
        assert r[j] == s[j - 1];
      }
    }
  }

  /** Inserts `x` after every element whose key is not larger. */
  function InsertBy<T>(x: T, s: seq<T>, key: T -> real): (r: seq<T>)
    requires SortedBy(s, key)
    ensures |r| == |s| + 1
    ensures multiset(r) == multiset(s) + multiset{x}
    ensures forall y :: y in r ==> y == x || y in s
    ensures SortedBy(r, key)
    decreases |s|, 1
  {
    if |s| == 0 then [x]
    else if key(x) < key(s[0]) then
      SortedCons(x, s, key);
      [x] + s
    else
      assert s == [s[0]] + s[1..];
      var rest := InsertBy(x, s[1..], key);
      HeadBelowInsert(x, s, key);
      SortedCons(s[0], rest, key);
      [s[0]] + rest
  }

  /** The head of a sorted sequence stays below everything once a larger
      element is inserted into its tail. */
  lemma HeadBelowInsert<T>(x: T, s: seq<T>, key: T -> real)
    requires |s| > 0 && SortedBy(s, key) && SortedBy(s[1..], key)
    requires key(s[0]) <= key(x)
    ensures forall k :: 0 <= k < |InsertBy(x, s[1..], key)| ==> key(s[0]) <= key(InsertBy(x, s[1..], key)[k])
    decreases |s|, 0
  {
    var rest := InsertBy(x, s[1..], key);
    forall k | 0 <= k < |rest| ensures key(s[0]) <= key(rest[k]) {
      assert rest[k] in rest;
      if rest[k] != x {
        var j :| 0 <= j < |s[1..]| && s[1..][j] == rest[k];
        assert s[j + 1] == rest[k];
      }
    }
  }

  /** Insertion sort in input order, so equal keys keep their relative order. */
  function SortBy<T>(s: seq<T>, key: T -> real): (r: seq<T>)
    ensures |r| == |s|
    ensures multiset(r) == multiset(s)
    ensures SortedBy(r, key)
  {
    if |s| == 0 then []
    else
      assert s == s[..|s| - 1] + [s[|s| - 1]];
      InsertBy(s[|s| - 1], SortBy(s[..|s| - 1], key), key)
  }

  /** `s.slice(0, n)`. */
  function Take<T>(s: seq<T>, n: nat): (r: seq<T>)
    ensures |r| == if |s| < n then |s| else n
    ensures r == s[..|r|]
  {
    if |s| < n then s else s[..n]
  }
}
