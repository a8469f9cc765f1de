/** Frequency tables keyed by string, as built by the aggregation's
    `table[key] = (table[key] || 0) + 1` loops, with the sums, the
    most-frequent-key scan and the sorted key listing read from them. */
module Tally {
  import opened Text

  /** `keys.forEach(k => table[k] = (table[k] || 0) + 1)`. */
  function Tally(keys: seq<string>): (m: map<string, nat>)
    ensures m.Keys == set k | k in keys
    ensures forall k :: k in m ==> m[k] == multiset(keys)[k]
  {
    if |keys| == 0 then map[]
    else
      var prefix := keys[..|keys| - 1];
      var k := keys[|keys| - 1];
      assert keys == prefix + [k];
      var m0 := Tally(prefix);
      m0[k := (if k in m0 then m0[k] else 0) + 1]
  }

  /** Some key of a non-empty table. */
  ghost function PickKey(m: map<string, nat>): (k: string)
    requires |m| > 0
    ensures k in m
  {
    var k :| k in m; k
  }

  /** Sum of the values of a table, in no particular key order. */
  ghost function MapSum(m: map<string, nat>): nat
    decreases |m|
  {
    if |m| == 0 then 0
    else
      var k := PickKey(m);
      assert (m - {k}).Keys == m.Keys - {k};
      m[k] + MapSum(m - {k})
  }

  /** The sum may be split at any key, so the choice made by `MapSum` does not matter. */
  lemma {:induction false} MapSumRemove(m: map<string, nat>, k: string)
    requires k in m
    ensures MapSum(m) == m[k] + MapSum(m - {k})
    decreases |m|
  {
    assert k in m.Keys;
    assert |m| > 0;
    var j := PickKey(m);
    if j != k {
      assert (m - {j}).Keys == m.Keys - {j};
      assert (m - {k}).Keys == m.Keys - {k};
      MapSumRemove(m - {j}, k);
      MapSumRemove(m - {k}, j);
      assert m - {j} - {k} == m - {k} - {j};
    }
  }

  /** Raising one entry by one raises the sum by one; adding a new key with value one likewise. */
  lemma MapSumIncrement(m: map<string, nat>, k: string)
    ensures MapSum(m[k := (if k in m then m[k] else 0) + 1]) == MapSum(m) + 1
  {
    var m' := m[k := (if k in m then m[k] else 0) + 1];
    MapSumRemove(m', k);
    assert m' - {k} == m - {k};
    if k in m {
      MapSumRemove(m, k);
    } else {
      assert m - {k} == m;
    }
  }

  /** The counts of a frequency table add up to the number of keys folded in. */
  lemma {:induction false} TallySum(keys: seq<string>)
    ensures MapSum(Tally(keys)) == |keys|
  {
    if |keys| > 0 {
      var prefix := keys[..|keys| - 1];
      assert keys == prefix + [keys[|keys| - 1]];
      TallySum(prefix);
      TallyAppend(prefix, keys[|keys| - 1]);
    }
  }

  /** Folding one more key in raises the sum of the counts by one. */
  lemma TallyAppend(prefix: seq<string>, k: string)
    ensures MapSum(Tally(prefix + [k])) == MapSum(Tally(prefix)) + 1
  {
    var m0 := Tally(prefix);
    assert (prefix + [k])[..|prefix|] == prefix;
    assert Tally(prefix + [k]) == m0[k := (if k in m0 then m0[k] else 0) + 1];
    MapSumIncrement(m0, k);
  }

  /** Sum of the table's values over the listed keys. */
  function SumOver(ks: seq<string>, m: map<string, nat>): nat
    requires forall i :: 0 <= i < |ks| ==> ks[i] in m
  {
    if |ks| == 0 then 0 else m[ks[0]] + SumOver(ks[1..], m)
  }

  /** Listing every key exactly once sums the whole table. */
  lemma {:induction false} SumOverAllKeys(ks: seq<string>, m: map<string, nat>)
    requires forall k :: k in ks <==> k in m
    requires forall i, j :: 0 <= i < j < |ks| ==> ks[i] != ks[j]
    ensures SumOver(ks, m) == MapSum(m)
  {
    if |ks| == 0 {
      assert forall k :: k !in m;
      assert m == map[];
    } else {
      var rest := m - {ks[0]};
      TailKeys(ks, m);
      SumOverAllKeys(ks[1..], rest);
      SumOverAgree(ks[1..], rest, m);
      MapSumRemove(m, ks[0]);
    }
  }

  lemma TailKeys(ks: seq<string>, m: map<string, nat>)
    requires |ks| > 0
    requires forall k :: k in ks <==> k in m
    requires forall i, j :: 0 <= i < j < |ks| ==> ks[i] != ks[j]
    ensures forall k :: k in ks[1..] <==> k in m - {ks[0]}
    ensures forall i, j :: 0 <= i < j < |ks[1..]| ==> ks[1..][i] != ks[1..][j]
  {
    forall k ensures k in ks[1..] <==> k in m - {ks[0]} {
      if k in ks[1..] {
        var i :| 0 <= i < |ks[1..]| && ks[1..][i] == k;
        assert ks[i + 1] == k;
      }
      if k in m - {ks[0]} {
        assert k in ks;
        var i :| 0 <= i < |ks| && ks[i] == k;
        assert ks[1..][i - 1] == k;
      }
    }
  }

  lemma {:induction false} SumOverAgree(ks: seq<string>, m: map<string, nat>, m': map<string, nat>)
    requires forall i :: 0 <= i < |ks| ==> ks[i] in m && ks[i] in m' && m[ks[i]] == m'[ks[i]]
    ensures SumOver(ks, m) == SumOver(ks, m')
  {
    if |ks| > 0 {
      SumOverAgree(ks[1..], m, m');
    }
  }

  /** The left-to-right scan `count > best ? candidate : best`: the result
      is `best` or a later candidate, and no candidate beats it. */
  function ArgMax(cands: seq<string>, m: map<string, nat>, best: string): (r: string)
    requires best in m
    requires forall i :: 0 <= i < |cands| ==> cands[i] in m
    ensures r in m && m[best] <= m[r]
    ensures r == best || r in cands
    ensures forall i :: 0 <= i < |cands| ==> m[cands[i]] <= m[r]
  {
    if |cands| == 0 then best
    else ArgMax(cands[1..], m, if m[cands[0]] > m[best] then cands[0] else best)
  }

  /** The most frequent key, or `""` when there are none. Among equally
      frequent keys the model returns the first one observed; `calculateTripStats`
      returns the first in `Object.entries` order, which lists integer-like
      keys first in numeric order, so the two may pick different keys. */
  function MostFrequent(keys: seq<string>): (r: string)
    ensures |keys| == 0 ==> r == ""
    ensures |keys| > 0 ==> r in keys
    ensures forall k :: k in keys ==> multiset(keys)[k] <= multiset(keys)[r]
  {
    if |keys| == 0 then ""
    else
      var m := Tally(keys);
      assert forall i :: 0 <= i < |keys| ==> keys[i] in m;
      var r := ArgMax(keys[1..], m, keys[0]);
      assert forall k :: k in keys ==> m[k] <= m[r] by {
        forall k | k in keys ensures m[k] <= m[r] {
          var i :| 0 <= i < |keys| && keys[i] == k;
          if i > 0 {
            assert keys[1..][i - 1] == k;
          }
        }
      }
      r
  }

  /** Strictly ascending in code-point order, so also free of repeats. */
  ghost predicate StrictlyAscending(s: seq<string>) {
    forall i, j :: 0 <= i < j < |s| ==> LexLess(s[i], s[j])
  }

  /** Adds `k` to an ascending list of distinct keys. */
  function InsertSorted(s: seq<string>, k: string): (r: seq<string>)
    requires StrictlyAscending(s)
    ensures StrictlyAscending(r)
    ensures forall x :: x in r <==> x in s || x == k
    ensures |r| > 0 && (r[0] == k || (|s| > 0 && r[0] == s[0]))
  {
    if |s| == 0 then [k]
    else if k == s[0] then s
    else if LexLess(k, s[0]) then
      assert forall j :: 0 < j < |s| ==> LexLess(k, s[j]) by {
        forall j | 0 < j < |s| ensures LexLess(k, s[j]) {
          LexLessTransitive(k, s[0], s[j]);
        }
      }
      [k] + s
    else
      LexLessTotal(k, s[0]);
      assert s == [s[0]] + s[1..];
      var rest := InsertSorted(s[1..], k);
      var r := [s[0]] + rest;
      assert forall j :: 0 < j < |r| ==> LexLess(s[0], r[j]) by {
        forall j | 0 < j < |r| ensures LexLess(s[0], r[j]) {
          assert r[j] == rest[j - 1];
          assert r[j] in rest;
          if r[j] != k {
            assert r[j] in s[1..];
            var i :| 0 <= i < |s[1..]| && s[1..][i] == r[j];
            assert s[i + 1] == r[j];
          }
        }
      }
      r
  }

  /** The distinct keys in ascending order:
      `Object.entries(table).sort((a, b) => a.key.localeCompare(b.key))`. */
  function SortedKeys(keys: seq<string>): (r: seq<string>)
    ensures StrictlyAscending(r)
    ensures forall x :: x in r <==> x in keys
  {
    if |keys| == 0 then []
    else
      assert keys == keys[..|keys| - 1] + [keys[|keys| - 1]];
      InsertSorted(SortedKeys(keys[..|keys| - 1]), keys[|keys| - 1])
  }

  /** An ascending listing never repeats a key. */
  lemma AscendingDistinct(s: seq<string>)
    requires StrictlyAscending(s)
    ensures forall i, j :: 0 <= i < j < |s| ==> s[i] != s[j]
  {
    forall i, j | 0 <= i < j < |s| ensures s[i] != s[j] {
      if s[i] == s[j] {
        LexLessIrreflexive(s[i]);
      }
    }
  }
}
