/** Shared vocabulary: optional values, results, and the sequence folds
    (filter, count, sums) that the dashboard's reductions are built from. */
module Common {

  /** A value that may be missing, as a JavaScript `undefined` field. */
  datatype Option<+T> = None | Some(value: T)

  /** The outcome of a computation that may throw. */
  datatype Result<+T, +E> = Success(value: T) | Failure(error: E)

  /** `a` can be obtained from `b` by deleting elements, keeping the order. */
  ghost predicate IsSubsequence<T>(a: seq<T>, b: seq<T>)
    decreases |b|
  {
    if |a| == 0 then true
    else if |b| == 0 then false
    else if a[0] == b[0] then IsSubsequence(a[1..], b[1..])
    else IsSubsequence(a, b[1..])
  }

  /** Every sequence is a subsequence of itself. */
  lemma {:induction false} SubsequenceRefl<T>(s: seq<T>)
    ensures IsSubsequence(s, s)
  {
    if |s| > 0 {
      SubsequenceRefl(s[1..]);
    }
  }

  /** No element occurs twice. */
  ghost predicate Distinct<T>(s: seq<T>) {
    forall i, j :: 0 <= i < j < |s| ==> s[i] != s[j]
  }

  /** `Array.prototype.filter`: the elements satisfying `p`, in order. */
  function Filter<T>(s: seq<T>, p: T -> bool): (r: seq<T>)
    ensures |r| <= |s|
    ensures forall x :: x in r ==> x in s && p(x)
    ensures forall x :: x in s ==> multiset(r)[x] == if p(x) then multiset(s)[x] else 0
    ensures IsSubsequence(r, s)
  {
    if |s| == 0 then []
    else
      assert s == [s[0]] + s[1..];
      var rest := Filter(s[1..], p);
      if p(s[0]) then [s[0]] + rest
      else
        assert |rest| > 0 ==> rest[0] in rest;
        rest
  }

  /** Filtering twice keeps exactly the elements satisfying both predicates. */
  lemma {:induction false} FilterFilter<T>(s: seq<T>, p: T -> bool, q: T -> bool, pq: T -> bool)
    requires forall x :: pq(x) == (p(x) && q(x))
    ensures Filter(Filter(s, p), q) == Filter(s, pq)
  {
    if |s| > 0 {
      FilterFilter(s[1..], p, q, pq);
    }
  }

  /** A filter that every element passes is the identity. */
  lemma {:induction false} FilterAll<T>(s: seq<T>, p: T -> bool)
    requires forall i :: 0 <= i < |s| ==> p(s[i])
    ensures Filter(s, p) == s
  {
    if |s| > 0 {
      FilterAll(s[1..], p);
    }
  }

  /** Filters by predicates that agree everywhere are equal. */
  lemma {:induction false} FilterExt<T>(s: seq<T>, p: T -> bool, q: T -> bool)
    requires forall x :: p(x) == q(x)
    ensures Filter(s, p) == Filter(s, q)
  {
    if |s| > 0 {
      FilterExt(s[1..], p, q);
    }
  }

  /** Filtering keeps as many elements as satisfy the predicate. */
  lemma {:induction false} FilterCount<T>(s: seq<T>, p: T -> bool)
    ensures |Filter(s, p)| == Count(s, p)
  {
    if |s| > 0 {
      FilterCount(s[1..], p);
    }
  }

  /** A predicate every element satisfies counts every element. */
  lemma {:induction false} CountAll<T>(s: seq<T>, p: T -> bool)
    requires forall i :: 0 <= i < |s| ==> p(s[i])
    ensures Count(s, p) == |s|
  {
    if |s| > 0 {
      CountAll(s[1..], p);
    }
  }

  /** Counts by predicates that agree everywhere are equal. */
  lemma {:induction false} CountExt<T>(s: seq<T>, p: T -> bool, q: T -> bool)
    requires forall x :: p(x) == q(x)
    ensures Count(s, p) == Count(s, q)
  {
    if |s| > 0 {
      CountExt(s[1..], p, q);
    }
  }

  /** Number of elements satisfying `p`. */
  function Count<T>(s: seq<T>, p: T -> bool): (n: nat)
    ensures n <= |s|
  {
    if |s| == 0 then 0 else (if p(s[0]) then 1 else 0) + Count(s[1..], p)
  }

  lemma {:induction false} CountConcat<T>(s: seq<T>, t: seq<T>, p: T -> bool)
    ensures Count(s + t, p) == Count(s, p) + Count(t, p)
  {
    if |s| == 0 {
      assert s + t == t;
    } else {
      assert (s + t)[1..] == s[1..] + t;
      CountConcat(s[1..], t, p);
    }
  }

  /** Sum of an integer field over a sequence. */
  function SumBy<T>(s: seq<T>, f: T -> int): int {
    if |s| == 0 then 0 else f(s[0]) + SumBy(s[1..], f)
  }

  lemma {:induction false} SumByConcat<T>(s: seq<T>, t: seq<T>, f: T -> int)
    ensures SumBy(s + t, f) == SumBy(s, f) + SumBy(t, f)
  {
    if |s| == 0 {
      assert s + t == t;
    } else {
      assert (s + t)[1..] == s[1..] + t;
      SumByConcat(s[1..], t, f);
    }
  }

  /** Sum of a real-valued field over a sequence. */
  function SumReal<T>(s: seq<T>, f: T -> real): real {
    if |s| == 0 then 0.0 else f(s[0]) + SumReal(s[1..], f)
  }

  lemma {:induction false} SumRealConcat<T>(s: seq<T>, t: seq<T>, f: T -> real)
    ensures SumReal(s + t, f) == SumReal(s, f) + SumReal(t, f)
  {
    if |s| == 0 {
      assert s + t == t;
    } else {
      assert (s + t)[1..] == s[1..] + t;
      SumRealConcat(s[1..], t, f);
    }
  }

  /** Sum of a sequence of naturals. */
  function Sum(s: seq<nat>): nat {
    if |s| == 0 then 0 else s[0] + Sum(s[1..])
  }

  lemma {:induction false} SumIncrement(s: seq<nat>, i: nat)
    requires i < |s|
    ensures Sum(s[i := s[i] + 1]) == Sum(s) + 1
  {
    if i > 0 {
      assert s[i := s[i] + 1][1..] == s[1..][i - 1 := s[i] + 1];
      SumIncrement(s[1..], i - 1);
    }
  }

  /** `Math.round` on an exact real: halves round towards +infinity. */
  function Round(x: real): (r: int)
    ensures r as real - 0.5 <= x < r as real + 0.5
  {
    (x + 0.5).Floor
  }

  /** For a positive divisor, `a / t > n / d` is the integer test `d * a > n * t`. */
  lemma RatioAbove(a: int, t: int, n: int, d: int)
    requires t > 0 && d > 0
    ensures (a as real / t as real > n as real / d as real) <==> d * a > n * t
  {
    var q := a as real / t as real;
    assert q * t as real == a as real;
    var m := n as real / d as real;
    assert m * d as real == n as real;
    calc {
      q > m;
    <==> { MulPositive(q, m, (t * d) as real); }
      q * (t * d) as real > m * (t * d) as real;
    <==> { assert q * (t * d) as real == a as real * d as real; assert m * (t * d) as real == n as real * t as real; }
      (d * a) as real > (n * t) as real;
    }
  }

  /** Multiplying by a positive number keeps a strict order in both directions. */
  lemma MulPositive(x: real, y: real, k: real)
    requires k > 0.0
    ensures x > y <==> x * k > y * k
  {
    if x > y {
      assert (x - y) * k > 0.0;
    } else {
      assert (y - x) * k >= 0.0;
    }
  }

  /** For a positive divisor, `a / t >= n / d` is the integer test `d * a >= n * t`. */
  lemma RatioAtLeast(a: int, t: int, n: int, d: int)
    requires t > 0 && d > 0
    ensures (a as real / t as real >= n as real / d as real) <==> d * a >= n * t
  {
    RatioAbove(n, d, a, t);
  }
}
