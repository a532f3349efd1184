/** The nearest-rank 95th percentile, and what merging strata does to it. */
module Percentiles {
  import opened Wrappers
  import opened Sorting
  import opened BenchmarkContract

  predicate IntLe(a: int, b: int) { a <= b }

  /** `ceil(0.95 * n)`, exactly. */
  function Rank(n: nat): nat {
    (19 * n + 19) / 20
  }

  predicate SamplesOk(values: seq<int>) {
    && values != []
    && (forall i | 0 <= i < |values| :: 1 <= values[i] <= MAX_SAFE_INTEGER)
    && Sort(values, IntLe) == values
  }

  /** `nearest_rank_p95`. */
  function NearestRank(values: seq<int>): Result<int> {
    if SamplesOk(values) then
      RankBounds(|values|);
      Ok(values[Rank(|values|) - 1])
    else Fail
  }

  /** How far the samples not above `v` exceed nineteen twentieths, in twentieths. */
  function Margin(samples: seq<int>, v: int): int {
    if samples == [] then 0
    else Margin(samples[..|samples| - 1], v) + (if samples[|samples| - 1] <= v then 1 else -19)
  }

  function CountAtMost(samples: seq<int>, v: int): nat {
    if samples == [] then 0
    else CountAtMost(samples[..|samples| - 1], v) + (if samples[|samples| - 1] <= v then 1 else 0)
  }

  lemma {:induction false} MarginIsCount(samples: seq<int>, v: int)
    ensures Margin(samples, v) == 20 * CountAtMost(samples, v) - 19 * |samples|
    ensures CountAtMost(samples, v) <= |samples|
  {
    if samples != [] {
      MarginIsCount(samples[..|samples| - 1], v);
    }
  }

  /** `p` is the least sample with at least `ceil(19n/20)` samples not above it. */
  ghost predicate IsP95(samples: seq<int>, p: int) {
    && p in samples
    && CountAtMost(samples, p) >= Rank(|samples|)
    && forall q | q in samples && CountAtMost(samples, q) >= Rank(|samples|) :: p <= q
  }

  lemma {:induction false} SortedCount(values: seq<int>, v: int, k: nat)
    requires IsSorted(values, IntLe) && k <= |values|
    requires forall i | 0 <= i < k :: values[i] <= v
    requires forall i | k <= i < |values| :: values[i] > v
    ensures CountAtMost(values, v) == k
  {
    if values != [] {
      var n := |values| - 1;
      SortedCount(values[..n], v, if k <= n then k else n);
    }
  }

  lemma {:induction false} CountPermutes(a: seq<int>, b: seq<int>, v: int)
    requires multiset(a) == multiset(b)
    ensures CountAtMost(a, v) == CountAtMost(b, v)
  {
    assert |a| == |multiset(a)| == |multiset(b)| == |b|;
    if a != [] {
      var n := |a| - 1;
      var x := a[n];
      assert a == a[..n] + [x];
      assert x in multiset(b);
      var k :| 0 <= k < |b| && b[k] == x;
      RemoveAt(b, k);
      var rest := b[..k] + b[k + 1..];
      assert multiset(a[..n]) == multiset(a) - multiset{x};
      assert multiset(rest) == multiset(b) - multiset{x};
      CountPermutes(a[..n], rest, v);
      CountWithout(b, k, v);
    }
  }

  lemma {:induction false} CountAppend(a: seq<int>, b: seq<int>, v: int)
    ensures CountAtMost(a + b, v) == CountAtMost(a, v) + CountAtMost(b, v)
  {
    if b == [] {
      assert a + b == a;
    } else {
      var n := |b| - 1;
      assert (a + b)[..|a + b| - 1] == a + b[..n];
      CountAppend(a, b[..n], v);
    }
  }

  lemma CountWithout(b: seq<int>, k: nat, v: int)
    requires k < |b|
    ensures CountAtMost(b, v) == CountAtMost(b[..k] + b[k + 1..], v) + (if b[k] <= v then 1 else 0)
  {
    assert b == b[..k] + ([b[k]] + b[k + 1..]);
    CountAppend(b[..k], [b[k]] + b[k + 1..], v);
    CountAppend([b[k]], b[k + 1..], v);
    CountAppend(b[..k], b[k + 1..], v);
    assert [b[k]][..0] == [];
  }

  /** Where the samples not above `v` end in a sorted list. */
  lemma {:induction false} SplitPoint(values: seq<int>, v: int) returns (k: nat)
    requires IsSorted(values, IntLe)
    ensures k <= |values| && (forall i | 0 <= i < k :: values[i] <= v)
            && (forall i | k <= i < |values| :: values[i] > v)
    ensures CountAtMost(values, v) == k
    decreases |values|
  {
    if values == [] || values[|values| - 1] <= v {
      k := |values|;
      forall i | 0 <= i < k
        ensures values[i] <= v
      {
        if i < |values| - 1 {
          assert IntLe(values[i], values[|values| - 1]);
        }
      }
    } else {
      var front := values[..|values| - 1];
      k := SplitPoint(front, v);
      assert forall i | 0 <= i < |front| :: values[i] == front[i];
    }
    SortedCount(values, v, k);
  }

  lemma SortedInts(samples: seq<int>)
    ensures var s := Sort(samples, IntLe);
            IsSorted(s, IntLe) && multiset(s) == multiset(samples) && |s| == |samples|
  {
    SortSorted(samples, IntLe);
    SortPermutes(samples, IntLe);
  }

  lemma SameMembers(a: seq<int>, b: seq<int>, x: int)
    requires multiset(a) == multiset(b)
    ensures x in a <==> x in b
  {
    assert x in a <==> x in multiset(a);
    assert x in b <==> x in multiset(b);
  }

  lemma RankBounds(n: nat)
    requires n > 0
    ensures 1 <= Rank(n) <= n
    ensures forall k: nat :: k >= Rank(n) <==> 20 * k >= 19 * n
  {
  }

  /** The element at the nearest rank is what the definition asks for, whatever order the samples came in. */
  lemma NearestRankIsP95(samples: seq<int>)
    requires samples != []
    ensures var s := Sort(samples, IntLe);
            |s| == |samples| && 1 <= Rank(|s|) <= |s| && IsP95(samples, s[Rank(|s|) - 1])
  {
    SortedInts(samples);
    var s := Sort(samples, IntLe);
    RankBounds(|s|);
    var r := Rank(|s|);
    var p := s[r - 1];
    SameMembers(s, samples, p);
    var k := SplitPoint(s, p);
    CountPermutes(samples, s, p);
    assert k >= r;
    forall q | q in samples && CountAtMost(samples, q) >= r
      ensures p <= q
    {
      CountPermutes(samples, s, q);
      var l := SplitPoint(s, q);
      assert s[r - 1] <= q;
    }
  }

  /** Below the percentile the margin is negative, from it on it is not. */
  lemma P95Margin(samples: seq<int>, p: int, v: int)
    requires IsP95(samples, p)
    ensures Margin(samples, v) >= 0 <==> p <= v
  {
    SortedInts(samples);
    var s := Sort(samples, IntLe);
    RankBounds(|samples|);
    MarginIsCount(samples, v);
    MarginIsCount(samples, p);
    CountPermutes(samples, s, v);
    CountPermutes(samples, s, p);
    var k := SplitPoint(s, v);
    var j := SplitPoint(s, p);
    if Margin(samples, v) >= 0 {
      var q := s[k - 1];
      SameMembers(s, samples, q);
      CountPermutes(samples, s, q);
      var l := SplitPoint(s, q);
      assert l >= k;
      assert p <= q;
    }
    if p <= v && j > 0 {
      assert s[j - 1] <= v;
    }
  }

  /** There is only one such value. */
  lemma P95Unique(samples: seq<int>, p: int, q: int)
    requires IsP95(samples, p) && IsP95(samples, q)
    ensures p == q
  {
  }

  // ---------- Merging ----------

  function IsKey<W, K(==)>(key: W -> K, k: K): W -> bool {
    w => key(w) == k
  }

  lemma KeyMatches<W, K>(key: W -> K, k: K, w: W)
    requires key(w) == k
    ensures IsKey(key, k)(w)
  {
  }

  /** The stratum of `k`. */
  function Stratum<W, K(==)>(items: seq<W>, key: W -> K, k: K): seq<W> {
    Filter(IsKey(key, k), items)
  }

  function MarginSum<W, K(==)>(items: seq<W>, value: W -> int, key: W -> K, keys: seq<K>, v: int): int {
    if keys == [] then 0
    else MarginSum(items, value, key, keys[..|keys| - 1], v) +
         Margin(Map(value, Stratum(items, key, keys[|keys| - 1])), v)
  }

  lemma MarginOne(samples: seq<int>, x: int, v: int)
    ensures Margin(samples + [x], v) == Margin(samples, v) + (if x <= v then 1 else -19)
  {
    assert (samples + [x])[..|samples|] == samples;
  }

  /** One more item goes into exactly one stratum. */
  lemma {:induction false} AddItem<W, K>(items: seq<W>, w: W, value: W -> int, key: W -> K, keys: seq<K>, v: int)
    requires Distinct(keys)
    ensures MarginSum(items + [w], value, key, keys, v) ==
            MarginSum(items, value, key, keys, v) + (if key(w) !in keys then 0 else if value(w) <= v then 1 else -19)
  {
    if keys != [] {
      var n := |keys| - 1;
      var k := keys[n];
      assert Distinct(keys[..n]);
      AddItem(items, w, value, key, keys[..n], v);
      assert (items + [w])[..|items|] == items;
      if key(w) == k {
        assert Stratum(items + [w], key, k) == Stratum(items, key, k) + [w];
        MapAppend(value, Stratum(items, key, k), [w]);
        MarginOne(Map(value, Stratum(items, key, k)), value(w), v);
        assert k !in keys[..n];
      }
      assert keys == keys[..n] + [k];
    }
  }

  /** The margin of the whole is the sum of the margins of its strata. */
  lemma {:induction false} MarginByStrata<W, K>(items: seq<W>, value: W -> int, key: W -> K, keys: seq<K>, v: int)
    requires Distinct(keys) && forall i | 0 <= i < |items| :: key(items[i]) in keys
    ensures Margin(Map(value, items), v) == MarginSum(items, value, key, keys, v)
  {
    if items == [] {
      EmptyMargins(value, key, keys, v);
    } else {
      var n := |items| - 1;
      MarginByStrata(items[..n], value, key, keys, v);
      AddItem(items[..n], items[n], value, key, keys, v);
      assert items == items[..n] + [items[n]];
      MapAppend(value, items[..n], [items[n]]);
      MarginOne(Map(value, items[..n]), value(items[n]), v);
    }
  }

  lemma {:induction false} EmptyMargins<W, K>(value: W -> int, key: W -> K, keys: seq<K>, v: int)
    ensures MarginSum([], value, key, keys, v) == 0
  {
    if keys != [] {
      EmptyMargins(value, key, keys[..|keys| - 1], v);
    }
  }

  /** The percentile of each stratum. */
  ghost predicate StrataP95<W, K>(items: seq<W>, value: W -> int, key: W -> K, keys: seq<K>, ps: seq<int>) {
    && |ps| == |keys|
    && forall i | 0 <= i < |keys| :: IsP95(Map(value, Stratum(items, key, keys[i])), ps[i])
  }

  lemma {:induction false} SignOfSum<W, K>(items: seq<W>, value: W -> int, key: W -> K, keys: seq<K>, ps: seq<int>,
                                           v: int)
    requires StrataP95(items, value, key, keys, ps)
    ensures (forall i | 0 <= i < |ps| :: ps[i] <= v) ==> MarginSum(items, value, key, keys, v) >= 0
    ensures keys != [] && (forall i | 0 <= i < |ps| :: v < ps[i]) ==> MarginSum(items, value, key, keys, v) < 0
  {
    if keys != [] {
      var n := |keys| - 1;
      assert StrataP95(items, value, key, keys[..n], ps[..n]);
      SignOfSum(items, value, key, keys[..n], ps[..n], v);
      P95Margin(Map(value, Stratum(items, key, keys[n])), ps[n], v);
      if n == 0 {
        assert keys[..n] == [];
      }
    }
  }

  /** The merge law: the percentile of the whole lies between two percentiles of its strata. */
  lemma MergeLaw<W, K>(items: seq<W>, value: W -> int, key: W -> K, keys: seq<K>, ps: seq<int>, p: int)
    requires Distinct(keys) && keys != [] && forall i | 0 <= i < |items| :: key(items[i]) in keys
    requires StrataP95(items, value, key, keys, ps) && IsP95(Map(value, items), p)
    ensures exists lo, hi | 0 <= lo < |ps| && 0 <= hi < |ps| :: ps[lo] <= p <= ps[hi]
  {
    var samples := Map(value, items);
    MarginByStrata(items, value, key, keys, p);
    SignOfSum(items, value, key, keys, ps, p);
    P95Margin(samples, p, p);
    assert exists lo | 0 <= lo < |ps| :: ps[lo] <= p;
    if forall i | 0 <= i < |ps| :: ps[i] < p {
      MarginByStrata(items, value, key, keys, p - 1);
      SignOfSum(items, value, key, keys, ps, p - 1);
      P95Margin(samples, p, p - 1);
    }
  }
}
