/** Python's stable `sorted`, for any total preorder, and what two sorted lists share. */
module Sorting {

  ghost predicate IsTotalPreorder<T(!new)>(leq: (T, T) -> bool) {
    && (forall a, b :: leq(a, b) || leq(b, a))
    && (forall a, b, c :: leq(a, b) && leq(b, c) ==> leq(a, c))
  }

  ghost predicate IsTotalOrder<T(!new)>(leq: (T, T) -> bool) {
    && IsTotalPreorder(leq)
    && (forall a, b :: leq(a, b) && leq(b, a) ==> a == b)
  }

  ghost predicate IsSorted<T>(s: seq<T>, leq: (T, T) -> bool) {
    forall i, j | 0 <= i < j < |s| :: leq(s[i], s[j])
  }

  predicate Distinct<T(==)>(s: seq<T>) {
    forall i, j | 0 <= i < j < |s| :: s[i] != s[j]
  }

  function Map<T, U>(f: T -> U, s: seq<T>): (r: seq<U>)
    ensures |r| == |s|
    ensures forall i | 0 <= i < |s| :: r[i] == f(s[i])
  {
    seq(|s|, i requires 0 <= i < |s| => f(s[i]))
  }

  function Filter<T>(f: T -> bool, s: seq<T>): seq<T> {
    if s == [] then []
    else
      var front := Filter(f, s[..|s| - 1]);
      if f(s[|s| - 1]) then front + [s[|s| - 1]] else front
  }

  lemma {:induction false} FilterMembers<T>(f: T -> bool, s: seq<T>)
    ensures forall x :: x in Filter(f, s) <==> x in s && f(x)
    ensures Distinct(s) ==> Distinct(Filter(f, s))
  {
    if s != [] {
      FilterMembers(f, s[..|s| - 1]);
      assert s == s[..|s| - 1] + [s[|s| - 1]];
    }
  }

  /** Puts `x` before the first element that is strictly greater, after every equal one. */
  function Insert<T>(x: T, s: seq<T>, leq: (T, T) -> bool): seq<T> {
    if s == [] || !leq(s[0], x) then [x] + s
    else [s[0]] + Insert(x, s[1..], leq)
  }

  /** `sorted(s)`: stable, because later elements are inserted after equal earlier ones. */
  function Sort<T>(s: seq<T>, leq: (T, T) -> bool): seq<T> {
    if s == [] then [] else Insert(s[|s| - 1], Sort(s[..|s| - 1], leq), leq)
  }

  lemma {:induction false} InsertPermutes<T>(x: T, s: seq<T>, leq: (T, T) -> bool)
    ensures multiset(Insert(x, s, leq)) == multiset(s) + multiset{x}
    ensures |Insert(x, s, leq)| == |s| + 1
  {
    if s == [] || !leq(s[0], x) {
    } else {
      InsertPermutes(x, s[1..], leq);
      assert s == [s[0]] + s[1..];
    }
  }

  lemma {:induction false} InsertSorted<T(!new)>(x: T, s: seq<T>, leq: (T, T) -> bool)
    requires IsTotalPreorder(leq) && IsSorted(s, leq)
    ensures IsSorted(Insert(x, s, leq), leq)
  {
    if s == [] {
    } else if !leq(s[0], x) {
      assert forall j | 0 <= j < |s| :: leq(s[0], s[j]);
    } else {
      InsertSorted(x, s[1..], leq);
      InsertPermutes(x, s[1..], leq);
      var r := Insert(x, s[1..], leq);
      forall j | 0 <= j < |r|
        ensures leq(s[0], r[j])
      {
        assert r[j] in multiset(r);
        assert r[j] == x || r[j] in s[1..];
      }
    }
  }

  lemma {:induction false} SortPermutes<T>(s: seq<T>, leq: (T, T) -> bool)
    ensures multiset(Sort(s, leq)) == multiset(s)
    ensures |Sort(s, leq)| == |s|
  {
    if s != [] {
      var front := s[..|s| - 1];
      SortPermutes(front, leq);
      InsertPermutes(s[|s| - 1], Sort(front, leq), leq);
      assert s == front + [s[|s| - 1]];
    }
  }

  lemma {:induction false} SortSorted<T(!new)>(s: seq<T>, leq: (T, T) -> bool)
    requires IsTotalPreorder(leq)
    ensures IsSorted(Sort(s, leq), leq)
  {
    if s != [] {
      var front := s[..|s| - 1];
      SortSorted(front, leq);
      InsertSorted(s[|s| - 1], Sort(front, leq), leq);
    }
  }

  lemma FirstIsLeast<T(!new)>(s: seq<T>, t: seq<T>, leq: (T, T) -> bool)
    requires IsTotalOrder(leq) && IsSorted(s, leq) && multiset(s) == multiset(t) && s != [] && t != []
    ensures leq(s[0], t[0])
  {
    assert t[0] in multiset(s);
  }

  lemma TailMultiset<T>(s: seq<T>)
    requires s != []
    ensures multiset(s[1..]) == multiset(s) - multiset{s[0]}
  {
    assert s == [s[0]] + s[1..];
  }

  /** A list is determined by its elements and by being in order. */
  lemma {:induction false} SortedUnique<T(!new)>(s: seq<T>, t: seq<T>, leq: (T, T) -> bool)
    requires IsTotalOrder(leq)
    requires IsSorted(s, leq) && IsSorted(t, leq) && multiset(s) == multiset(t)
    ensures s == t
  {
    assert |s| == |multiset(s)| == |multiset(t)| == |t|;
    if s != [] {
      FirstIsLeast(s, t, leq);
      FirstIsLeast(t, s, leq);
      TailMultiset(s);
      TailMultiset(t);
      SortedUnique(s[1..], t[1..], leq);
      assert s == [s[0]] + s[1..] && t == [t[0]] + t[1..];
    }
  }

  lemma {:induction false} InsertLast<T>(x: T, s: seq<T>, leq: (T, T) -> bool)
    requires forall y | y in s :: leq(y, x)
    ensures Insert(x, s, leq) == s + [x]
  {
    if s != [] {
      InsertLast(x, s[1..], leq);
    }
  }

  /** Sorting a list that is in order already leaves it as it is. */
  lemma {:induction false} SortOfSorted<T>(s: seq<T>, leq: (T, T) -> bool)
    requires IsSorted(s, leq)
    ensures Sort(s, leq) == s
  {
    if s != [] {
      var n := |s| - 1;
      SortOfSorted(s[..n], leq);
      InsertLast(s[n], s[..n], leq);
      assert s == s[..n] + [s[n]];
    }
  }

  /** A list built from the front of another one grows by the next element. */
  lemma AppendNext<T>(front: seq<T>, s: seq<T>, i: nat, x: T)
    requires i < |s| && s[i] == x && front == s[..i]
    ensures front + [x] == s[..i + 1]
  {
  }

  lemma MapAppend<T, U>(f: T -> U, s: seq<T>, t: seq<T>)
    ensures Map(f, s + t) == Map(f, s) + Map(f, t)
  {
  }

  /** Taking out the element at `k`, in a list and in its multiset. */
  lemma RemoveAt<T>(s: seq<T>, k: nat)
    requires k < |s|
    ensures multiset(s) == multiset(s[..k] + s[k + 1..]) + multiset{s[k]}
  {
    assert s == s[..k] + ([s[k]] + s[k + 1..]);
  }

  lemma MapRemoveAt<T, U>(f: T -> U, s: seq<T>, k: nat)
    requires k < |s|
    ensures multiset(Map(f, s)) == multiset(Map(f, s[..k] + s[k + 1..])) + multiset{f(s[k])}
  {
    RemoveAt(Map(f, s), k);
    MapAppend(f, s[..k], s[k + 1..]);
    assert Map(f, s)[..k] == Map(f, s[..k]) && Map(f, s)[k + 1..] == Map(f, s[k + 1..]);
  }

  lemma WithoutPermutes<T>(s: seq<T>, t: seq<T>, k: nat)
    requires s != [] && k < |t| && t[k] == s[0] && multiset(s) == multiset(t)
    ensures multiset(s[1..]) == multiset(t[..k] + t[k + 1..])
  {
    assert s == [s[0]] + s[1..];
    RemoveAt(t, k);
    assert multiset(s[1..]) == multiset(s) - multiset{s[0]};
  }

  lemma MapHead<T, U>(f: T -> U, s: seq<T>)
    requires s != []
    ensures multiset(Map(f, s)) == multiset{f(s[0])} + multiset(Map(f, s[1..]))
  {
    assert Map(f, s) == [f(s[0])] + Map(f, s[1..]);
  }

  lemma {:induction false} MapPermutes<T, U>(f: T -> U, s: seq<T>, t: seq<T>)
    requires multiset(s) == multiset(t)
    ensures multiset(Map(f, s)) == multiset(Map(f, t))
  {
    if s == [] {
      assert |multiset(t)| == 0;
    } else {
      assert s[0] in multiset(t);
      var k :| 0 <= k < |t| && t[k] == s[0];
      WithoutPermutes(s, t, k);
      MapPermutes(f, s[1..], t[..k] + t[k + 1..]);
      MapHead(f, s);
      MapRemoveAt(f, t, k);
    }
  }

  lemma SortOfPermutation<T(!new)>(s: seq<T>, t: seq<T>, leq: (T, T) -> bool)
    requires IsTotalOrder(leq) && multiset(s) == multiset(t)
    ensures Sort(s, leq) == Sort(t, leq)
  {
    SortPermutes(s, leq);
    SortSorted(s, leq);
    SortPermutes(t, leq);
    SortSorted(t, leq);
    SortedUnique(Sort(s, leq), Sort(t, leq), leq);
  }

  lemma {:induction false} DistinctByMultiset<T>(s: seq<T>)
    ensures Distinct(s) <==> forall x | x in s :: multiset(s)[x] == 1
  {
    if s != [] {
      var rest := s[1..];
      DistinctByMultiset(rest);
      assert s == [s[0]] + rest;
      assert multiset(s) == multiset{s[0]} + multiset(rest);
      if Distinct(s) {
        assert s[0] !in rest;
        assert Distinct(rest) by {
          forall i, j | 0 <= i < j < |rest| ensures rest[i] != rest[j] {
            assert s[i + 1] != s[j + 1];
          }
        }
      }
      if forall x | x in s :: multiset(s)[x] == 1 {
        assert s[0] in s;
        assert s[0] !in multiset(rest);
        forall x | x in rest ensures multiset(rest)[x] == 1 {
          assert x in s && multiset(s)[x] == 1;
        }
        assert Distinct(s) by {
          forall i, j | 0 <= i < j < |s| ensures s[i] != s[j] {
            if i == 0 {
              assert s[j] == rest[j - 1];
            } else {
              assert rest[i - 1] != rest[j - 1];
            }
          }
        }
      }
    }
  }

  /** Lists without repeats and with the same elements are permutations of each other. */
  lemma DistinctSameElements<T>(s: seq<T>, t: seq<T>)
    requires Distinct(s) && Distinct(t) && forall x :: x in s <==> x in t
    ensures multiset(s) == multiset(t)
  {
    DistinctByMultiset(s);
    DistinctByMultiset(t);
    forall x
      ensures multiset(s)[x] == multiset(t)[x]
    {
      assert x in s <==> x in multiset(s);
      assert x in t <==> x in multiset(t);
    }
  }

  /** Having no repeats does not depend on the order. */
  lemma DistinctPermutation<T>(s: seq<T>, t: seq<T>)
    requires multiset(s) == multiset(t) && Distinct(s)
    ensures Distinct(t)
  {
    DistinctByMultiset(s);
    DistinctByMultiset(t);
    forall x | x in t ensures multiset(t)[x] == 1 {
      assert x in multiset(t);
      assert x in s;
    }
  }
}
