/** Comprehensions over lists: ranges and flattened loops. */
module Sequences {
  import opened Sorting

  /** `range(n)`. */
  function Range(n: nat): (r: seq<nat>)
    ensures |r| == n && forall i | 0 <= i < n :: r[i] == i
  {
    seq(n, i => i)
  }

  /** The lists `f(s[0])`, `f(s[1])`, ... one after the other, as nested loops append them. */
  function Flat<T, U>(f: T -> seq<U>, s: seq<T>): seq<U> {
    if s == [] then [] else Flat(f, s[..|s| - 1]) + f(s[|s| - 1])
  }

  lemma FlatSingle<T, U>(f: T -> seq<U>, x: T)
    ensures Flat(f, [x]) == f(x)
  {
    assert [x][..0] == [];
    assert Flat(f, []) + f(x) == f(x);
  }

  lemma FlatStep<T, U>(f: T -> seq<U>, s: seq<T>, i: nat)
    requires i < |s|
    ensures Flat(f, s[..i + 1]) == Flat(f, s[..i]) + f(s[i])
  {
    assert s[..i + 1][..i] == s[..i] && s[..i + 1][i] == s[i];
  }

  lemma {:induction false} FlatMembers<T, U>(f: T -> seq<U>, s: seq<T>, y: U)
    ensures y in Flat(f, s) <==> exists i | 0 <= i < |s| :: y in f(s[i])
  {
    if s != [] {
      var n := |s| - 1;
      FlatMembers(f, s[..n], y);
      assert forall i | 0 <= i < n :: s[..n][i] == s[i];
      if y in f(s[n]) {
        assert y in f(s[n]);
      }
    }
  }

  lemma FlatHas<T, U>(f: T -> seq<U>, s: seq<T>, i: nat, y: U)
    requires i < |s| && y in f(s[i])
    ensures y in Flat(f, s)
  {
    FlatMembers(f, s, y);
  }

  /** Mapping a flattened list is flattening mapped lists. */
  lemma {:induction false} MapFlat<T, U, V>(h: U -> V, f: T -> seq<U>, g: T -> seq<V>, s: seq<T>)
    requires forall i | 0 <= i < |s| :: Map(h, f(s[i])) == g(s[i])
    ensures Map(h, Flat(f, s)) == Flat(g, s)
  {
    if s != [] {
      var n := |s| - 1;
      assert forall i | 0 <= i < n :: s[..n][i] == s[i];
      MapFlat(h, f, g, s[..n]);
      MapAppend(h, Flat(f, s[..n]), f(s[n]));
    }
  }

  /** The lists of different turns share nothing. */
  ghost predicate Apart<T, U(!new)>(f: T -> seq<U>, x: T, y: T) {
    forall u | u in f(x) :: u !in f(y)
  }

  lemma {:induction false} FlatDistinct<T, U(!new)>(f: T -> seq<U>, s: seq<T>)
    requires forall i | 0 <= i < |s| :: Distinct(f(s[i]))
    requires forall i, j | 0 <= i < j < |s| :: Apart(f, s[i], s[j])
    ensures Distinct(Flat(f, s))
  {
    if s != [] {
      var n := |s| - 1;
      assert forall i | 0 <= i < n :: s[..n][i] == s[i];
      FlatDistinct(f, s[..n]);
      forall u | u in Flat(f, s[..n])
        ensures u !in f(s[n])
      {
        FlatMembers(f, s[..n], u);
        var i :| 0 <= i < n && u in f(s[..n][i]);
        assert Apart(f, s[i], s[n]);
      }
      DistinctConcat(Flat(f, s[..n]), f(s[n]));
    }
  }

  lemma DistinctConcat<T(!new)>(a: seq<T>, b: seq<T>)
    requires Distinct(a) && Distinct(b) && forall x | x in a :: x !in b
    ensures Distinct(a + b)
  {
    forall i, j | 0 <= i < j < |a + b|
      ensures (a + b)[i] != (a + b)[j]
    {
      if i < |a| <= j {
        assert (a + b)[i] in a && (a + b)[j] in b;
      }
    }
  }

  lemma MapHas<T, U>(f: T -> U, s: seq<T>, y: U)
    ensures y in Map(f, s) <==> exists i | 0 <= i < |s| :: f(s[i]) == y
  {
    var r := Map(f, s);
    if i :| 0 <= i < |s| && f(s[i]) == y {
      assert r[i] == y;
    }
    if y in r {
      var i :| 0 <= i < |r| && r[i] == y;
    }
  }

  lemma MapIn<T, U>(f: T -> U, s: seq<T>, i: nat)
    requires i < |s|
    ensures f(s[i]) in Map(f, s)
  {
    assert Map(f, s)[i] == f(s[i]);
  }

  predicate AllPass<T>(s: seq<T>, test: T -> bool) {
    forall i | 0 <= i < |s| :: test(s[i])
  }

  lemma AllPassMeans<W>(items: seq<W>, test: W -> bool, w: W)
    requires AllPass(items, test) && w in items
    ensures test(w)
  {
    var i :| 0 <= i < |items| && items[i] == w;
  }

  lemma AllPassConcat<T>(a: seq<T>, b: seq<T>, test: T -> bool)
    requires AllPass(a, test) && AllPass(b, test)
    ensures AllPass(a + b, test)
  {
  }

  lemma AllPassFront<T>(x: T, s: seq<T>, test: T -> bool)
    requires test(x) && AllPass(s, test)
    ensures AllPass([x] + s, test)
  {
  }

  lemma {:induction false} FlatAllPass<T, U>(f: T -> seq<U>, s: seq<T>, test: U -> bool)
    requires forall i | 0 <= i < |s| :: AllPass(f(s[i]), test)
    ensures AllPass(Flat(f, s), test)
  {
    if s != [] {
      var n := |s| - 1;
      assert forall i | 0 <= i < n :: s[..n][i] == s[i];
      FlatAllPass(f, s[..n], test);
      assert AllPass(f(s[n]), test);
    }
  }

  /** Flattening lists that are permutations of each other gives permutations of each other. */
  lemma {:induction false} FlatPermutes<T, U>(f: T -> seq<U>, g: T -> seq<U>, s: seq<T>)
    requires forall i | 0 <= i < |s| :: multiset(f(s[i])) == multiset(g(s[i]))
    ensures multiset(Flat(f, s)) == multiset(Flat(g, s))
  {
    if s != [] {
      var n := |s| - 1;
      assert forall i | 0 <= i < n :: s[..n][i] == s[i];
      FlatPermutes(f, g, s[..n]);
    }
  }

  lemma {:induction false} FlatConcat<T, U>(f: T -> seq<U>, a: seq<T>, b: seq<T>)
    ensures Flat(f, a + b) == Flat(f, a) + Flat(f, b)
  {
    if b == [] {
      assert a + b == a;
    } else {
      var n := |b| - 1;
      assert (a + b)[..|a + b| - 1] == a + b[..n];
      FlatConcat(f, a, b[..n]);
    }
  }

  /** Two loops over a flattened list are three nested loops. */
  lemma {:induction false} FlatFlat<T, U, V>(f: U -> seq<V>, g: T -> seq<U>, h: T -> seq<V>, s: seq<T>)
    requires forall i | 0 <= i < |s| :: Flat(f, g(s[i])) == h(s[i])
    ensures Flat(f, Flat(g, s)) == Flat(h, s)
  {
    if s != [] {
      var n := |s| - 1;
      assert forall i | 0 <= i < n :: s[..n][i] == s[i];
      FlatFlat(f, g, h, s[..n]);
      FlatConcat(f, Flat(g, s[..n]), g(s[n]));
    }
  }

  /** Loops whose turns agree, over lists of the same length. */
  lemma {:induction false} FlatPointwise<S, T, U>(f: S -> seq<U>, g: T -> seq<U>, s: seq<S>, t: seq<T>)
    requires |s| == |t| && forall i | 0 <= i < |s| :: f(s[i]) == g(t[i])
    ensures Flat(f, s) == Flat(g, t)
  {
    if s != [] {
      var n := |s| - 1;
      assert forall i | 0 <= i < n :: s[..n][i] == s[i] && t[..n][i] == t[i];
      FlatPointwise(f, g, s[..n], t[..n]);
    }
  }

  /** `first` extended by one block for every item. */
  method ExtendByBlocks<T, U>(first: seq<U>, items: seq<T>, block: T -> seq<U>) returns (r: seq<U>)
    ensures r == first + Flat(block, items)
  {
    r := first;
    for i := 0 to |items|
      invariant r == first + Flat(block, items[..i])
    {
      FlatStep(block, items, i);
      assert first + Flat(block, items[..i]) + block(items[i]) == first + (Flat(block, items[..i]) + block(items[i]));
      r := r + block(items[i]);
    }
    assert items[..|items|] == items;
  }
}
