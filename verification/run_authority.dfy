/** The digests of all scenarios of a run must be different. */
module RunAuthority {
  import opened Sorting
  import opened Sequences
  import opened Observations
  import opened RunTasks

  type Key = (string, string, nat)

  ghost predicate NoneShared(a: seq<string>, b: seq<string>) {
    forall s :: !(s in a && s in b)
  }

  /** No digest occurs twice among the scenarios under these keys. */
  ghost predicate FreshOn(scs: Scenarios, keys: set<Key>)
    requires keys <= scs.Keys
  {
    && (forall key | key in keys :: Distinct(scs[key].authority))
    && (forall key, other | key in keys && other in keys && key != other ::
          NoneShared(scs[key].authority, scs[other].authority))
  }

  /** The list holds the digests under these keys. */
  ghost predicate Holds(scs: Scenarios, keys: set<Key>, authority: seq<string>)
    requires keys <= scs.Keys
  {
    forall s :: s in authority <==> exists key | key in keys :: s in scs[key].authority
  }

  lemma {:induction false} DistinctByCount(s: seq<string>)
    ensures |Elements(s)| <= |s| && (Distinct(s) <==> |Elements(s)| == |s|)
  {
    if s != [] {
      var n := |s| - 1;
      var front, last := s[..n], s[n];
      DistinctByCount(front);
      assert s == front + [last];
      assert Elements(s) == Elements(front) + {last};
      if last in front {
        var k :| 0 <= k < n && front[k] == last;
        assert s[k] == s[n];
        assert Elements(s) == Elements(front);
      } else {
        assert Distinct(s) <==> Distinct(front);
      }
    }
  }

  lemma DistinctTogether(a: seq<string>, b: seq<string>)
    ensures Distinct(a + b) <==> Distinct(a) && Distinct(b) && NoneShared(a, b)
  {
    var s := a + b;
    if Distinct(s) {
      forall i, j | 0 <= i < j < |a|
        ensures a[i] != a[j]
      {
        assert s[i] != s[j];
      }
      forall i, j | 0 <= i < j < |b|
        ensures b[i] != b[j]
      {
        assert s[|a| + i] != s[|a| + j];
      }
      forall i, j | 0 <= i < |a| && 0 <= j < |b|
        ensures a[i] != b[j]
      {
        assert s[i] != s[|a| + j];
      }
    } else if Distinct(a) && Distinct(b) && NoneShared(a, b) {
      assert forall x | x in a :: x !in b;
      DistinctConcat(a, b);
    }
  }

  lemma OneMoreKey(scs: Scenarios, keys: set<Key>, authority: seq<string>, key: Key)
    requires keys <= scs.Keys && key in scs && key !in keys && Holds(scs, keys, authority)
    ensures Holds(scs, keys + {key}, authority + scs[key].authority)
    ensures FreshOn(scs, keys + {key}) <==>
            FreshOn(scs, keys) && Distinct(scs[key].authority) && NoneShared(authority, scs[key].authority)
  {
    var more := scs[key].authority;
    if FreshOn(scs, keys + {key}) {
      forall s
        ensures !(s in authority && s in more)
      {
        if s in authority {
          var other :| other in keys && s in scs[other].authority;
          assert NoneShared(scs[other].authority, scs[key].authority);
        }
      }
    }
    if NoneShared(authority, more) {
      forall other | other in keys
        ensures NoneShared(scs[other].authority, more) && NoneShared(more, scs[other].authority)
      {
        forall s
          ensures !(s in scs[other].authority && s in more)
        {
          assert s in scs[other].authority ==> s in authority;
        }
      }
    }
  }

  /** Collecting all digests and counting them, in whatever order the dictionary is visited. */
  method FreshAuthority(scs: Scenarios) returns (ok: bool)
    ensures ok <==> FreshOn(scs, scs.Keys)
  {
    var left, authority: seq<string> := scs.Keys, [];
    while left != {}
      invariant left <= scs.Keys
      invariant Holds(scs, scs.Keys - left, authority)
      invariant Distinct(authority) <==> FreshOn(scs, scs.Keys - left)
      decreases left
    {
      var key :| key in left;
      OneMoreKey(scs, scs.Keys - left, authority, key);
      DistinctTogether(authority, scs[key].authority);
      assert scs.Keys - (left - {key}) == scs.Keys - left + {key};
      authority := authority + scs[key].authority;
      left := left - {key};
    }
    assert scs.Keys - left == scs.Keys;
    DistinctByCount(authority);
    ok := |authority| == |Elements(authority)|;
  }
}
