/** The main result about the benchmark's raw lists: whatever the producer flattens, the validators accept. */
module ProducerMeetsValidator {
  import opened Text
  import opened Sorting
  import opened Sequences
  import opened BenchmarkContract
  import opened ObservationIds
  import opened Observations
  import opened ObservationValidators
  import opened ProducerTheorems
  import opened ComponentTheorems

  /** Every wait of the flattened lists is on record. */
  ghost predicate AllOnRecord(parents: Durations, iw: seq<IdentityWait>, dw: seq<DecisionWait>) {
    && (forall w | w in iw :: w.id in parents && parents[w.id] == w.durationNs)
    && (forall w | w in dw :: w.id in parents && parents[w.id] == w.durationNs)
  }

  lemma IdentityWaitListed(p: Protocol, ids: Identities, caches: seq<string>, cache: string, i: nat)
    requires p.Valid() && cache in caches && i < p.Repetitions(cache)
    ensures IdentityWaitOf(ids, cache)(i) in Flat(IdentityWaitsOf(p, ids), caches)
  {
    var n :| 0 <= n < |caches| && caches[n] == cache;
    MapIn(IdentityWaitOf(ids, cache), Range(p.Repetitions(cache)), i);
    FlatHas(IdentityWaitsOf(p, ids), caches, n, IdentityWaitOf(ids, cache)(i));
  }

  lemma ScenarioWaitListed(c: Contract, p: Protocol, scs: Scenarios, caches: seq<string>, cache: string,
                           profile: string, i: nat, w: DecisionWait)
    requires p.Valid() && cache in caches && profile in c.profiles && i < p.Repetitions(cache)
    requires w in ScenarioWaits(scs, cache, profile)(i)
    ensures w in Flat(DecisionWaitsOf(c, p, scs), caches)
  {
    var n :| 0 <= n < |caches| && caches[n] == cache;
    var m :| 0 <= m < |c.profiles| && c.profiles[m] == profile;
    FlatHas(ScenarioWaits(scs, cache, profile), Range(p.Repetitions(cache)), i, w);
    FlatHas(ProfileWaits(p, scs, cache), c.profiles, m, w);
    FlatHas(DecisionWaitsOf(c, p, scs), caches, n, w);
  }

  lemma FingerprintFits(c: Contract, p: Protocol, ids: Identities, parents: Durations, cache: string, i: nat)
    requires p.Valid() && cache in CACHES && i < p.Repetitions(cache) && IdentityMember(c, Identity(ids, cache, i))
    requires AllOnRecord(parents, Flat(IdentityWaitsOf(p, ids), CACHES), [])
    ensures ComponentTest(parents)(FingerprintOf(ids, cache)(i))
  {
    IdentityWaitListed(p, ids, CACHES, cache, i);
    IdentityPieces(cache, i);
    var w := IdentityWaitOf(ids, cache)(i);
    assert w.id in parents && parents[w.id] == w.durationNs;
    var o := Identity(ids, cache, i);
    assert o.spans == [("fingerprint", o.identityWait.value)];
  }

  lemma ScenarioFits(c: Contract, p: Protocol, scs: Scenarios, parents: Durations, cache: string, profile: string,
                     i: nat)
    requires c.Valid() && p.Valid() && cache in CACHES && profile in c.profiles && i < p.Repetitions(cache)
    requires ScenarioMember(c, Scenario(scs, cache, profile, i), profile)
    requires AllOnRecord(parents, [], Flat(DecisionWaitsOf(c, p, scs), CACHES))
    ensures AllPass(ScenarioComponents(scs, cache, profile)(i), ComponentTest(parents))
  {
    var o := Scenario(scs, cache, profile, i);
    forall w | w in ScenarioWaits(scs, cache, profile)(i)
      ensures w.id in parents && parents[w.id] == w.durationNs
    {
      ScenarioWaitListed(c, p, scs, CACHES, cache, profile, i, w);
    }
    assert ParentsOnRecord(parents, o, cache, profile, i);
    forall k | 0 <= k < |o.spans|
      ensures ComponentTest(parents)(ComponentOf(cache, profile, i)(o.spans[k]))
    {
      SpanFits(c, parents, o, cache, profile, i, o.spans[k]);
    }
  }

  lemma FingerprintsFit(c: Contract, p: Protocol, ids: Identities, scs: Scenarios, parents: Durations, cache: string)
    requires c.Valid() && p.Valid() && Family(c, p, ids, scs) && cache in CACHES
    requires AllOnRecord(parents, Flat(IdentityWaitsOf(p, ids), CACHES), [])
    ensures AllPass(FingerprintsOf(p, ids, cache), ComponentTest(parents))
  {
    forall i: nat | i < p.Repetitions(cache)
      ensures ComponentTest(parents)(FingerprintOf(ids, cache)(i))
    {
      assert IdentityMember(c, Identity(ids, cache, i));
      FingerprintFits(c, p, ids, parents, cache, i);
    }
  }

  lemma ProfileFits(c: Contract, p: Protocol, ids: Identities, scs: Scenarios, parents: Durations, cache: string,
                    profile: string)
    requires c.Valid() && p.Valid() && Family(c, p, ids, scs) && cache in CACHES && profile in c.profiles
    requires AllOnRecord(parents, [], Flat(DecisionWaitsOf(c, p, scs), CACHES))
    ensures AllPass(ProfileComponents(p, scs, cache)(profile), ComponentTest(parents))
  {
    var turns := Range(p.Repetitions(cache));
    forall i | 0 <= i < |turns|
      ensures AllPass(ScenarioComponents(scs, cache, profile)(turns[i]), ComponentTest(parents))
    {
      assert ScenarioMember(c, Scenario(scs, cache, profile, i), profile);
      ScenarioFits(c, p, scs, parents, cache, profile, i);
    }
    FlatAllPass(ScenarioComponents(scs, cache, profile), turns, ComponentTest(parents));
  }

  lemma CacheFits(c: Contract, p: Protocol, ids: Identities, scs: Scenarios, parents: Durations, cache: string)
    requires c.Valid() && p.Valid() && Family(c, p, ids, scs) && cache in CACHES
    requires AllOnRecord(parents, Flat(IdentityWaitsOf(p, ids), CACHES), [])
    requires AllOnRecord(parents, [], Flat(DecisionWaitsOf(c, p, scs), CACHES))
    ensures AllPass(ComponentsOf(c, p, ids, scs)(cache), ComponentTest(parents))
  {
    FingerprintsFit(c, p, ids, scs, parents, cache);
    forall m | 0 <= m < |c.profiles|
      ensures AllPass(ProfileComponents(p, scs, cache)(c.profiles[m]), ComponentTest(parents))
    {
      ProfileFits(c, p, ids, scs, parents, cache, c.profiles[m]);
    }
    FlatAllPass(ProfileComponents(p, scs, cache), c.profiles, ComponentTest(parents));
    AllPassConcat(FingerprintsOf(p, ids, cache), Flat(ProfileComponents(p, scs, cache), c.profiles),
                  ComponentTest(parents));
  }

  // ---------- The sorted list ----------

  lemma PairLeIsTotalOrder()
    ensures IsTotalOrder(PairLe)
  {
    forall a: Pair, b: Pair, d: Pair
      ensures PairLe(a, b) || PairLe(b, a)
      ensures PairLe(a, b) && PairLe(b, a) ==> a == b
      ensures PairLe(a, b) && PairLe(b, d) ==> PairLe(a, d)
    {
      PairLeLaws(a, b, d);
    }
  }

  lemma PairLeLaws(a: Pair, b: Pair, d: Pair)
    ensures PairLe(a, b) || PairLe(b, a)
    ensures PairLe(a, b) && PairLe(b, a) ==> a == b
    ensures PairLe(a, b) && PairLe(b, d) ==> PairLe(a, d)
  {
    TextLeTotalOrder(a.0, b.0, d.0);
    TextLeTotalOrder(a.0, d.0, b.0);
    TextLeTotalOrder(b.0, d.0, a.0);
    TextLeTotalOrder(a.1, b.1, d.1);
  }

  lemma ComponentLeIsTotal()
    ensures IsTotalPreorder(ComponentLe)
  {
    forall a: Component, b: Component, d: Component
      ensures ComponentLe(a, b) || ComponentLe(b, a)
      ensures ComponentLe(a, b) && ComponentLe(b, d) ==> ComponentLe(a, d)
    {
      assert ComponentLe(a, b) == PairLe(PairOf(a), PairOf(b)) && ComponentLe(b, a) == PairLe(PairOf(b), PairOf(a));
      assert ComponentLe(b, d) == PairLe(PairOf(b), PairOf(d)) && ComponentLe(a, d) == PairLe(PairOf(a), PairOf(d));
      PairLeLaws(PairOf(a), PairOf(b), PairOf(d));
    }
  }

  /** Sorting components by parent and name sorts their pairs. */
  lemma SortedPairs(raw: seq<Component>, expected: seq<Pair>)
    requires Distinct(expected) && multiset(Map(PairOf, raw)) == multiset(expected)
    ensures var sorted := Sort(raw, ComponentLe);
            && multiset(sorted) == multiset(raw)
            && Distinct(Map(PairOf, sorted)) && Map(PairOf, sorted) == Sort(expected, PairLe)
  {
    var sorted := Sort(raw, ComponentLe);
    ComponentLeIsTotal();
    PairLeIsTotalOrder();
    SortPermutes(raw, ComponentLe);
    SortSorted(raw, ComponentLe);
    MapPermutes(PairOf, raw, sorted);
    DistinctPermutation(expected, Map(PairOf, sorted));
    assert IsSorted(Map(PairOf, sorted), PairLe) by {
      forall i, j | 0 <= i < j < |sorted|
        ensures PairLe(PairOf(sorted[i]), PairOf(sorted[j]))
      {
        assert ComponentLe(sorted[i], sorted[j]);
      }
    }
    SortOfSorted(Map(PairOf, sorted), PairLe);
    SortOfPermutation(Map(PairOf, sorted), expected, PairLe);
  }

  lemma ComponentsAccepted(c: Contract, p: Protocol, ids: Identities, scs: Scenarios)
    requires c.Valid() && p.Valid() && Family(c, p, ids, scs)
    ensures ComponentsOk(c, Flat(IdentityWaitsOf(p, ids), CACHES), Flat(DecisionWaitsOf(c, p, scs), CACHES),
                         Sort(Flat(ComponentsOf(c, p, ids, scs), CACHES), ComponentLe))
  {
    var iw, dw := Flat(IdentityWaitsOf(p, ids), CACHES), Flat(DecisionWaitsOf(c, p, scs), CACHES);
    var raw := Flat(ComponentsOf(c, p, ids, scs), CACHES);
    FlattenedPairsDistinct(c, p, ids, scs);
    CompletePairs(c, p, ids, scs, CACHES);
    SortedPairs(raw, ExpectedPairs(c, iw, dw));
    RawComponentsFit(c, p, ids, scs);
    AllPassPermuted(raw, Sort(raw, ComponentLe), ComponentTest(ParentDurations(IdentityDurations(iw), dw)));
  }

  lemma FlattenedPairsDistinct(c: Contract, p: Protocol, ids: Identities, scs: Scenarios)
    requires c.Valid() && p.Valid() && Family(c, p, ids, scs)
    ensures Distinct(ExpectedPairs(c, Flat(IdentityWaitsOf(p, ids), CACHES), Flat(DecisionWaitsOf(c, p, scs), CACHES)))
  {
    IdentityWaitsAccepted(c, p, ids, scs);
    DecisionWaitsAccepted(c, p, ids, scs);
    ValidatedIdsApart(c, p, Flat(IdentityWaitsOf(p, ids), CACHES), Flat(DecisionWaitsOf(c, p, scs), CACHES));
    ExpectedPairsDistinct(c, Flat(IdentityWaitsOf(p, ids), CACHES), Flat(DecisionWaitsOf(c, p, scs), CACHES));
  }

  lemma RawComponentsFit(c: Contract, p: Protocol, ids: Identities, scs: Scenarios)
    requires c.Valid() && p.Valid() && Family(c, p, ids, scs)
    ensures var iw, dw := Flat(IdentityWaitsOf(p, ids), CACHES), Flat(DecisionWaitsOf(c, p, scs), CACHES);
            AllPass(Flat(ComponentsOf(c, p, ids, scs), CACHES),
                    ComponentTest(ParentDurations(IdentityDurations(iw), dw)))
  {
    var iw, dw := Flat(IdentityWaitsOf(p, ids), CACHES), Flat(DecisionWaitsOf(c, p, scs), CACHES);
    IdentityWaitsAccepted(c, p, ids, scs);
    DecisionWaitsAccepted(c, p, ids, scs);
    ValidatedIdsApart(c, p, iw, dw);
    WaitsAreFound(iw, dw);
    var parents := ParentDurations(IdentityDurations(iw), dw);
    forall n | 0 <= n < |CACHES|
      ensures AllPass(ComponentsOf(c, p, ids, scs)(CACHES[n]), ComponentTest(parents))
    {
      assert CACHES[n] in CACHES;
      CacheFits(c, p, ids, scs, parents, CACHES[n]);
    }
    FlatAllPass(ComponentsOf(c, p, ids, scs), CACHES, ComponentTest(parents));
  }

  /** For every protocol and every full family of valid children, all five lists pass validation. */
  lemma FlattenedIsAccepted(c: Contract, p: Protocol, ids: Identities, scs: Scenarios)
    requires c.Valid() && p.Valid() && Family(c, p, ids, scs)
    ensures Total(c, p, ids, scs) && ObservationsOk(c, p, Flattened(c, p, ids, scs))
  {
    IdentityWaitsAccepted(c, p, ids, scs);
    DecisionWaitsAccepted(c, p, ids, scs);
    ComponentsAccepted(c, p, ids, scs);
    AcknowledgementsAccepted(c, p, ids, scs);
    ResourcesAccepted(c, p, ids, scs);
  }
}
