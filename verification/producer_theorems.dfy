/** What the producer flattens, the validators accept. */
module ProducerTheorems {
  import opened Wrappers
  import opened Text
  import opened Sorting
  import opened Sequences
  import opened BenchmarkContract
  import opened ObservationIds
  import opened ChildObservations
  import opened Observations
  import opened ObservationValidators

  /** An identity child with a full set of acknowledgements. */
  predicate IdentityMember(c: Contract, o: Child) {
    ObservationOk(o, c) && Capped(o) && o.profile.None? && Map(SpanName, o.acknowledgements) == c.actions
  }

  predicate ScenarioMember(c: Contract, o: Child, profile: string) {
    ObservationOk(o, c) && Capped(o) && o.profile == Some(profile)
  }

  /** A full family of valid observations. */
  ghost predicate Family(c: Contract, p: Protocol, ids: Identities, scs: Scenarios)
    requires p.Valid()
  {
    && (forall cache, i: nat | cache in CACHES && i < p.Repetitions(cache) ::
          (cache, i) in ids && IdentityMember(c, Identity(ids, cache, i)))
    && (forall cache, profile, i: nat | cache in CACHES && profile in c.profiles && i < p.Repetitions(cache) ::
          (cache, profile, i) in scs && ScenarioMember(c, Scenario(scs, cache, profile, i), profile))
  }

  // ---------- Identity waits ----------

  lemma IdentityWaitsAccepted(c: Contract, p: Protocol, ids: Identities, scs: Scenarios)
    requires c.Valid() && p.Valid() && Family(c, p, ids, scs)
    ensures IdentityWaitsOk(p, Flat(IdentityWaitsOf(p, ids), CACHES))
  {
    var f := IdentityWaitsOf(p, ids);
    forall n | 0 <= n < |CACHES|
      ensures Map(IdentityWaitId, f(CACHES[n])) == IdentityIdsOf(p)(CACHES[n])
      ensures AllPass(f(CACHES[n]), IdentityWaitOk)
    {
      var cache := CACHES[n];
      assert cache in CACHES;
      forall i: nat | i < p.Repetitions(cache)
        ensures IdentityWaitOk(f(cache)[i])
      {
        assert IdentityMember(c, Identity(ids, cache, i));
        IdentityPieces(cache, i);
      }
    }
    MapFlat(IdentityWaitId, f, IdentityIdsOf(p), CACHES);
    FlatAllPass(f, CACHES, IdentityWaitOk);
    DistinctIdentityIds(p);
  }

  // ---------- Decision waits ----------

  /** What the waits of a scenario child are. */
  ghost predicate Measured(c: Contract, o: Child, profile: string) {
    && o.initialDecision.Some? && IsDuration(o.initialDecision.value)
    && |o.laterDecisions| == c.rounds(profile)
    && forall k | 0 <= k < |o.laterDecisions| :: o.laterDecisions[k].0 == k + 1 && IsDuration(o.laterDecisions[k].1)
  }

  lemma MemberIsMeasured(c: Contract, o: Child, profile: string)
    requires ScenarioMember(c, o, profile)
    ensures Measured(c, o, profile)
  {
    var rounds := Map(RoundOf, o.laterDecisions);
    assert forall k | 0 <= k < |rounds| :: rounds[k] == o.laterDecisions[k].0;
  }

  lemma LaterWaitAccepted(c: Contract, o: Child, cache: string, profile: string, i: nat, k: nat)
    requires cache in CACHES && profile in c.profiles && IsWord(profile)
    requires Measured(c, o, profile) && k < |o.laterDecisions| && |o.laterDecisions| <= MAX_SAFE_INTEGER
    ensures var w := LaterWaitOf(cache, profile, i)(o.laterDecisions[k]);
            DecisionWaitTest(c)(w) && w.id == LaterIdOf(cache, profile, i)(k)
  {
    LaterPieces(cache, profile, i, k + 1);
  }

  lemma ScenarioWaitsAccepted(c: Contract, o: Child, cache: string, profile: string, i: nat)
    requires cache in CACHES && profile in c.profiles && IsWord(profile)
    requires Measured(c, o, profile) && |o.laterDecisions| <= MAX_SAFE_INTEGER
    ensures var ws := [InitialWait(o, cache, profile, i)] + Map(LaterWaitOf(cache, profile, i), o.laterDecisions);
            Map(DecisionWaitId, ws) == ScenarioIdsOf(c, cache, profile)(i) && AllPass(ws, DecisionWaitTest(c))
  {
    var later := Map(LaterWaitOf(cache, profile, i), o.laterDecisions);
    InitialPieces(cache, profile, i);
    forall k: nat | k < |later|
      ensures DecisionWaitTest(c)(later[k]) && later[k].id == LaterIdOf(cache, profile, i)(k)
    {
      LaterWaitAccepted(c, o, cache, profile, i, k);
    }
    var first := InitialWait(o, cache, profile, i);
    assert DecisionWaitTest(c)(first);
    AllPassFront(first, later, DecisionWaitTest(c));
    assert Map(DecisionWaitId, later) == Map(LaterIdOf(cache, profile, i), Range(c.rounds(profile)));
    MapAppend(DecisionWaitId, [first], later);
  }

  lemma DecisionWaitsAccepted(c: Contract, p: Protocol, ids: Identities, scs: Scenarios)
    requires c.Valid() && p.Valid() && Family(c, p, ids, scs)
    ensures DecisionWaitsOk(c, p, Flat(DecisionWaitsOf(c, p, scs), CACHES))
  {
    var f := DecisionWaitsOf(c, p, scs);
    forall n | 0 <= n < |CACHES|
      ensures Map(DecisionWaitId, f(CACHES[n])) == DecisionIdsOf(c, p)(CACHES[n])
      ensures AllPass(f(CACHES[n]), DecisionWaitTest(c))
    {
      var cache := CACHES[n];
      assert cache in CACHES;
      forall m | 0 <= m < |c.profiles|
        ensures Map(DecisionWaitId, ProfileWaits(p, scs, cache)(c.profiles[m])) ==
                ProfileIdsOf(c, p, cache)(c.profiles[m])
        ensures AllPass(ProfileWaits(p, scs, cache)(c.profiles[m]), DecisionWaitTest(c))
      {
        ProfileWaitsAccepted(c, p, ids, scs, cache, c.profiles[m]);
      }
      MapFlat(DecisionWaitId, ProfileWaits(p, scs, cache), ProfileIdsOf(c, p, cache), c.profiles);
      FlatAllPass(ProfileWaits(p, scs, cache), c.profiles, DecisionWaitTest(c));
    }
    MapFlat(DecisionWaitId, f, DecisionIdsOf(c, p), CACHES);
    FlatAllPass(f, CACHES, DecisionWaitTest(c));
    DistinctDecisionIds(c, p);
  }

  lemma ProfileWaitsAccepted(c: Contract, p: Protocol, ids: Identities, scs: Scenarios, cache: string, profile: string)
    requires c.Valid() && p.Valid() && Family(c, p, ids, scs) && cache in CACHES && profile in c.profiles
    ensures Map(DecisionWaitId, ProfileWaits(p, scs, cache)(profile)) == ProfileIdsOf(c, p, cache)(profile)
    ensures AllPass(ProfileWaits(p, scs, cache)(profile), DecisionWaitTest(c))
  {
    var turns := Range(p.Repetitions(cache));
    forall i | 0 <= i < |turns|
      ensures Map(DecisionWaitId, ScenarioWaits(scs, cache, profile)(turns[i])) ==
              ScenarioIdsOf(c, cache, profile)(turns[i])
      ensures AllPass(ScenarioWaits(scs, cache, profile)(turns[i]), DecisionWaitTest(c))
    {
      assert ScenarioMember(c, Scenario(scs, cache, profile, i), profile);
      MemberIsMeasured(c, Scenario(scs, cache, profile, i), profile);
      NamesAreWords(c.profiles, profile);
      ScenarioWaitsAccepted(c, Scenario(scs, cache, profile, i), cache, profile, i);
    }
    MapFlat(DecisionWaitId, ScenarioWaits(scs, cache, profile), ScenarioIdsOf(c, cache, profile), turns);
    FlatAllPass(ScenarioWaits(scs, cache, profile), turns, DecisionWaitTest(c));
  }

  // ---------- Acknowledgements ----------

  lemma {:induction false} DurationIsThere(spans: seq<Span>, name: string)
    requires name in Map(SpanName, spans)
    ensures exists k | 0 <= k < |spans| :: spans[k].1 == DurationOf(spans, name)
  {
    var n := |spans| - 1;
    if spans[n].0 != name {
      var k :| 0 <= k < |spans| && Map(SpanName, spans)[k] == name;
      assert Map(SpanName, spans[..n])[k] == name;
      DurationIsThere(spans[..n], name);
    }
  }

  lemma AckAccepted(c: Contract, o: Child, ids: Identities, cache: string, action: string, i: nat)
    requires c.Valid() && cache in CACHES && action in c.actions
    requires IdentityMember(c, Identity(ids, cache, i))
    ensures AckTest(c)(AckOf(ids, cache, action)(i))
  {
    NamesAreWords(c.actions, action);
    AckPieces(cache, action, i);
    DurationIsThere(Identity(ids, cache, i).acknowledgements, action);
  }

  lemma AcknowledgementsAccepted(c: Contract, p: Protocol, ids: Identities, scs: Scenarios)
    requires c.Valid() && p.Valid() && Family(c, p, ids, scs)
    ensures AcknowledgementsOk(c, p, Flat(AcksOf(c, p, ids), CACHES))
  {
    var f := AcksOf(c, p, ids);
    forall n | 0 <= n < |CACHES|
      ensures Map(AckIdentifier, f(CACHES[n])) == AckIdsOf(c, p)(CACHES[n])
      ensures AllPass(f(CACHES[n]), AckTest(c))
    {
      var cache := CACHES[n];
      assert cache in CACHES;
      forall m | 0 <= m < |c.actions|
        ensures Map(AckIdentifier, ActionAcks(p, ids, cache)(c.actions[m])) == ActionIdsOf(p, cache)(c.actions[m])
        ensures AllPass(ActionAcks(p, ids, cache)(c.actions[m]), AckTest(c))
      {
        forall i: nat | i < p.Repetitions(cache)
          ensures AckTest(c)(ActionAcks(p, ids, cache)(c.actions[m])[i])
        {
          assert IdentityMember(c, Identity(ids, cache, i));
          AckAccepted(c, Identity(ids, cache, i), ids, cache, c.actions[m], i);
        }
      }
      MapFlat(AckIdentifier, ActionAcks(p, ids, cache), ActionIdsOf(p, cache), c.actions);
      FlatAllPass(ActionAcks(p, ids, cache), c.actions, AckTest(c));
    }
    MapFlat(AckIdentifier, f, AckIdsOf(c, p), CACHES);
    FlatAllPass(f, CACHES, AckTest(c));
    DistinctAckIds(c, p);
  }

  // ---------- Resources ----------

  lemma MemberResource(c: Contract, o: Child, cache: string, profile: Option<string>, i: nat)
    requires c.Valid() && cache in CACHES && IsStratum(c, profile) && ObservationOk(o, c) && Capped(o)
    ensures ResourceOk(ResourceOf(o, cache, profile, i))
  {
    StratumIsWord(c, profile);
    ResourcePieces(cache, profile, i);
  }

  lemma TurnResourcesAccepted(c: Contract, p: Protocol, ids: Identities, scs: Scenarios, cache: string, i: nat)
    requires c.Valid() && p.Valid() && Family(c, p, ids, scs) && cache in CACHES && i < p.Repetitions(cache)
    ensures var rs := TurnResources(c, ids, scs, cache)(i);
            AllPass(rs, ResourceOk) && Map(ResourceIdentifier, rs) == TurnResourceIds(c, cache)(i)
  {
    var first := ResourceOf(Identity(ids, cache, i), cache, None, i);
    assert IdentityMember(c, Identity(ids, cache, i));
    MemberResource(c, Identity(ids, cache, i), cache, None, i);
    var rest := Map(ProfileResource(scs, cache, i), c.profiles);
    forall m: nat | m < |rest|
      ensures ResourceOk(rest[m])
    {
      assert c.profiles[m] in c.profiles;
      assert ScenarioMember(c, Scenario(scs, cache, c.profiles[m], i), c.profiles[m]);
      MemberResource(c, Scenario(scs, cache, c.profiles[m], i), cache, Some(c.profiles[m]), i);
    }
    AllPassFront(first, rest, ResourceOk);
    MapAppend(ResourceIdentifier, [first], rest);
    assert Map(ResourceIdentifier, rest) == Map(ProfileResourceId(cache, i), c.profiles);
  }

  lemma RawResources(c: Contract, p: Protocol, ids: Identities, scs: Scenarios)
    requires c.Valid() && p.Valid() && Family(c, p, ids, scs)
    ensures var rs := Flat(ResourcesOf(c, p, ids, scs), CACHES);
            AllPass(rs, ResourceOk) && Map(ResourceIdentifier, rs) == Flat(ResourceIdsOf(c, p), CACHES)
  {
    var f := ResourcesOf(c, p, ids, scs);
    forall n | 0 <= n < |CACHES|
      ensures AllPass(f(CACHES[n]), ResourceOk)
              && Map(ResourceIdentifier, f(CACHES[n])) == ResourceIdsOf(c, p)(CACHES[n])
    {
      CacheResources(c, p, ids, scs, CACHES[n]);
    }
    FlatAllPass(f, CACHES, ResourceOk);
    MapFlat(ResourceIdentifier, f, ResourceIdsOf(c, p), CACHES);
  }

  lemma BothCachesMeasured(c: Contract, p: Protocol, ids: Identities, scs: Scenarios)
    requires c.Valid() && p.Valid() && Family(c, p, ids, scs)
    ensures {"cold", "warm"} <= StatesOf(Flat(ResourcesOf(c, p, ids, scs), CACHES))
  {
    var f := ResourcesOf(c, p, ids, scs);
    forall n: nat | n < |CACHES|
      ensures CACHES[n] in StatesOf(Flat(f, CACHES))
    {
      CacheResources(c, p, ids, scs, CACHES[n]);
      var r :| r in f(CACHES[n]) && r.cacheState == CACHES[n];
      FlatHas(f, CACHES, n, r);
    }
    assert CACHES[0] == "cold" && CACHES[1] == "warm";
  }

  lemma CacheResources(c: Contract, p: Protocol, ids: Identities, scs: Scenarios, cache: string)
    requires c.Valid() && p.Valid() && Family(c, p, ids, scs) && cache in CACHES
    ensures var rs := ResourcesOf(c, p, ids, scs)(cache);
            && AllPass(rs, ResourceOk) && Map(ResourceIdentifier, rs) == ResourceIdsOf(c, p)(cache)
            && exists r | r in rs :: r.cacheState == cache
  {
    var g := TurnResources(c, ids, scs, cache);
    var turns := Range(p.Repetitions(cache));
    forall i | 0 <= i < |turns|
      ensures AllPass(g(turns[i]), ResourceOk)
              && Map(ResourceIdentifier, g(turns[i])) == TurnResourceIds(c, cache)(turns[i])
    {
      TurnResourcesAccepted(c, p, ids, scs, cache, i);
    }
    FlatAllPass(g, turns, ResourceOk);
    MapFlat(ResourceIdentifier, g, TurnResourceIds(c, cache), turns);
    var r := ResourceOf(Identity(ids, cache, 0), cache, None, 0);
    assert r in g(turns[0]) by {
      assert g(turns[0])[0] == r;
    }
    FlatHas(g, turns, 0, r);
  }

  /** A passing list passes in any order. */
  lemma AllPassPermuted<T>(s: seq<T>, t: seq<T>, test: T -> bool)
    requires AllPass(s, test) && multiset(s) == multiset(t)
    ensures AllPass(t, test)
  {
    forall i | 0 <= i < |t|
      ensures test(t[i])
    {
      assert t[i] in multiset(t);
      assert t[i] in s;
    }
  }

  lemma ResourcesAccepted(c: Contract, p: Protocol, ids: Identities, scs: Scenarios)
    requires c.Valid() && p.Valid() && Family(c, p, ids, scs)
    ensures ResourcesOk(Sort(Flat(ResourcesOf(c, p, ids, scs), CACHES), ResourceLe))
  {
    RawResources(c, p, ids, scs);
    BothCachesMeasured(c, p, ids, scs);
    DistinctResourceIds(c, p);
    SortedResources(Flat(ResourcesOf(c, p, ids, scs), CACHES));
  }

  lemma ResourceLeIsTotal()
    ensures IsTotalPreorder(ResourceLe)
  {
    forall a: Resource, b: Resource, d: Resource
      ensures ResourceLe(a, b) || ResourceLe(b, a)
      ensures ResourceLe(a, b) && ResourceLe(b, d) ==> ResourceLe(a, d)
    {
      TextLeTotalOrder(a.id, b.id, d.id);
    }
  }

  lemma SortedIds(raw: seq<Resource>)
    requires Distinct(Map(ResourceIdentifier, raw))
    ensures var ids := Map(ResourceIdentifier, Sort(raw, ResourceLe)); Distinct(ids) && Sort(ids, TextLe) == ids
  {
    var sorted := Sort(raw, ResourceLe);
    ResourceLeIsTotal();
    SortPermutes(raw, ResourceLe);
    SortSorted(raw, ResourceLe);
    MapPermutes(ResourceIdentifier, raw, sorted);
    DistinctPermutation(Map(ResourceIdentifier, raw), Map(ResourceIdentifier, sorted));
    SortOfSorted(Map(ResourceIdentifier, sorted), TextLe);
  }

  lemma StatesPermuted(a: seq<Resource>, b: seq<Resource>)
    requires multiset(a) == multiset(b)
    ensures StatesOf(a) <= StatesOf(b)
  {
    forall r | r in a
      ensures r in b
    {
      assert r in multiset(a);
    }
  }

  /** Sorting by ID makes a list of good resources with distinct IDs acceptable. */
  lemma SortedResources(raw: seq<Resource>)
    requires AllPass(raw, ResourceOk) && Distinct(Map(ResourceIdentifier, raw)) && {"cold", "warm"} <= StatesOf(raw)
    ensures ResourcesOk(Sort(raw, ResourceLe))
  {
    var sorted := Sort(raw, ResourceLe);
    SortPermutes(raw, ResourceLe);
    AllPassPermuted(raw, sorted, ResourceOk);
    SortedIds(raw);
    StatesPermuted(raw, sorted);
    OnlyTwoStates(sorted);
    assert "cold" in StatesOf(sorted);
  }

  lemma OnlyTwoStates(resources: seq<Resource>)
    requires AllPass(resources, ResourceOk)
    ensures StatesOf(resources) <= {"cold", "warm"}
  {
    forall r | r in resources
      ensures r.cacheState == "cold" || r.cacheState == "warm"
    {
      var i :| 0 <= i < |resources| && resources[i] == r;
      assert ResourceOk(resources[i]);
    }
  }
}
