/** The flattened components are the expected ones, and each fits into its parent. */
module ComponentTheorems {
  import opened Text
  import opened Sorting
  import opened Sequences
  import opened BenchmarkContract
  import opened ObservationIds
  import opened ChildObservations
  import opened Observations
  import opened ObservationValidators
  import opened ProducerTheorems

  function PlacedPair(cache: string, profile: string, i: nat): string -> Pair {
    name => Placed(cache, profile, i, name)
  }

  lemma PlacedInitial(cache: string, profile: string, i: nat, name: string)
    requires IsWord(name)
    ensures PlacedPair(cache, profile, i)(InitialName(name)) == (InitialId(cache, profile, i), name)
  {
    InitialNameParts(name);
    assert ["initial", name][1..] == [name];
  }

  lemma PlacedLater(cache: string, profile: string, i: nat, k: nat, name: string)
    requires IsWord(name)
    ensures PlacedPair(cache, profile, i)(LaterName(k)(name)) == (LaterId(cache, profile, i, k), name)
  {
    LaterNameParts(k, name);
    DecimalRoundTrip(k);
    assert ["later", Decimal(k), name][2..] == [name];
  }

  // ---------- One scenario ----------

  function LaterPairs(c: Contract, cache: string, profile: string, i: nat): nat -> seq<Pair> {
    (k: nat) => Map(PairWith(LaterId(cache, profile, i, k + 1)), c.LaterNames(profile, k + 1))
  }

  lemma LaterNamesAreWords(c: Contract, profile: string, k: nat)
    requires c.Valid()
    ensures Words(c.LaterNames(profile, k)) && Distinct(c.LaterNames(profile, k))
  {
  }

  lemma PlacedInitials(cache: string, profile: string, i: nat, names: seq<string>)
    requires Words(names)
    ensures Map(PlacedPair(cache, profile, i), Map(InitialName, names)) ==
            Map(PairWith(InitialId(cache, profile, i)), names)
  {
    forall n: nat | n < |names|
      ensures PlacedPair(cache, profile, i)(InitialName(names[n])) == (InitialId(cache, profile, i), names[n])
    {
      PlacedInitial(cache, profile, i, names[n]);
    }
  }

  lemma PlacedLaters(cache: string, profile: string, i: nat, k: nat, names: seq<string>)
    requires Words(names)
    ensures Map(PlacedPair(cache, profile, i), Map(LaterName(k), names)) ==
            Map(PairWith(LaterId(cache, profile, i, k)), names)
  {
    forall n: nat | n < |names|
      ensures PlacedPair(cache, profile, i)(LaterName(k)(names[n])) == (LaterId(cache, profile, i, k), names[n])
    {
      PlacedLater(cache, profile, i, k, names[n]);
    }
  }

  lemma TurnOf(c: Contract, cache: string, profile: string, i: nat, k: nat, turn: nat, names: seq<string>)
    requires turn == k + 1 && names == c.LaterNames(profile, turn)
    ensures LaterNamesOf(c, profile)(k) == Map(LaterName(turn), names)
    ensures LaterPairs(c, cache, profile, i)(k) == Map(PairWith(LaterId(cache, profile, i, turn)), names)
  {
  }

  lemma PlacedTurn(c: Contract, cache: string, profile: string, i: nat, k: nat)
    requires c.Valid()
    ensures Map(PlacedPair(cache, profile, i), LaterNamesOf(c, profile)(k)) == LaterPairs(c, cache, profile, i)(k)
  {
    LaterNamesAreWords(c, profile, k + 1);
    var names, turn := c.LaterNames(profile, k + 1), k + 1;
    PlacedLaters(cache, profile, i, turn, names);
    TurnOf(c, cache, profile, i, k, turn, names);
  }

  /** Placing the expected component names gives the pairs the validator expects of the waits. */
  lemma PlacedNames(c: Contract, cache: string, profile: string, i: nat)
    requires c.Valid()
    ensures Map(PlacedPair(cache, profile, i), ComponentNames(c, profile)) ==
            Map(PairWith(InitialId(cache, profile, i)), c.initialComponents) +
            Flat(LaterPairs(c, cache, profile, i), Range(c.rounds(profile)))
  {
    var place := PlacedPair(cache, profile, i);
    var turns := Range(c.rounds(profile));
    PlacedInitials(cache, profile, i, c.initialComponents);
    forall k | 0 <= k < |turns|
      ensures Map(place, LaterNamesOf(c, profile)(turns[k])) == LaterPairs(c, cache, profile, i)(turns[k])
    {
      PlacedTurn(c, cache, profile, i, k);
    }
    MapFlat(place, LaterNamesOf(c, profile), LaterPairs(c, cache, profile, i), turns);
    MapAppend(place, Map(InitialName, c.initialComponents), Flat(LaterNamesOf(c, profile), turns));
  }

  lemma LaterExpected(c: Contract, cache: string, profile: string, i: nat, r: (nat, int), k: nat)
    requires r.0 == k + 1
    ensures WaitPairs(c)(LaterWaitOf(cache, profile, i)(r)) == LaterPairs(c, cache, profile, i)(k)
  {
  }

  /** The pairs the validator expects of the waits of one scenario. */
  lemma ScenarioExpected(c: Contract, o: Child, cache: string, profile: string, i: nat)
    requires Measured(c, o, profile)
    ensures Flat(WaitPairs(c),
                 [InitialWait(o, cache, profile, i)] + Map(LaterWaitOf(cache, profile, i), o.laterDecisions)) ==
            Map(PairWith(InitialId(cache, profile, i)), c.initialComponents) +
            Flat(LaterPairs(c, cache, profile, i), Range(c.rounds(profile)))
  {
    var first := InitialWait(o, cache, profile, i);
    var later := Map(LaterWaitOf(cache, profile, i), o.laterDecisions);
    var turns := Range(c.rounds(profile));
    FlatConcat(WaitPairs(c), [first], later);
    FlatSingle(WaitPairs(c), first);
    forall k | 0 <= k < |later|
      ensures WaitPairs(c)(later[k]) == LaterPairs(c, cache, profile, i)(turns[k])
    {
      LaterExpected(c, cache, profile, i, o.laterDecisions[k], k);
    }
    FlatPointwise(WaitPairs(c), LaterPairs(c, cache, profile, i), later, turns);
  }

  lemma ScenarioNames(c: Contract, o: Child, profile: string)
    requires ScenarioMember(c, o, profile)
    ensures multiset(Map(SpanName, o.spans)) == multiset(ComponentNames(c, profile))
  {
    SortPermutes(ComponentNames(c, profile), TextLe);
  }

  ghost predicate SamePairs(c: Contract, components: seq<Component>, waits: seq<DecisionWait>) {
    multiset(Map(PairOf, components)) == multiset(Flat(WaitPairs(c), waits))
  }

  lemma ScenarioPairs(c: Contract, scs: Scenarios, cache: string, profile: string, i: nat)
    requires c.Valid() && ScenarioMember(c, Scenario(scs, cache, profile, i), profile)
    ensures SamePairs(c, ScenarioComponents(scs, cache, profile)(i), ScenarioWaits(scs, cache, profile)(i))
  {
    var o := Scenario(scs, cache, profile, i);
    var names := Map(SpanName, o.spans);
    ScenarioNames(c, o, profile);
    MemberIsMeasured(c, o, profile);
    MapPermutes(PlacedPair(cache, profile, i), names, ComponentNames(c, profile));
    PlacedNames(c, cache, profile, i);
    ScenarioExpected(c, o, cache, profile, i);
    var components := ScenarioComponents(scs, cache, profile)(i);
    assert Map(PairOf, components) == Map(PlacedPair(cache, profile, i), names);
  }

  // ---------- All scenarios ----------

  /** What agrees turn by turn agrees for the whole loop. */
  lemma {:induction false} NestedPairs<T>(c: Contract, f: T -> seq<Component>, g: T -> seq<DecisionWait>, s: seq<T>)
    requires forall i | 0 <= i < |s| :: SamePairs(c, f(s[i]), g(s[i]))
    ensures SamePairs(c, Flat(f, s), Flat(g, s))
  {
    if s != [] {
      var n := |s| - 1;
      assert forall i | 0 <= i < n :: s[..n][i] == s[i];
      NestedPairs(c, f, g, s[..n]);
      MapAppend(PairOf, Flat(f, s[..n]), f(s[n]));
      FlatConcat(WaitPairs(c), Flat(g, s[..n]), g(s[n]));
      assert SamePairs(c, f(s[n]), g(s[n]));
    }
  }

  lemma CachePairs(c: Contract, p: Protocol, ids: Identities, scs: Scenarios, cache: string)
    requires c.Valid() && p.Valid() && Family(c, p, ids, scs) && cache in CACHES
    ensures SamePairs(c, Flat(ProfileComponents(p, scs, cache), c.profiles), DecisionWaitsOf(c, p, scs)(cache))
  {
    forall m | 0 <= m < |c.profiles|
      ensures SamePairs(c, ProfileComponents(p, scs, cache)(c.profiles[m]), ProfileWaits(p, scs, cache)(c.profiles[m]))
    {
      var profile := c.profiles[m];
      assert profile in c.profiles;
      var turns := Range(p.Repetitions(cache));
      forall i | 0 <= i < |turns|
        ensures SamePairs(c, ScenarioComponents(scs, cache, profile)(turns[i]),
                          ScenarioWaits(scs, cache, profile)(turns[i]))
      {
        assert ScenarioMember(c, Scenario(scs, cache, profile, i), profile);
        ScenarioPairs(c, scs, cache, profile, i);
      }
      NestedPairs(c, ScenarioComponents(scs, cache, profile), ScenarioWaits(scs, cache, profile), turns);
    }
    NestedPairs(c, ProfileComponents(p, scs, cache), ProfileWaits(p, scs, cache), c.profiles);
  }

  lemma FingerprintPairs(p: Protocol, ids: Identities, cache: string)
    requires p.Valid()
    ensures Map(PairOf, FingerprintsOf(p, ids, cache)) == Map(FingerprintPair, IdentityWaitsOf(p, ids)(cache))
  {
  }

  /** Adding one cache state to lists that agree so far. */
  lemma AddCache(c: Contract, before: seq<Component>, fingerprints: seq<Component>, scenarios: seq<Component>,
                 iw: seq<IdentityWait>, iw': seq<IdentityWait>, dw: seq<DecisionWait>, dw': seq<DecisionWait>)
    requires multiset(Map(PairOf, before)) == multiset(ExpectedPairs(c, iw, dw))
    requires Map(PairOf, fingerprints) == Map(FingerprintPair, iw') && SamePairs(c, scenarios, dw')
    ensures multiset(Map(PairOf, before + (fingerprints + scenarios))) == multiset(ExpectedPairs(c, iw + iw', dw + dw'))
  {
    MapAppend(PairOf, fingerprints, scenarios);
    MapAppend(PairOf, before, fingerprints + scenarios);
    MapAppend(FingerprintPair, iw, iw');
    FlatConcat(WaitPairs(c), dw, dw');
  }

  /** What the loop over the cache states appends for one of them. */
  ghost predicate CacheAgrees(c: Contract, components: seq<Component>, iw: seq<IdentityWait>, dw: seq<DecisionWait>) {
    exists n | 0 <= n <= |components| ::
      Map(PairOf, components[..n]) == Map(FingerprintPair, iw) && SamePairs(c, components[n..], dw)
  }

  lemma CachesAgree(c: Contract, before: seq<Component>, components: seq<Component>,
                    iw: seq<IdentityWait>, iw': seq<IdentityWait>, dw: seq<DecisionWait>, dw': seq<DecisionWait>)
    requires multiset(Map(PairOf, before)) == multiset(ExpectedPairs(c, iw, dw)) && CacheAgrees(c, components, iw', dw')
    ensures multiset(Map(PairOf, before + components)) == multiset(ExpectedPairs(c, iw + iw', dw + dw'))
  {
    var n :| 0 <= n <= |components|
             && Map(PairOf, components[..n]) == Map(FingerprintPair, iw') && SamePairs(c, components[n..], dw');
    assert components == components[..n] + components[n..];
    AddCache(c, before, components[..n], components[n..], iw, iw', dw, dw');
  }

  /** The loop over the cache states. */
  lemma {:induction false} AllPairs(c: Contract, components: string -> seq<Component>, iw: string -> seq<IdentityWait>,
                                    dw: string -> seq<DecisionWait>, caches: seq<string>)
    requires forall n | 0 <= n < |caches| :: CacheAgrees(c, components(caches[n]), iw(caches[n]), dw(caches[n]))
    ensures multiset(Map(PairOf, Flat(components, caches))) ==
            multiset(ExpectedPairs(c, Flat(iw, caches), Flat(dw, caches)))
  {
    if caches != [] {
      var n := |caches| - 1;
      var front := caches[..n];
      assert forall k | 0 <= k < n :: front[k] == caches[k];
      AllPairs(c, components, iw, dw, front);
      CachesAgree(c, Flat(components, front), components(caches[n]),
                  Flat(iw, front), iw(caches[n]), Flat(dw, front), dw(caches[n]));
    }
  }

  lemma OneCache(c: Contract, p: Protocol, ids: Identities, scs: Scenarios, cache: string)
    requires c.Valid() && p.Valid() && Family(c, p, ids, scs) && cache in CACHES
    ensures CacheAgrees(c, ComponentsOf(c, p, ids, scs)(cache), IdentityWaitsOf(p, ids)(cache),
                        DecisionWaitsOf(c, p, scs)(cache))
  {
    CachePairs(c, p, ids, scs, cache);
    FingerprintPairs(p, ids, cache);
    var prints, rest := FingerprintsOf(p, ids, cache), Flat(ProfileComponents(p, scs, cache), c.profiles);
    assert (prints + rest)[..|prints|] == prints && (prints + rest)[|prints|..] == rest;
  }

  lemma CompletePairs(c: Contract, p: Protocol, ids: Identities, scs: Scenarios, caches: seq<string>)
    requires c.Valid() && p.Valid() && Family(c, p, ids, scs) && caches == CACHES
    ensures multiset(Map(PairOf, Flat(ComponentsOf(c, p, ids, scs), caches))) ==
            multiset(ExpectedPairs(c, Flat(IdentityWaitsOf(p, ids), caches), Flat(DecisionWaitsOf(c, p, scs), caches)))
  {
    forall n | 0 <= n < |caches|
      ensures CacheAgrees(c, ComponentsOf(c, p, ids, scs)(caches[n]), IdentityWaitsOf(p, ids)(caches[n]),
                          DecisionWaitsOf(c, p, scs)(caches[n]))
    {
      OneCache(c, p, ids, scs, caches[n]);
    }
    AllPairs(c, ComponentsOf(c, p, ids, scs), IdentityWaitsOf(p, ids), DecisionWaitsOf(c, p, scs), caches);
  }

  // ---------- The expected pairs are distinct ----------

  lemma WaitPairsDistinct(c: Contract, w: DecisionWait)
    requires c.Valid()
    ensures Distinct(WaitPairs(c)(w)) && forall u | u in WaitPairs(c)(w) :: u.0 == w.id
  {
    var pairs := WaitPairs(c)(w);
    assert forall n | 0 <= n < |pairs| :: pairs[n] == (w.id, NamesFor(c, w)[n]);
  }

  lemma DecisionPairsDistinct(c: Contract, dw: seq<DecisionWait>)
    requires c.Valid() && Distinct(Map(DecisionWaitId, dw))
    ensures Distinct(Flat(WaitPairs(c), dw))
    ensures forall u | u in Flat(WaitPairs(c), dw) :: u.0 in Map(DecisionWaitId, dw)
  {
    var f := WaitPairs(c);
    forall i | 0 <= i < |dw|
      ensures Distinct(f(dw[i])) && forall u | u in f(dw[i]) :: u.0 == dw[i].id
    {
      WaitPairsDistinct(c, dw[i]);
    }
    forall i, j | 0 <= i < j < |dw|
      ensures Apart(f, dw[i], dw[j])
    {
      assert Map(DecisionWaitId, dw)[i] != Map(DecisionWaitId, dw)[j];
    }
    FlatDistinct(f, dw);
    forall u: Pair | u in Flat(f, dw)
      ensures u.0 in Map(DecisionWaitId, dw)
    {
      FlatMembers(f, dw, u);
      var i :| 0 <= i < |dw| && u in f(dw[i]);
      assert Map(DecisionWaitId, dw)[i] == u.0;
    }
  }

  /** No ID is given to two waits. */
  ghost predicate WaitIdsApart(iw: seq<IdentityWait>, dw: seq<DecisionWait>) {
    && Distinct(Map(IdentityWaitId, iw)) && Distinct(Map(DecisionWaitId, dw))
    && forall id | id in Map(IdentityWaitId, iw) :: id !in Map(DecisionWaitId, dw)
  }

  lemma ValidatedIdsApart(c: Contract, p: Protocol, iw: seq<IdentityWait>, dw: seq<DecisionWait>)
    requires c.Valid() && p.Valid() && IdentityWaitsOk(p, iw) && DecisionWaitsOk(c, p, dw)
    ensures WaitIdsApart(iw, dw)
  {
    forall id | id in Map(IdentityWaitId, iw)
      ensures id !in Map(DecisionWaitId, dw)
    {
      IdentityAndDecisionIdsApart(c, p, id);
    }
  }

  lemma ExpectedPairsDistinct(c: Contract, iw: seq<IdentityWait>, dw: seq<DecisionWait>)
    requires c.Valid() && WaitIdsApart(iw, dw)
    ensures Distinct(ExpectedPairs(c, iw, dw))
  {
    DecisionPairsDistinct(c, dw);
    var fs := Map(FingerprintPair, iw);
    forall i, j | 0 <= i < j < |fs|
      ensures fs[i] != fs[j]
    {
      assert Map(IdentityWaitId, iw)[i] != Map(IdentityWaitId, iw)[j];
    }
    forall u: Pair | u in fs
      ensures u !in Flat(WaitPairs(c), dw)
    {
      var i :| 0 <= i < |fs| && fs[i] == u;
      assert Map(IdentityWaitId, iw)[i] == u.0;
    }
    DistinctConcat(fs, Flat(WaitPairs(c), dw));
  }

  // ---------- Looking up the parent ----------

  lemma {:induction false} IdentityLookup(iw: seq<IdentityWait>, i: nat)
    requires Distinct(Map(IdentityWaitId, iw)) && i < |iw|
    ensures iw[i].id in IdentityDurations(iw) && IdentityDurations(iw)[iw[i].id] == iw[i].durationNs
  {
    var n := |iw| - 1;
    if i < n {
      var ids := Map(IdentityWaitId, iw);
      assert Map(IdentityWaitId, iw[..n]) == ids[..n];
      IdentityLookup(iw[..n], i);
      assert ids[i] != ids[n];
    }
  }

  lemma {:induction false} DecisionLookup(base: Durations, dw: seq<DecisionWait>, i: nat)
    requires Distinct(Map(DecisionWaitId, dw)) && i < |dw|
    ensures dw[i].id in ParentDurations(base, dw) && ParentDurations(base, dw)[dw[i].id] == dw[i].durationNs
  {
    var n := |dw| - 1;
    if i < n {
      var ids := Map(DecisionWaitId, dw);
      assert Map(DecisionWaitId, dw[..n]) == ids[..n];
      DecisionLookup(base, dw[..n], i);
      assert ids[i] != ids[n];
    }
  }

  lemma {:induction false} BaseLookup(base: Durations, dw: seq<DecisionWait>, id: string)
    requires id in base && id !in Map(DecisionWaitId, dw)
    ensures id in ParentDurations(base, dw) && ParentDurations(base, dw)[id] == base[id]
  {
    if dw != [] {
      var n := |dw| - 1;
      var ids := Map(DecisionWaitId, dw);
      assert Map(DecisionWaitId, dw[..n]) == ids[..n];
      assert ids[n] in ids;
      BaseLookup(base, dw[..n], id);
    }
  }

  /** Every wait is found under its ID. */
  lemma WaitsAreFound(iw: seq<IdentityWait>, dw: seq<DecisionWait>)
    requires WaitIdsApart(iw, dw)
    ensures var parents := ParentDurations(IdentityDurations(iw), dw);
            && (forall w | w in iw :: w.id in parents && parents[w.id] == w.durationNs)
            && (forall w | w in dw :: w.id in parents && parents[w.id] == w.durationNs)
  {
    var base := IdentityDurations(iw);
    forall w | w in iw
      ensures w.id in ParentDurations(base, dw) && ParentDurations(base, dw)[w.id] == w.durationNs
    {
      var i :| 0 <= i < |iw| && iw[i] == w;
      IdentityLookup(iw, i);
      assert Map(IdentityWaitId, iw)[i] == w.id;
      BaseLookup(base, dw, w.id);
    }
    forall w | w in dw
      ensures w.id in ParentDurations(base, dw) && ParentDurations(base, dw)[w.id] == w.durationNs
    {
      var i :| 0 <= i < |dw| && dw[i] == w;
      DecisionLookup(base, dw, i);
    }
  }

  // ---------- Each component fits into its parent ----------

  /** The parents of one scenario are on record with their durations. */
  ghost predicate ParentsOnRecord(parents: Durations, o: Child, cache: string, profile: string, i: nat) {
    forall w | w in [InitialWait(o, cache, profile, i)] + Map(LaterWaitOf(cache, profile, i), o.laterDecisions) ::
      w.id in parents && parents[w.id] == w.durationNs
  }

  lemma SpanFits(c: Contract, parents: Durations, o: Child, cache: string, profile: string, i: nat, s: Span)
    requires c.Valid() && cache in CACHES && profile in c.profiles && ScenarioMember(c, o, profile)
    requires ParentsOnRecord(parents, o, cache, profile, i) && s in o.spans
    ensures ComponentTest(parents)(ComponentOf(cache, profile, i)(s))
  {
    MemberIsMeasured(c, o, profile);
    NamesAreWords(c.profiles, profile);
    ScenarioNames(c, o, profile);
    var k :| 0 <= k < |o.spans| && o.spans[k] == s;
    var names := Map(SpanName, o.spans);
    assert names[k] == s.0 && s.0 in names && names[k] in multiset(names);
    assert s.0 in ComponentNames(c, profile);
    var waits := WaitDurations(o.initialDecision.value, o.laterDecisions);
    assert WaitOf(s.0) in waits && s.1 <= waits[WaitOf(s.0)] && 1 <= s.1;
    if s.0 in Map(InitialName, c.initialComponents) {
      InitialSpanFits(c, parents, o, cache, profile, i, s);
    } else {
      LaterSpanFits(c, parents, o, cache, profile, i, s);
    }
  }

  lemma InitialSpanFits(c: Contract, parents: Durations, o: Child, cache: string, profile: string, i: nat, s: Span)
    requires c.Valid() && cache in CACHES && IsWord(profile) && Measured(c, o, profile)
    requires ParentsOnRecord(parents, o, cache, profile, i)
    requires var waits := WaitDurations(o.initialDecision.value, o.laterDecisions);
             WaitOf(s.0) in waits && 1 <= s.1 <= waits[WaitOf(s.0)]
    requires s.0 in Map(InitialName, c.initialComponents)
    ensures ComponentTest(parents)(ComponentOf(cache, profile, i)(s))
  {
    var n :| 0 <= n < |c.initialComponents| && InitialName(c.initialComponents[n]) == s.0;
    var name := c.initialComponents[n];
    PlacedInitial(cache, profile, i, name);
    InitialNameParts(name);
    InitialPieces(cache, profile, i);
    WordIsPlain(name);
    WaitLookup(o.initialDecision.value, o.laterDecisions, 0);
    assert InitialWait(o, cache, profile, i) in [InitialWait(o, cache, profile, i)];
  }

  lemma OwnName(names: seq<string>, k: nat, name: string) returns (own: string)
    requires Words(names) && name in Map(LaterName(k), names)
    ensures IsWord(own) && name == LaterName(k)(own)
  {
    var n :| 0 <= n < |names| && Map(LaterName(k), names)[n] == name;
    own := names[n];
  }

  lemma LaterNameIs(c: Contract, profile: string, name: string, turns: seq<nat>) returns (k: nat, own: string)
    requires c.Valid() && turns == Range(c.rounds(profile)) && name in Flat(LaterNamesOf(c, profile), turns)
    ensures k < c.rounds(profile) && IsWord(own) && name == LaterName(k + 1)(own)
  {
    FlatMembers(LaterNamesOf(c, profile), turns, name);
    var i :| 0 <= i < |turns| && name in LaterNamesOf(c, profile)(turns[i]);
    k := i;
    LaterNamesAreWords(c, profile, k + 1);
    own := OwnName(c.LaterNames(profile, k + 1), k + 1, name);
  }

  lemma LaterSpanFits(c: Contract, parents: Durations, o: Child, cache: string, profile: string, i: nat, s: Span)
    requires c.Valid() && cache in CACHES && IsWord(profile) && Measured(c, o, profile)
    requires ParentsOnRecord(parents, o, cache, profile, i)
    requires var waits := WaitDurations(o.initialDecision.value, o.laterDecisions);
             WaitOf(s.0) in waits && 1 <= s.1 <= waits[WaitOf(s.0)]
    requires s.0 in Flat(LaterNamesOf(c, profile), Range(c.rounds(profile)))
    ensures ComponentTest(parents)(ComponentOf(cache, profile, i)(s))
  {
    var k, name := LaterNameIs(c, profile, s.0, Range(c.rounds(profile)));
    RoundSpanFits(c, parents, o, cache, profile, i, s, k, name);
  }

  lemma LaterOnRecord(parents: Durations, o: Child, cache: string, profile: string, i: nat, k: nat)
    requires ParentsOnRecord(parents, o, cache, profile, i) && k < |o.laterDecisions| && o.initialDecision.Some?
    requires forall j | 0 <= j < |o.laterDecisions| :: o.laterDecisions[j].0 == j + 1
    ensures var waits := WaitDurations(o.initialDecision.value, o.laterDecisions);
            && LaterId(cache, profile, i, k + 1) in parents && LaterWait(k + 1) in waits
            && parents[LaterId(cache, profile, i, k + 1)] == waits[LaterWait(k + 1)] == o.laterDecisions[k].1
  {
    WaitLookup(o.initialDecision.value, o.laterDecisions, k);
    var later := Map(LaterWaitOf(cache, profile, i), o.laterDecisions);
    assert later[k] in [InitialWait(o, cache, profile, i)] + later;
  }

  lemma RoundSpanFits(c: Contract, parents: Durations, o: Child, cache: string, profile: string, i: nat, s: Span,
                      k: nat, name: string)
    requires cache in CACHES && IsWord(profile) && Measured(c, o, profile)
    requires ParentsOnRecord(parents, o, cache, profile, i)
    requires var waits := WaitDurations(o.initialDecision.value, o.laterDecisions);
             WaitOf(s.0) in waits && 1 <= s.1 <= waits[WaitOf(s.0)]
    requires k < c.rounds(profile) && IsWord(name) && s.0 == LaterName(k + 1)(name)
    ensures ComponentTest(parents)(ComponentOf(cache, profile, i)(s))
  {
    PlacedLater(cache, profile, i, k + 1, name);
    LaterNameParts(k + 1, name);
    LaterPieces(cache, profile, i, k + 1);
    WordIsPlain(name);
    LaterOnRecord(parents, o, cache, profile, i, k);
  }
}
