/** The result of a full family of observations can be evaluated: every row has a sample. */
module ProducedResults {
  import opened Wrappers
  import opened Sorting
  import opened Sequences
  import opened BenchmarkContract
  import opened Observations
  import opened Percentiles
  import opened Evaluations
  import opened EvaluationTheorems
  import opened Verdicts
  import opened ProducerTheorems
  import opened ProducerMeetsValidator

  lemma FilteredNotEmpty<W>(items: seq<W>, test: W -> bool, w: W)
    requires w in items && test(w)
    ensures 1 <= |Filter(test, items)| <= |items| && w in Filter(test, items)
  {
    FilterMembers(test, items);
    FilterShorter(items, test);
    assert w in Filter(test, items);
  }

  lemma {:induction false} FilterShorter<W>(items: seq<W>, test: W -> bool)
    ensures |Filter(test, items)| <= |items|
  {
    if items != [] {
      FilterShorter(items[..|items| - 1], test);
    }
  }

  /** No list and no limit is too large for the result format. */
  predicate Sized(r: RawResult) {
    && 1 <= VisibleLimit(r) <= MAX_SAFE_INTEGER && 1 <= AckLimit(r) <= MAX_SAFE_INTEGER
    && |r.observations.identityWaits| <= MAX_SAFE_INTEGER && |r.observations.decisionWaits| <= MAX_SAFE_INTEGER
    && |r.observations.acknowledgements| <= MAX_SAFE_INTEGER
  }

  ghost predicate HasWait(waits: seq<DecisionWait>, cache: string, stage: Stage, profile: string, round: Option<int>) {
    exists w | w in waits :: w.cacheState == cache && w.stage == stage && w.profile == profile && w.round == round
  }

  ghost predicate HasIdentity(waits: seq<IdentityWait>, cache: string) {
    exists w | w in waits :: w.cacheState == cache
  }

  ghost predicate HasAck(acks: seq<Acknowledgement>, cache: string, action: string) {
    exists a | a in acks :: a.cacheState == cache && a.action == action
  }

  /** Every stratum of one profile's decisions has a sample. */
  ghost predicate ProfileSampled(c: Contract, waits: seq<DecisionWait>, cache: string, profile: string) {
    && HasWait(waits, cache, InitialDecision, profile, None)
    && Rounds(c, profile) != []
    && forall round | round in Rounds(c, profile) :: HasWait(waits, cache, LaterDecision, profile, round)
  }

  /** Every stratum of one cache state has a sample. */
  ghost predicate Sampled(c: Contract, r: RawResult, cache: string) {
    && HasIdentity(r.observations.identityWaits, cache)
    && (forall profile | profile in c.profiles :: ProfileSampled(c, r.observations.decisionWaits, cache, profile))
    && (forall action | action in c.actions :: HasAck(r.observations.acknowledgements, cache, action))
  }

  // ---------- Sampled results have answerable rows ----------

  lemma WaitIsCounted(r: RawResult, cache: string, stage: Stage, profile: string, round: Option<int>)
    requires Sized(r) && HasWait(r.observations.decisionWaits, cache, stage, profile, round)
    ensures Answerable(AllQuestion(r, cache, stage)) && Answerable(ProfileQuestion(r, cache, stage)(profile))
    ensures stage == LaterDecision ==> Answerable(RoundQuestion(r, cache, profile)(round))
  {
    var waits := r.observations.decisionWaits;
    var w :| w in waits && w.cacheState == cache && w.stage == stage && w.profile == profile && w.round == round;
    KeyMatches(ProfileKey, profile, w);
    KeyMatches(RoundKey, round, w);
    FilteredNotEmpty(waits, DecisionIn(cache, stage), w);
    var items := DecisionsOf(r, cache, stage);
    FilteredNotEmpty(items, IsKey(ProfileKey, profile), w);
    FilteredNotEmpty(ProfileDecisions(r, cache, stage, profile), IsKey(RoundKey, round), w);
  }

  lemma InitialAnswerable(c: Contract, r: RawResult, cache: string)
    requires c.Valid() && Sized(r) && Sampled(c, r, cache)
    ensures AllPass(InitialQuestions(c, r)(cache), Answerable)
  {
    forall n | 0 <= n < |c.profiles|
      ensures Answerable(AllQuestion(r, cache, InitialDecision))
      ensures Answerable(ProfileQuestion(r, cache, InitialDecision)(c.profiles[n]))
    {
      assert c.profiles[n] in c.profiles;
      WaitIsCounted(r, cache, InitialDecision, c.profiles[n], None);
    }
    assert c.profiles[0] in c.profiles;
    WaitIsCounted(r, cache, InitialDecision, c.profiles[0], None);
    AllPassFront(AllQuestion(r, cache, InitialDecision), Map(ProfileQuestion(r, cache, InitialDecision), c.profiles),
                 Answerable);
  }

  lemma LaterAnswerable(c: Contract, r: RawResult, cache: string, profile: string)
    requires Sized(r) && Sampled(c, r, cache) && profile in c.profiles
    ensures Answerable(AllQuestion(r, cache, LaterDecision))
    ensures AllPass(ProfileLaterQuestions(c, r, cache)(profile), Answerable)
  {
    var rounds := Rounds(c, profile);
    assert ProfileSampled(c, r.observations.decisionWaits, cache, profile);
    forall k | 0 <= k < |rounds|
      ensures Answerable(RoundQuestion(r, cache, profile)(rounds[k]))
    {
      assert rounds[k] in rounds;
      WaitIsCounted(r, cache, LaterDecision, profile, rounds[k]);
    }
    assert rounds[0] in rounds;
    WaitIsCounted(r, cache, LaterDecision, profile, rounds[0]);
    AllPassFront(ProfileQuestion(r, cache, LaterDecision)(profile), Map(RoundQuestion(r, cache, profile), rounds),
                 Answerable);
  }

  lemma OthersAnswerable(c: Contract, r: RawResult, cache: string)
    requires Sized(r) && Sampled(c, r, cache)
    ensures AllPass(IdentityQuestions(r)(cache), Answerable) && AllPass(AckQuestions(c, r)(cache), Answerable)
  {
    var w :| w in r.observations.identityWaits && w.cacheState == cache;
    FilteredNotEmpty(r.observations.identityWaits, IdentityIn(cache), w);
    assert IdentityQuestions(r)(cache) == [IdentityQuestion(r)(cache)];
    forall n | 0 <= n < |c.actions|
      ensures Answerable(AckQuestion(r, cache)(c.actions[n]))
    {
      var action := c.actions[n];
      assert action in c.actions;
      assert HasAck(r.observations.acknowledgements, cache, action);
      var a :| a in r.observations.acknowledgements && a.cacheState == cache && a.action == action;
      FilteredNotEmpty(r.observations.acknowledgements, AckIn(cache, action), a);
    }
  }

  lemma CacheAnswerable(c: Contract, r: RawResult, cache: string)
    requires c.Valid() && Sized(r) && Sampled(c, r, cache)
    ensures AllPass(LaterQuestions(c, r)(cache), Answerable)
  {
    forall n | 0 <= n < |c.profiles|
      ensures Answerable(AllQuestion(r, cache, LaterDecision))
      ensures AllPass(ProfileLaterQuestions(c, r, cache)(c.profiles[n]), Answerable)
    {
      assert c.profiles[n] in c.profiles;
      LaterAnswerable(c, r, cache, c.profiles[n]);
    }
    FlatAllPass(ProfileLaterQuestions(c, r, cache), c.profiles, Answerable);
    AllPassFront(AllQuestion(r, cache, LaterDecision), Flat(ProfileLaterQuestions(c, r, cache), c.profiles),
                 Answerable);
  }

  lemma AllAnswerable(c: Contract, r: RawResult, caches: seq<string>)
    requires c.Valid() && Sized(r) && forall n | 0 <= n < |caches| :: Sampled(c, r, caches[n])
    ensures AllPass(Questions(c, r, caches), Answerable)
  {
    forall n | 0 <= n < |caches|
      ensures AllPass(IdentityQuestions(r)(caches[n]), Answerable)
      ensures AllPass(InitialQuestions(c, r)(caches[n]), Answerable)
      ensures AllPass(LaterQuestions(c, r)(caches[n]), Answerable)
      ensures AllPass(AckQuestions(c, r)(caches[n]), Answerable)
    {
      InitialAnswerable(c, r, caches[n]);
      CacheAnswerable(c, r, caches[n]);
      OthersAnswerable(c, r, caches[n]);
    }
    StagesPass(c, r, caches, Answerable);
  }

  // ---------- Flattened lists are sampled ----------

  /** The lists of the result are the flattened ones, and no error is recorded. */
  ghost predicate Produced(c: Contract, p: Protocol, ids: Identities, scs: Scenarios, r: RawResult) {
    && p.Valid() && r.protocol == p && r.observations == Flattened(c, p, ids, scs)
    && ExecutionOk(p, r.execution) && r.errors == []
  }

  /** Three of them, cache state by cache state. */
  ghost predicate Lists(c: Contract, p: Protocol, ids: Identities, scs: Scenarios, r: RawResult, caches: seq<string>)
    requires p.Valid()
  {
    && r.observations.identityWaits == Flat(IdentityWaitsOf(p, ids), caches)
    && r.observations.decisionWaits == Flat(DecisionWaitsOf(c, p, scs), caches)
    && r.observations.acknowledgements == Flat(AcksOf(c, p, ids), caches)
  }

  lemma InitialListed(c: Contract, p: Protocol, scs: Scenarios, caches: seq<string>, cache: string, profile: string)
    requires p.Valid() && cache in caches && profile in c.profiles
    ensures HasWait(Flat(DecisionWaitsOf(c, p, scs), caches), cache, InitialDecision, profile, None)
  {
    var w := InitialWait(Scenario(scs, cache, profile, 0), cache, profile, 0);
    assert ScenarioWaits(scs, cache, profile)(0)[0] == w;
    ScenarioWaitListed(c, p, scs, caches, cache, profile, 0, w);
  }

  lemma LaterListed(c: Contract, p: Protocol, scs: Scenarios, caches: seq<string>, cache: string, profile: string,
                    k: nat)
    requires p.Valid() && cache in caches && profile in c.profiles
    requires Measured(c, Scenario(scs, cache, profile, 0), profile) && k < c.rounds(profile)
    ensures HasWait(Flat(DecisionWaitsOf(c, p, scs), caches), cache, LaterDecision, profile, Some(k + 1))
  {
    var o := Scenario(scs, cache, profile, 0);
    var later := Map(LaterWaitOf(cache, profile, 0), o.laterDecisions);
    var w := later[k];
    assert ScenarioWaits(scs, cache, profile)(0)[k + 1] == w;
    ScenarioWaitListed(c, p, scs, caches, cache, profile, 0, w);
  }

  lemma AckListed(c: Contract, p: Protocol, ids: Identities, caches: seq<string>, cache: string, action: string)
    requires p.Valid() && cache in caches && action in c.actions
    ensures HasAck(Flat(AcksOf(c, p, ids), caches), cache, action)
  {
    var n :| 0 <= n < |caches| && caches[n] == cache;
    var m :| 0 <= m < |c.actions| && c.actions[m] == action;
    var a := AckOf(ids, cache, action)(0);
    MapIn(AckOf(ids, cache, action), Range(p.Repetitions(cache)), 0);
    FlatHas(ActionAcks(p, ids, cache), c.actions, m, a);
    FlatHas(AcksOf(c, p, ids), caches, n, a);
    assert a.cacheState == cache && a.action == action;
  }

  lemma ProducedProfileIsSampled(c: Contract, p: Protocol, scs: Scenarios, caches: seq<string>, cache: string,
                                 profile: string)
    requires p.Valid() && cache in caches && profile in c.profiles && c.rounds(profile) >= 1
    requires Measured(c, Scenario(scs, cache, profile, 0), profile)
    ensures ProfileSampled(c, Flat(DecisionWaitsOf(c, p, scs), caches), cache, profile)
  {
    InitialListed(c, p, scs, caches, cache, profile);
    assert RoundAt(0) == Rounds(c, profile)[0];
    forall round | round in Rounds(c, profile)
      ensures HasWait(Flat(DecisionWaitsOf(c, p, scs), caches), cache, LaterDecision, profile, round)
    {
      var k :| 0 <= k < |Rounds(c, profile)| && Rounds(c, profile)[k] == round;
      LaterListed(c, p, scs, caches, cache, profile, k);
    }
  }

  lemma ProducedIsSampled(c: Contract, p: Protocol, ids: Identities, scs: Scenarios, r: RawResult, caches: seq<string>,
                          cache: string)
    requires c.Valid() && p.Valid() && Lists(c, p, ids, scs, r, caches) && cache in caches && caches == CACHES
    requires Family(c, p, ids, scs) && forall profile | profile in c.profiles :: c.rounds(profile) >= 1
    ensures Sampled(c, r, cache)
  {
    IdentityWaitListed(p, ids, caches, cache, 0);
    assert IdentityWaitOf(ids, cache)(0).cacheState == cache;
    forall profile | profile in c.profiles
      ensures ProfileSampled(c, r.observations.decisionWaits, cache, profile)
    {
      assert ScenarioMember(c, Scenario(scs, cache, profile, 0), profile);
      MemberIsMeasured(c, Scenario(scs, cache, profile, 0), profile);
      ProducedProfileIsSampled(c, p, scs, caches, cache, profile);
    }
    forall action | action in c.actions
      ensures HasAck(r.observations.acknowledgements, cache, action)
    {
      AckListed(c, p, ids, caches, cache, action);
    }
  }

  lemma NoErrors(errors: seq<string>)
    requires errors == []
    ensures ErrorsOk(errors)
  {
  }

  lemma ProducedBase(c: Contract, p: Protocol, ids: Identities, scs: Scenarios, r: RawResult)
    requires c.Valid() && Produced(c, p, ids, scs, r) && Family(c, p, ids, scs) && r.restOk
    ensures BaseOk(c, r)
  {
    FlattenedIsAccepted(c, p, ids, scs);
    NoErrors(r.errors);
  }

  /** The result passes the tests on its base, and every row can be computed. */
  lemma ProducedEvaluates(c: Contract, p: Protocol, ids: Identities, scs: Scenarios, r: RawResult)
    requires c.Valid() && Produced(c, p, ids, scs, r) && Family(c, p, ids, scs) && r.restOk && Sized(r)
    requires forall profile | profile in c.profiles :: c.rounds(profile) >= 1
    ensures EvaluateResult(c, r).Ok?
  {
    ProducedBase(c, p, ids, scs, r);
    forall n | 0 <= n < |CACHES|
      ensures Sampled(c, r, CACHES[n])
    {
      ProducedIsSampled(c, p, ids, scs, r, CACHES, CACHES[n]);
    }
    AllAnswerable(c, r, CACHES);
    ReturnsExactlyWhen(c, r);
  }
}
