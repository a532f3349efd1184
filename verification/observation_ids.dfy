/** No observation ID is ever given out twice. */
module ObservationIds {
  import opened Wrappers
  import opened Text
  import opened Sorting
  import opened Sequences
  import opened BenchmarkContract

  lemma CachesAreWords(cache: string)
    requires cache in CACHES
    ensures IsWord(cache)
  {
    assert cache == "cold" || cache == "warm";
  }

  lemma NamesAreWords(names: seq<string>, name: string)
    requires Words(names) && name in names
    ensures IsWord(name)
  {
  }

  lemma IdentityPieces(cache: string, i: nat)
    requires cache in CACHES
    ensures Words([cache, "identity", Pad2(i)]) && IsClosedId(IdentityId(cache, i))
  {
    CachesAreWords(cache);
    DigitsAreWord(Pad2(i));
    JoinedIsClosed([cache, "identity", Pad2(i)]);
  }

  lemma InitialPieces(cache: string, profile: string, i: nat)
    requires cache in CACHES && IsWord(profile)
    ensures Words([cache, profile, Pad2(i), "initial"]) && IsClosedId(InitialId(cache, profile, i))
  {
    CachesAreWords(cache);
    DigitsAreWord(Pad2(i));
    JoinedIsClosed([cache, profile, Pad2(i), "initial"]);
  }

  lemma LaterPieces(cache: string, profile: string, i: nat, k: nat)
    requires cache in CACHES && IsWord(profile)
    ensures Words([cache, profile, Pad2(i), "later", Decimal(k)]) && IsClosedId(LaterId(cache, profile, i, k))
  {
    CachesAreWords(cache);
    DigitsAreWord(Pad2(i));
    DigitsAreWord(Decimal(k));
    JoinedIsClosed([cache, profile, Pad2(i), "later", Decimal(k)]);
  }

  lemma AckPieces(cache: string, action: string, i: nat)
    requires cache in CACHES && IsWord(action)
    ensures Words([cache, "ack", action, Pad2(i)]) && IsClosedId(AckId(cache, action, i))
  {
    CachesAreWords(cache);
    DigitsAreWord(Pad2(i));
    JoinedIsClosed([cache, "ack", action, Pad2(i)]);
  }

  function StratumName(profile: Option<string>): string {
    if profile.Some? then profile.value else "identity"
  }

  lemma ResourcePieces(cache: string, profile: Option<string>, i: nat)
    requires cache in CACHES && (profile.Some? ==> IsWord(profile.value))
    ensures Words([cache, "resource", StratumName(profile), Pad2(i)]) && IsClosedId(ResourceId(cache, profile, i))
  {
    CachesAreWords(cache);
    DigitsAreWord(Pad2(i));
    JoinedIsClosed([cache, "resource", StratumName(profile), Pad2(i)]);
  }

  // ---------- An ID determines what it names ----------

  lemma SameIdentityId(a: string, i: nat, b: string, j: nat)
    requires a in CACHES && b in CACHES && IdentityId(a, i) == IdentityId(b, j)
    ensures a == b && i == j
  {
    IdentityPieces(a, i);
    IdentityPieces(b, j);
    var x, y := [a, "identity", Pad2(i)], [b, "identity", Pad2(j)];
    JoinInjective(x, y);
    assert x[0] == y[0] && x[2] == y[2];
    Pad2Injective(i, j);
  }

  lemma SameInitialId(a: string, p: string, i: nat, b: string, q: string, j: nat)
    requires a in CACHES && b in CACHES && IsWord(p) && IsWord(q) && InitialId(a, p, i) == InitialId(b, q, j)
    ensures a == b && p == q && i == j
  {
    InitialPieces(a, p, i);
    InitialPieces(b, q, j);
    var x, y := [a, p, Pad2(i), "initial"], [b, q, Pad2(j), "initial"];
    JoinInjective(x, y);
    assert x[0] == y[0] && x[1] == y[1] && x[2] == y[2];
    Pad2Injective(i, j);
  }

  lemma SameLaterId(a: string, p: string, i: nat, k: nat, b: string, q: string, j: nat, l: nat)
    requires a in CACHES && b in CACHES && IsWord(p) && IsWord(q) && LaterId(a, p, i, k) == LaterId(b, q, j, l)
    ensures a == b && p == q && i == j && k == l
  {
    LaterPieces(a, p, i, k);
    LaterPieces(b, q, j, l);
    var x, y := [a, p, Pad2(i), "later", Decimal(k)], [b, q, Pad2(j), "later", Decimal(l)];
    JoinInjective(x, y);
    assert x[0] == y[0] && x[1] == y[1] && x[2] == y[2] && x[4] == y[4];
    Pad2Injective(i, j);
    DecimalInjective(k, l);
  }

  lemma InitialIsNotLater(a: string, p: string, i: nat, b: string, q: string, j: nat, l: nat)
    requires a in CACHES && b in CACHES && IsWord(p) && IsWord(q)
    ensures InitialId(a, p, i) != LaterId(b, q, j, l)
  {
    InitialPieces(a, p, i);
    LaterPieces(b, q, j, l);
    var x, y := [a, p, Pad2(i), "initial"], [b, q, Pad2(j), "later", Decimal(l)];
    assert |x| == 4 && |y| == 5;
    if InitialId(a, p, i) == LaterId(b, q, j, l) {
      JoinInjective(x, y);
    }
  }

  lemma IdentityIsNoDecision(a: string, i: nat, b: string, q: string, j: nat, l: nat)
    requires a in CACHES && b in CACHES && IsWord(q)
    ensures IdentityId(a, i) != InitialId(b, q, j) && IdentityId(a, i) != LaterId(b, q, j, l)
  {
    IdentityPieces(a, i);
    InitialPieces(b, q, j);
    LaterPieces(b, q, j, l);
    var x := [a, "identity", Pad2(i)];
    assert |x| == 3;
    if IdentityId(a, i) == InitialId(b, q, j) {
      JoinInjective(x, [b, q, Pad2(j), "initial"]);
    }
    if IdentityId(a, i) == LaterId(b, q, j, l) {
      JoinInjective(x, [b, q, Pad2(j), "later", Decimal(l)]);
    }
  }

  lemma SameAckId(a: string, p: string, i: nat, b: string, q: string, j: nat)
    requires a in CACHES && b in CACHES && IsWord(p) && IsWord(q) && AckId(a, p, i) == AckId(b, q, j)
    ensures a == b && p == q && i == j
  {
    AckPieces(a, p, i);
    AckPieces(b, q, j);
    var x, y := [a, "ack", p, Pad2(i)], [b, "ack", q, Pad2(j)];
    JoinInjective(x, y);
    assert x[0] == y[0] && x[2] == y[2] && x[3] == y[3];
    Pad2Injective(i, j);
  }

  lemma SameResourceId(a: string, p: Option<string>, i: nat, b: string, q: Option<string>, j: nat)
    requires a in CACHES && b in CACHES && ResourceId(a, p, i) == ResourceId(b, q, j)
    requires p.Some? ==> IsWord(p.value) && p.value != "identity"
    requires q.Some? ==> IsWord(q.value) && q.value != "identity"
    ensures a == b && p == q && i == j
  {
    ResourcePieces(a, p, i);
    ResourcePieces(b, q, j);
    var x, y := [a, "resource", StratumName(p), Pad2(i)], [b, "resource", StratumName(q), Pad2(j)];
    JoinInjective(x, y);
    assert x[0] == y[0] && x[2] == y[2] && x[3] == y[3];
    Pad2Injective(i, j);
  }

  // ---------- The expected lists ----------

  lemma DistinctIdentityIds(p: Protocol)
    requires p.Valid()
    ensures Distinct(ExpectedIdentityIds(p))
  {
    var f := IdentityIdsOf(p);
    forall n | 0 <= n < |CACHES|
      ensures Distinct(f(CACHES[n]))
    {
      forall i: nat, j: nat | i < j < p.Repetitions(CACHES[n])
        ensures IdentityId(CACHES[n], i) != IdentityId(CACHES[n], j)
      {
        if IdentityId(CACHES[n], i) == IdentityId(CACHES[n], j) {
          SameIdentityId(CACHES[n], i, CACHES[n], j);
        }
      }
    }
    forall m, n | 0 <= m < n < |CACHES|
      ensures Apart(f, CACHES[m], CACHES[n])
    {
      forall u | u in f(CACHES[m])
        ensures u !in f(CACHES[n])
      {
        var i: nat :| i < p.Repetitions(CACHES[m]) && IdentityId(CACHES[m], i) == u;
        if u in f(CACHES[n]) {
          var j: nat :| j < p.Repetitions(CACHES[n]) && IdentityId(CACHES[n], j) == u;
          SameIdentityId(CACHES[m], i, CACHES[n], j);
        }
      }
    }
    FlatDistinct(f, CACHES);
  }

  /** The parts a decision ID was made from. */
  ghost predicate IsDecisionId(u: string, cache: string, profile: string, i: nat) {
    u == InitialId(cache, profile, i) || exists k: nat :: u == LaterId(cache, profile, i, k)
  }

  lemma SameDecisionId(u: string, a: string, p: string, i: nat, b: string, q: string, j: nat)
    requires a in CACHES && b in CACHES && IsWord(p) && IsWord(q)
    requires IsDecisionId(u, a, p, i) && IsDecisionId(u, b, q, j)
    ensures a == b && p == q && i == j
  {
    if u == InitialId(a, p, i) {
      if u == InitialId(b, q, j) {
        SameInitialId(a, p, i, b, q, j);
      } else {
        var l: nat :| u == LaterId(b, q, j, l);
        InitialIsNotLater(a, p, i, b, q, j, l);
      }
    } else {
      var k: nat :| u == LaterId(a, p, i, k);
      if u == InitialId(b, q, j) {
        InitialIsNotLater(b, q, j, a, p, i, k);
      } else {
        var l: nat :| u == LaterId(b, q, j, l);
        SameLaterId(a, p, i, k, b, q, j, l);
      }
    }
  }

  lemma ScenarioIdsAre(c: Contract, cache: string, profile: string, i: nat)
    requires cache in CACHES && IsWord(profile)
    ensures Distinct(ScenarioIdsOf(c, cache, profile)(i))
    ensures forall u | u in ScenarioIdsOf(c, cache, profile)(i) :: IsDecisionId(u, cache, profile, i)
  {
    var later := Map(LaterIdOf(cache, profile, i), Range(c.rounds(profile)));
    forall k: nat, l: nat | k < l < |later|
      ensures later[k] != later[l]
    {
      if later[k] == later[l] {
        SameLaterId(cache, profile, i, k + 1, cache, profile, i, l + 1);
      }
    }
    forall u | u in later
      ensures u != InitialId(cache, profile, i) && IsDecisionId(u, cache, profile, i)
    {
      var k: nat :| k < |later| && later[k] == u;
      assert u == LaterId(cache, profile, i, k + 1);
      InitialIsNotLater(cache, profile, i, cache, profile, i, k + 1);
    }
    DistinctConcat([InitialId(cache, profile, i)], later);
  }

  lemma ProfileIdsAre(c: Contract, p: Protocol, cache: string, profile: string)
    requires p.Valid() && cache in CACHES && IsWord(profile)
    ensures Distinct(ProfileIdsOf(c, p, cache)(profile))
    ensures forall u | u in ProfileIdsOf(c, p, cache)(profile) ::
              exists i: nat :: i < p.Repetitions(cache) && IsDecisionId(u, cache, profile, i)
  {
    var f := ScenarioIdsOf(c, cache, profile);
    var turns := Range(p.Repetitions(cache));
    forall i | 0 <= i < |turns|
      ensures Distinct(f(turns[i])) && forall u | u in f(turns[i]) :: IsDecisionId(u, cache, profile, i)
    {
      ScenarioIdsAre(c, cache, profile, i);
    }
    forall i, j | 0 <= i < j < |turns|
      ensures Apart(f, turns[i], turns[j])
    {
      forall u | u in f(turns[i])
        ensures u !in f(turns[j])
      {
        if u in f(turns[j]) {
          SameDecisionId(u, cache, profile, i, cache, profile, j);
        }
      }
    }
    FlatDistinct(f, turns);
    forall u | u in Flat(f, turns)
      ensures exists i: nat :: i < p.Repetitions(cache) && IsDecisionId(u, cache, profile, i)
    {
      FlatMembers(f, turns, u);
      var i :| 0 <= i < |turns| && u in f(turns[i]);
      assert IsDecisionId(u, cache, profile, i);
    }
  }

  ghost predicate InCache(c: Contract, p: Protocol, u: string, cache: string)
    requires p.Valid()
  {
    exists profile, i: nat :: profile in c.profiles && i < p.Repetitions(cache) && IsDecisionId(u, cache, profile, i)
  }

  lemma CacheIdsAre(c: Contract, p: Protocol, cache: string)
    requires c.Valid() && p.Valid() && cache in CACHES
    ensures Distinct(DecisionIdsOf(c, p)(cache))
    ensures forall u | u in DecisionIdsOf(c, p)(cache) :: InCache(c, p, u, cache)
  {
    var f := ProfileIdsOf(c, p, cache);
    forall n | 0 <= n < |c.profiles|
      ensures Distinct(f(c.profiles[n]))
      ensures forall u | u in f(c.profiles[n]) ::
                exists i: nat :: i < p.Repetitions(cache) && IsDecisionId(u, cache, c.profiles[n], i)
    {
      ProfileIdsAre(c, p, cache, c.profiles[n]);
    }
    forall m, n | 0 <= m < n < |c.profiles|
      ensures Apart(f, c.profiles[m], c.profiles[n])
    {
      forall u | u in f(c.profiles[m])
        ensures u !in f(c.profiles[n])
      {
        if u in f(c.profiles[n]) {
          var i: nat :| i < p.Repetitions(cache) && IsDecisionId(u, cache, c.profiles[m], i);
          var j: nat :| j < p.Repetitions(cache) && IsDecisionId(u, cache, c.profiles[n], j);
          SameDecisionId(u, cache, c.profiles[m], i, cache, c.profiles[n], j);
        }
      }
    }
    FlatDistinct(f, c.profiles);
    forall u | u in Flat(f, c.profiles)
      ensures InCache(c, p, u, cache)
    {
      FlatMembers(f, c.profiles, u);
      var n :| 0 <= n < |c.profiles| && u in f(c.profiles[n]);
      var i: nat :| i < p.Repetitions(cache) && IsDecisionId(u, cache, c.profiles[n], i);
      assert c.profiles[n] in c.profiles;
    }
  }

  lemma DistinctDecisionIds(c: Contract, p: Protocol)
    requires c.Valid() && p.Valid()
    ensures Distinct(ExpectedDecisionIds(c, p))
    ensures forall u | u in ExpectedDecisionIds(c, p) :: exists cache | cache in CACHES :: InCache(c, p, u, cache)
  {
    var f := DecisionIdsOf(c, p);
    forall n | 0 <= n < |CACHES|
      ensures Distinct(f(CACHES[n])) && forall u | u in f(CACHES[n]) :: InCache(c, p, u, CACHES[n])
    {
      CacheIdsAre(c, p, CACHES[n]);
    }
    forall m, n | 0 <= m < n < |CACHES|
      ensures Apart(f, CACHES[m], CACHES[n])
    {
      forall u | u in f(CACHES[m])
        ensures u !in f(CACHES[n])
      {
        if u in f(CACHES[n]) {
          CachesDiffer(c, p, u, CACHES[m], CACHES[n]);
        }
      }
    }
    FlatDistinct(f, CACHES);
    forall u | u in Flat(f, CACHES)
      ensures exists cache | cache in CACHES :: InCache(c, p, u, cache)
    {
      FlatMembers(f, CACHES, u);
      var n :| 0 <= n < |CACHES| && u in f(CACHES[n]);
      assert CACHES[n] in CACHES && InCache(c, p, u, CACHES[n]);
    }
  }

  lemma CachesDiffer(c: Contract, p: Protocol, u: string, a: string, b: string)
    requires c.Valid() && p.Valid() && a in CACHES && b in CACHES && InCache(c, p, u, a) && InCache(c, p, u, b)
    ensures a == b
  {
    var profile, i: nat :| profile in c.profiles && i < p.Repetitions(a) && IsDecisionId(u, a, profile, i);
    var profile', j: nat :| profile' in c.profiles && j < p.Repetitions(b) && IsDecisionId(u, b, profile', j);
    NamesAreWords(c.profiles, profile);
    NamesAreWords(c.profiles, profile');
    SameDecisionId(u, a, profile, i, b, profile', j);
  }

  lemma IdentityIdsAre(p: Protocol, u: string) returns (cache: string, i: nat)
    requires p.Valid() && u in ExpectedIdentityIds(p)
    ensures cache in CACHES && i < p.Repetitions(cache) && u == IdentityId(cache, i)
  {
    FlatMembers(IdentityIdsOf(p), CACHES, u);
    var n :| 0 <= n < |CACHES| && u in IdentityIdsOf(p)(CACHES[n]);
    cache := CACHES[n];
    i :| i < p.Repetitions(cache) && IdentityId(cache, i) == u;
  }

  lemma IdentityIsNotInCache(c: Contract, p: Protocol, u: string, a: string, i: nat, cache: string)
    requires c.Valid() && p.Valid() && a in CACHES && u == IdentityId(a, i) && cache in CACHES
    ensures !InCache(c, p, u, cache)
  {
    if InCache(c, p, u, cache) {
      var profile, j: nat :| profile in c.profiles && j < p.Repetitions(cache) && IsDecisionId(u, cache, profile, j);
      NamesAreWords(c.profiles, profile);
      IdentityIsNoDecision(a, i, cache, profile, j, 0);
      var k: nat :| u == LaterId(cache, profile, j, k);
      IdentityIsNoDecision(a, i, cache, profile, j, k);
    }
  }

  /** Identity waits and decision waits share no ID. */
  lemma IdentityAndDecisionIdsApart(c: Contract, p: Protocol, u: string)
    requires c.Valid() && p.Valid() && u in ExpectedIdentityIds(p)
    ensures u !in ExpectedDecisionIds(c, p)
  {
    var a, i := IdentityIdsAre(p, u);
    DistinctDecisionIds(c, p);
    forall cache | cache in CACHES
      ensures !InCache(c, p, u, cache)
    {
      IdentityIsNotInCache(c, p, u, a, i, cache);
    }
  }

  lemma AckCachesDiffer(c: Contract, u: string, a: string, b: string)
    requires c.Valid() && a in CACHES && b in CACHES && IsAckId(c, u, a) && IsAckId(c, u, b)
    ensures a == b
  {
    var action, i: nat :| action in c.actions && u == AckId(a, action, i);
    var action', j: nat :| action' in c.actions && u == AckId(b, action', j);
    NamesAreWords(c.actions, action);
    NamesAreWords(c.actions, action');
    SameAckId(a, action, i, b, action', j);
  }

  lemma DistinctAckIds(c: Contract, p: Protocol)
    requires c.Valid() && p.Valid()
    ensures Distinct(ExpectedAckIds(c, p))
  {
    var f := AckIdsOf(c, p);
    forall n | 0 <= n < |CACHES|
      ensures Distinct(f(CACHES[n])) && forall u | u in f(CACHES[n]) :: IsAckId(c, u, CACHES[n])
    {
      CacheAckIds(c, p, CACHES[n]);
    }
    forall m, n | 0 <= m < n < |CACHES|
      ensures Apart(f, CACHES[m], CACHES[n])
    {
      forall u | u in f(CACHES[m])
        ensures u !in f(CACHES[n])
      {
        if u in f(CACHES[n]) {
          AckCachesDiffer(c, u, CACHES[m], CACHES[n]);
        }
      }
    }
    FlatDistinct(f, CACHES);
  }

  ghost predicate IsAckId(c: Contract, u: string, cache: string) {
    exists action, i: nat :: action in c.actions && u == AckId(cache, action, i)
  }

  lemma CacheAckIds(c: Contract, p: Protocol, cache: string)
    requires c.Valid() && p.Valid() && cache in CACHES
    ensures Distinct(AckIdsOf(c, p)(cache))
    ensures forall u | u in AckIdsOf(c, p)(cache) :: IsAckId(c, u, cache)
  {
    var f := ActionIdsOf(p, cache);
    forall n | 0 <= n < |c.actions|
      ensures Distinct(f(c.actions[n]))
    {
      forall i: nat, j: nat | i < j < p.Repetitions(cache)
        ensures AckId(cache, c.actions[n], i) != AckId(cache, c.actions[n], j)
      {
        if AckId(cache, c.actions[n], i) == AckId(cache, c.actions[n], j) {
          SameAckId(cache, c.actions[n], i, cache, c.actions[n], j);
        }
      }
    }
    forall m, n | 0 <= m < n < |c.actions|
      ensures Apart(f, c.actions[m], c.actions[n])
    {
      forall u | u in f(c.actions[m])
        ensures u !in f(c.actions[n])
      {
        if u in f(c.actions[n]) {
          var i: nat :| i < p.Repetitions(cache) && AckId(cache, c.actions[m], i) == u;
          var j: nat :| j < p.Repetitions(cache) && AckId(cache, c.actions[n], j) == u;
          SameAckId(cache, c.actions[m], i, cache, c.actions[n], j);
        }
      }
    }
    FlatDistinct(f, c.actions);
    forall u | u in Flat(f, c.actions)
      ensures IsAckId(c, u, cache)
    {
      FlatMembers(f, c.actions, u);
      var n :| 0 <= n < |c.actions| && u in f(c.actions[n]);
      var i: nat :| i < p.Repetitions(cache) && AckId(cache, c.actions[n], i) == u;
      assert c.actions[n] in c.actions;
    }
  }

  // ---------- Resource IDs ----------

  function ProfileResourceId(cache: string, i: nat): string -> string {
    profile => ResourceId(cache, Some(profile), i)
  }

  function TurnResourceIds(c: Contract, cache: string): nat -> seq<string> {
    (i: nat) => [ResourceId(cache, None, i)] + Map(ProfileResourceId(cache, i), c.profiles)
  }

  function ResourceIdsOf(c: Contract, p: Protocol): string -> seq<string>
    requires p.Valid()
  {
    cache => Flat(TurnResourceIds(c, cache), Range(p.Repetitions(cache)))
  }

  ghost predicate IsResourceId(c: Contract, u: string, cache: string, i: nat) {
    exists stratum: Option<string> :: IsStratum(c, stratum) && u == ResourceId(cache, stratum, i)
  }

  predicate IsStratum(c: Contract, stratum: Option<string>) {
    stratum.Some? ==> stratum.value in c.profiles
  }

  lemma StratumIsWord(c: Contract, stratum: Option<string>)
    requires c.Valid() && IsStratum(c, stratum)
    ensures stratum.Some? ==> IsWord(stratum.value) && stratum.value != "identity"
  {
    if stratum.Some? {
      NamesAreWords(c.profiles, stratum.value);
    }
  }

  lemma SameResource(c: Contract, u: string, a: string, i: nat, b: string, j: nat)
    requires c.Valid() && a in CACHES && b in CACHES && IsResourceId(c, u, a, i) && IsResourceId(c, u, b, j)
    ensures a == b && i == j
  {
    var s: Option<string> :| IsStratum(c, s) && u == ResourceId(a, s, i);
    var t: Option<string> :| IsStratum(c, t) && u == ResourceId(b, t, j);
    StratumIsWord(c, s);
    StratumIsWord(c, t);
    SameResourceId(a, s, i, b, t, j);
  }

  lemma TurnResourceIdsAre(c: Contract, cache: string, i: nat)
    requires c.Valid() && cache in CACHES
    ensures Distinct(TurnResourceIds(c, cache)(i))
    ensures forall u | u in TurnResourceIds(c, cache)(i) :: IsResourceId(c, u, cache, i)
  {
    var later := Map(ProfileResourceId(cache, i), c.profiles);
    forall m: nat, n: nat | m < n < |c.profiles|
      ensures later[m] != later[n]
    {
      StratumIsWord(c, Some(c.profiles[m]));
      StratumIsWord(c, Some(c.profiles[n]));
      if later[m] == later[n] {
        SameResourceId(cache, Some(c.profiles[m]), i, cache, Some(c.profiles[n]), i);
      }
    }
    forall u | u in later
      ensures u != ResourceId(cache, None, i) && IsResourceId(c, u, cache, i)
    {
      var m :| 0 <= m < |later| && later[m] == u;
      assert IsStratum(c, Some(c.profiles[m])) && u == ResourceId(cache, Some(c.profiles[m]), i);
      StratumIsWord(c, Some(c.profiles[m]));
      if u == ResourceId(cache, None, i) {
        SameResourceId(cache, Some(c.profiles[m]), i, cache, None, i);
      }
    }
    assert IsStratum(c, None) && IsResourceId(c, ResourceId(cache, None, i), cache, i);
    DistinctConcat([ResourceId(cache, None, i)], later);
  }

  ghost predicate IsResourceIdIn(c: Contract, u: string, cache: string) {
    exists i: nat :: IsResourceId(c, u, cache, i)
  }

  lemma CacheResourceIds(c: Contract, p: Protocol, cache: string)
    requires c.Valid() && p.Valid() && cache in CACHES
    ensures Distinct(ResourceIdsOf(c, p)(cache))
    ensures forall u | u in ResourceIdsOf(c, p)(cache) :: IsResourceIdIn(c, u, cache)
  {
    var f := TurnResourceIds(c, cache);
    var turns := Range(p.Repetitions(cache));
    forall i | 0 <= i < |turns|
      ensures Distinct(f(turns[i])) && forall u | u in f(turns[i]) :: IsResourceId(c, u, cache, i)
    {
      TurnResourceIdsAre(c, cache, i);
    }
    forall i, j | 0 <= i < j < |turns|
      ensures Apart(f, turns[i], turns[j])
    {
      forall u | u in f(turns[i])
        ensures u !in f(turns[j])
      {
        if u in f(turns[j]) {
          SameResource(c, u, cache, i, cache, j);
        }
      }
    }
    FlatDistinct(f, turns);
    forall u | u in Flat(f, turns)
      ensures IsResourceIdIn(c, u, cache)
    {
      FlatMembers(f, turns, u);
      var i :| 0 <= i < |turns| && u in f(turns[i]);
      assert IsResourceId(c, u, cache, i);
    }
  }

  lemma DistinctResourceIds(c: Contract, p: Protocol)
    requires c.Valid() && p.Valid()
    ensures Distinct(Flat(ResourceIdsOf(c, p), CACHES))
  {
    var f := ResourceIdsOf(c, p);
    forall n | 0 <= n < |CACHES|
      ensures Distinct(f(CACHES[n])) && forall u | u in f(CACHES[n]) :: IsResourceIdIn(c, u, CACHES[n])
    {
      CacheResourceIds(c, p, CACHES[n]);
    }
    forall m, n | 0 <= m < n < |CACHES|
      ensures Apart(f, CACHES[m], CACHES[n])
    {
      forall u | u in f(CACHES[m])
        ensures u !in f(CACHES[n])
      {
        if u in f(CACHES[n]) {
          var i: nat :| IsResourceId(c, u, CACHES[m], i);
          var j: nat :| IsResourceId(c, u, CACHES[n], j);
          SameResource(c, u, CACHES[m], i, CACHES[n], j);
        }
      }
    }
    FlatDistinct(f, CACHES);
  }
}
