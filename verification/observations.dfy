/** Flattening the child observations of a run into the five lists of the result. */
module Observations {
  import opened Wrappers
  import opened Text
  import opened Sorting
  import opened Paths
  import opened Sequences
  import opened BenchmarkContract
  import opened ChildObservations

  datatype IdentityWait = IdentityWait(cacheState: string, durationNs: int, id: string)

  datatype Stage = InitialDecision | LaterDecision

  datatype DecisionWait = DecisionWait(
    cacheState: string, durationNs: int, id: string, profile: string, round: Option<int>, stage: Stage)

  datatype Component = Component(durationNs: int, name: string, parent: string)

  datatype Acknowledgement = Acknowledgement(action: string, cacheState: string, durationNs: int, id: string)

  datatype Resource = Resource(cacheState: string, id: string, peak: int, cpu: int, readBytes: int, writeBytes: int)

  datatype Observations = Observations(
    identityWaits: seq<IdentityWait>,
    decisionWaits: seq<DecisionWait>,
    components: seq<Component>,
    acknowledgements: seq<Acknowledgement>,
    resources: seq<Resource>)

  /** The dictionaries `identities` and `scenarios`. */
  type Identities = map<(string, nat), Child>
  type Scenarios = map<(string, string, nat), Child>

  const MISSING: Child := Child("", None, None, None, [], [], [], 0, 0, 0, 0, [], false)

  /** Both dictionaries have an entry for every lookup. */
  ghost predicate Total(c: Contract, p: Protocol, ids: Identities, scs: Scenarios)
    requires p.Valid()
  {
    && (forall cache, i: nat | cache in CACHES && i < p.Repetitions(cache) :: (cache, i) in ids)
    && (forall cache, profile, i: nat | cache in CACHES && profile in c.profiles && i < p.Repetitions(cache) ::
          (cache, profile, i) in scs)
  }

  function Identity(ids: Identities, cache: string, i: nat): Child {
    if (cache, i) in ids then ids[(cache, i)] else MISSING
  }

  function Scenario(scs: Scenarios, cache: string, profile: string, i: nat): Child {
    if (cache, profile, i) in scs then scs[(cache, profile, i)] else MISSING
  }

  function OrZero(n: Option<int>): int {
    if n.Some? then n.value else 0
  }

  /** `dict(spans)[name]`. */
  function DurationOf(spans: seq<Span>, name: string): int {
    if spans == [] then 0
    else if spans[|spans| - 1].0 == name then spans[|spans| - 1].1
    else DurationOf(spans[..|spans| - 1], name)
  }

  // ---------- One record ----------

  function IdentityWaitOf(ids: Identities, cache: string): nat -> IdentityWait {
    (i: nat) => IdentityWait(cache, OrZero(Identity(ids, cache, i).identityWait), IdentityId(cache, i))
  }

  function FingerprintOf(ids: Identities, cache: string): nat -> Component {
    (i: nat) =>
      var spans := Identity(ids, cache, i).spans;
      Component(if spans == [] then 0 else spans[0].1, "fingerprint", IdentityId(cache, i))
  }

  function InitialWait(o: Child, cache: string, profile: string, i: nat): DecisionWait {
    DecisionWait(cache, OrZero(o.initialDecision), InitialId(cache, profile, i), profile, None, InitialDecision)
  }

  function LaterWaitOf(cache: string, profile: string, i: nat): ((nat, int)) -> DecisionWait {
    (r: (nat, int)) =>
      DecisionWait(cache, r.1, LaterId(cache, profile, i, r.0), profile, Some(r.0), LaterDecision)
  }

  /** The parent's ID and the component's own name, read off the name of a span. */
  function Placed(cache: string, profile: string, i: nat, name: string): (string, string) {
    var parts := Split(name, '.');
    if parts[0] == "initial" then (InitialId(cache, profile, i), Join(parts[1..], '.'))
    else if |parts| >= 2 && AllDigits(parts[1]) then
      (LaterId(cache, profile, i, DigitsValue(parts[1])), Join(parts[2..], '.'))
    else ("", "")
  }

  function ComponentOf(cache: string, profile: string, i: nat): Span -> Component {
    (s: Span) => var placed := Placed(cache, profile, i, s.0); Component(s.1, placed.1, placed.0)
  }

  function AckOf(ids: Identities, cache: string, action: string): nat -> Acknowledgement {
    (i: nat) =>
      Acknowledgement(action, cache, DurationOf(Identity(ids, cache, i).acknowledgements, action),
                      AckId(cache, action, i))
  }

  function ResourceOf(o: Child, cache: string, profile: Option<string>, i: nat): Resource {
    Resource(cache, ResourceId(cache, profile, i), o.peak, o.cpu, o.readBytes, o.writeBytes)
  }

  // ---------- The loops, as comprehensions ----------

  function IdentityWaitsOf(p: Protocol, ids: Identities): string -> seq<IdentityWait>
    requires p.Valid()
  {
    cache => Map(IdentityWaitOf(ids, cache), Range(p.Repetitions(cache)))
  }

  function FingerprintsOf(p: Protocol, ids: Identities, cache: string): seq<Component>
    requires p.Valid()
  {
    Map(FingerprintOf(ids, cache), Range(p.Repetitions(cache)))
  }

  function ScenarioWaits(scs: Scenarios, cache: string, profile: string): nat -> seq<DecisionWait> {
    (i: nat) =>
      var o := Scenario(scs, cache, profile, i);
      [InitialWait(o, cache, profile, i)] + Map(LaterWaitOf(cache, profile, i), o.laterDecisions)
  }

  function ScenarioComponents(scs: Scenarios, cache: string, profile: string): nat -> seq<Component> {
    (i: nat) => Map(ComponentOf(cache, profile, i), Scenario(scs, cache, profile, i).spans)
  }

  function ProfileWaits(p: Protocol, scs: Scenarios, cache: string): string -> seq<DecisionWait>
    requires p.Valid()
  {
    profile => Flat(ScenarioWaits(scs, cache, profile), Range(p.Repetitions(cache)))
  }

  function ProfileComponents(p: Protocol, scs: Scenarios, cache: string): string -> seq<Component>
    requires p.Valid()
  {
    profile => Flat(ScenarioComponents(scs, cache, profile), Range(p.Repetitions(cache)))
  }

  function DecisionWaitsOf(c: Contract, p: Protocol, scs: Scenarios): string -> seq<DecisionWait>
    requires p.Valid()
  {
    cache => Flat(ProfileWaits(p, scs, cache), c.profiles)
  }

  function ComponentsOf(c: Contract, p: Protocol, ids: Identities, scs: Scenarios): string -> seq<Component>
    requires p.Valid()
  {
    cache => FingerprintsOf(p, ids, cache) + Flat(ProfileComponents(p, scs, cache), c.profiles)
  }

  function ActionAcks(p: Protocol, ids: Identities, cache: string): string -> seq<Acknowledgement>
    requires p.Valid()
  {
    action => Map(AckOf(ids, cache, action), Range(p.Repetitions(cache)))
  }

  function AcksOf(c: Contract, p: Protocol, ids: Identities): string -> seq<Acknowledgement>
    requires p.Valid()
  {
    cache => Flat(ActionAcks(p, ids, cache), c.actions)
  }

  function ProfileResource(scs: Scenarios, cache: string, i: nat): string -> Resource {
    profile => ResourceOf(Scenario(scs, cache, profile, i), cache, Some(profile), i)
  }

  function TurnResources(c: Contract, ids: Identities, scs: Scenarios, cache: string): nat -> seq<Resource> {
    (i: nat) =>
      [ResourceOf(Identity(ids, cache, i), cache, None, i)] + Map(ProfileResource(scs, cache, i), c.profiles)
  }

  function ResourcesOf(c: Contract, p: Protocol, ids: Identities, scs: Scenarios): string -> seq<Resource>
    requires p.Valid()
  {
    cache => Flat(TurnResources(c, ids, scs, cache), Range(p.Repetitions(cache)))
  }

  predicate ComponentLe(a: Component, b: Component) {
    if a.parent == b.parent then TextLe(a.name, b.name) else TextLe(a.parent, b.parent)
  }

  predicate ResourceLe(a: Resource, b: Resource) { TextLe(a.id, b.id) }

  /** `_flatten_observations`. */
  function Flattened(c: Contract, p: Protocol, ids: Identities, scs: Scenarios): Observations
    requires p.Valid()
  {
    Observations(Flat(IdentityWaitsOf(p, ids), CACHES),
                 Flat(DecisionWaitsOf(c, p, scs), CACHES),
                 Sort(Flat(ComponentsOf(c, p, ids, scs), CACHES), ComponentLe),
                 Flat(AcksOf(c, p, ids), CACHES),
                 Sort(Flat(ResourcesOf(c, p, ids, scs), CACHES), ResourceLe))
  }

  // ---------- The loops themselves ----------

  method FlattenIdentities(p: Protocol, ids: Identities, cache: string)
    returns (waits: seq<IdentityWait>, components: seq<Component>)
    requires p.Valid() && forall i: nat | i < p.Repetitions(cache) :: (cache, i) in ids
    ensures waits == IdentityWaitsOf(p, ids)(cache) && components == FingerprintsOf(p, ids, cache)
  {
    waits, components := [], [];
    for i := 0 to p.Repetitions(cache)
      invariant waits == IdentityWaitsOf(p, ids)(cache)[..i] && components == FingerprintsOf(p, ids, cache)[..i]
    {
      var o := ids[(cache, i)];
      waits := waits + [IdentityWait(cache, OrZero(o.identityWait), IdentityId(cache, i))];
      var fingerprint := if o.spans == [] then 0 else o.spans[0].1;
      components := components + [Component(fingerprint, "fingerprint", IdentityId(cache, i))];
    }
  }

  method FlattenScenario(o: Child, cache: string, profile: string, i: nat)
    returns (waits: seq<DecisionWait>, components: seq<Component>)
    ensures waits == [InitialWait(o, cache, profile, i)] + Map(LaterWaitOf(cache, profile, i), o.laterDecisions)
    ensures components == Map(ComponentOf(cache, profile, i), o.spans)
  {
    waits, components := [InitialWait(o, cache, profile, i)], [];
    for k := 0 to |o.laterDecisions|
      invariant waits ==
                [InitialWait(o, cache, profile, i)] + Map(LaterWaitOf(cache, profile, i), o.laterDecisions)[..k]
    {
      var (ordinal, duration) := o.laterDecisions[k];
      waits := waits +
        [DecisionWait(cache, duration, LaterId(cache, profile, i, ordinal), profile, Some(ordinal), LaterDecision)];
    }
    for k := 0 to |o.spans|
      invariant components == Map(ComponentOf(cache, profile, i), o.spans)[..k]
    {
      var (parent, name) := Placed(cache, profile, i, o.spans[k].0);
      components := components + [Component(o.spans[k].1, name, parent)];
    }
  }

  method FlattenProfile(p: Protocol, scs: Scenarios, cache: string, profile: string)
    returns (waits: seq<DecisionWait>, components: seq<Component>)
    requires p.Valid() && forall i: nat | i < p.Repetitions(cache) :: (cache, profile, i) in scs
    ensures waits == ProfileWaits(p, scs, cache)(profile) && components == ProfileComponents(p, scs, cache)(profile)
  {
    waits, components := [], [];
    var turns := Range(p.Repetitions(cache));
    for i := 0 to p.Repetitions(cache)
      invariant waits == Flat(ScenarioWaits(scs, cache, profile), turns[..i])
      invariant components == Flat(ScenarioComponents(scs, cache, profile), turns[..i])
    {
      FlatStep(ScenarioWaits(scs, cache, profile), turns, i);
      FlatStep(ScenarioComponents(scs, cache, profile), turns, i);
      var ws, cs := FlattenScenario(scs[(cache, profile, i)], cache, profile, i);
      waits, components := waits + ws, components + cs;
    }
    assert turns[..|turns|] == turns;
  }

  method FlattenProfiles(c: Contract, p: Protocol, scs: Scenarios, cache: string)
    returns (waits: seq<DecisionWait>, components: seq<Component>)
    requires p.Valid()
    requires forall profile, i: nat | profile in c.profiles && i < p.Repetitions(cache) :: (cache, profile, i) in scs
    ensures waits == DecisionWaitsOf(c, p, scs)(cache)
    ensures components == Flat(ProfileComponents(p, scs, cache), c.profiles)
  {
    waits, components := [], [];
    for n := 0 to |c.profiles|
      invariant waits == Flat(ProfileWaits(p, scs, cache), c.profiles[..n])
      invariant components == Flat(ProfileComponents(p, scs, cache), c.profiles[..n])
    {
      FlatStep(ProfileWaits(p, scs, cache), c.profiles, n);
      FlatStep(ProfileComponents(p, scs, cache), c.profiles, n);
      var ws, cs := FlattenProfile(p, scs, cache, c.profiles[n]);
      waits, components := waits + ws, components + cs;
    }
    assert c.profiles[..|c.profiles|] == c.profiles;
  }

  method FlattenAction(p: Protocol, ids: Identities, cache: string, action: string) returns (acks: seq<Acknowledgement>)
    requires p.Valid() && forall i: nat | i < p.Repetitions(cache) :: (cache, i) in ids
    ensures acks == ActionAcks(p, ids, cache)(action)
  {
    acks := [];
    for i := 0 to p.Repetitions(cache)
      invariant acks == ActionAcks(p, ids, cache)(action)[..i]
    {
      var duration := DurationOf(ids[(cache, i)].acknowledgements, action);
      acks := acks + [Acknowledgement(action, cache, duration, AckId(cache, action, i))];
    }
  }

  method FlattenAcks(c: Contract, p: Protocol, ids: Identities, cache: string) returns (acks: seq<Acknowledgement>)
    requires p.Valid() && forall i: nat | i < p.Repetitions(cache) :: (cache, i) in ids
    ensures acks == AcksOf(c, p, ids)(cache)
  {
    acks := [];
    for n := 0 to |c.actions|
      invariant acks == Flat(ActionAcks(p, ids, cache), c.actions[..n])
    {
      FlatStep(ActionAcks(p, ids, cache), c.actions, n);
      var more := FlattenAction(p, ids, cache, c.actions[n]);
      acks := acks + more;
    }
    assert c.actions[..|c.actions|] == c.actions;
  }

  method FlattenTurn(c: Contract, ids: Identities, scs: Scenarios, cache: string, i: nat) returns (turn: seq<Resource>)
    requires (cache, i) in ids && forall profile | profile in c.profiles :: (cache, profile, i) in scs
    ensures turn == TurnResources(c, ids, scs, cache)(i)
  {
    var first := [ResourceOf(ids[(cache, i)], cache, None, i)];
    turn := first;
    for n := 0 to |c.profiles|
      invariant turn == first + Map(ProfileResource(scs, cache, i), c.profiles)[..n]
    {
      turn := turn + [ResourceOf(scs[(cache, c.profiles[n], i)], cache, Some(c.profiles[n]), i)];
    }
  }

  method FlattenResources(c: Contract, p: Protocol, ids: Identities, scs: Scenarios, cache: string)
    returns (resources: seq<Resource>)
    requires p.Valid() && forall i: nat | i < p.Repetitions(cache) :: (cache, i) in ids
    requires forall profile, i: nat | profile in c.profiles && i < p.Repetitions(cache) :: (cache, profile, i) in scs
    ensures resources == ResourcesOf(c, p, ids, scs)(cache)
  {
    resources := [];
    var turns := Range(p.Repetitions(cache));
    for i := 0 to p.Repetitions(cache)
      invariant resources == Flat(TurnResources(c, ids, scs, cache), turns[..i])
    {
      FlatStep(TurnResources(c, ids, scs, cache), turns, i);
      var turn := FlattenTurn(c, ids, scs, cache, i);
      resources := resources + turn;
    }
    assert turns[..|turns|] == turns;
  }

  method FlattenObservations(c: Contract, p: Protocol, ids: Identities, scs: Scenarios) returns (o: Observations)
    requires p.Valid() && Total(c, p, ids, scs)
    ensures o == Flattened(c, p, ids, scs)
  {
    var identityWaits: seq<IdentityWait>, decisionWaits: seq<DecisionWait> := [], [];
    var components: seq<Component>, acks: seq<Acknowledgement>, resources: seq<Resource> := [], [], [];
    for n := 0 to |CACHES|
      invariant identityWaits == Flat(IdentityWaitsOf(p, ids), CACHES[..n])
      invariant decisionWaits == Flat(DecisionWaitsOf(c, p, scs), CACHES[..n])
      invariant components == Flat(ComponentsOf(c, p, ids, scs), CACHES[..n])
      invariant acks == Flat(AcksOf(c, p, ids), CACHES[..n])
      invariant resources == Flat(ResourcesOf(c, p, ids, scs), CACHES[..n])
    {
      var cache := CACHES[n];
      FlatStep(IdentityWaitsOf(p, ids), CACHES, n);
      FlatStep(DecisionWaitsOf(c, p, scs), CACHES, n);
      FlatStep(ComponentsOf(c, p, ids, scs), CACHES, n);
      FlatStep(AcksOf(c, p, ids), CACHES, n);
      FlatStep(ResourcesOf(c, p, ids, scs), CACHES, n);
      var iw, fs := FlattenIdentities(p, ids, cache);
      var dw, cs := FlattenProfiles(c, p, scs, cache);
      var ak := FlattenAcks(c, p, ids, cache);
      var rs := FlattenResources(c, p, ids, scs, cache);
      identityWaits, decisionWaits := identityWaits + iw, decisionWaits + dw;
      components, acks, resources := components + (fs + cs), acks + ak, resources + rs;
    }
    assert CACHES[..|CACHES|] == CACHES;
    o := Observations(identityWaits, decisionWaits, Sort(components, ComponentLe), acks, Sort(resources, ResourceLe));
  }
}
