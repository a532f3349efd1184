/** The independent validation of the five observation lists. */
module ObservationValidators {
  import opened Wrappers
  import opened Text
  import opened Sorting
  import opened Sequences
  import opened BenchmarkContract
  import opened Observations

  type Pair = (string, string)

  predicate PairLe(a: Pair, b: Pair) {
    if a.0 == b.0 then TextLe(a.1, b.1) else TextLe(a.0, b.0)
  }

  predicate IsDuration(n: int) {
    1 <= n <= MAX_SAFE_INTEGER
  }

  function IdentityWaitId(w: IdentityWait): string { w.id }

  function DecisionWaitId(w: DecisionWait): string { w.id }

  function AckIdentifier(a: Acknowledgement): string { a.id }

  function ResourceIdentifier(r: Resource): string { r.id }

  function PairOf(x: Component): Pair { (x.parent, x.name) }

  // ---------- What each list must satisfy ----------

  predicate IdentityWaitOk(w: IdentityWait) {
    w.cacheState in CACHES && IsDuration(w.durationNs) && IsClosedId(w.id)
  }

  predicate IdentityWaitsOk(p: Protocol, waits: seq<IdentityWait>)
    requires p.Valid()
  {
    && (forall i | 0 <= i < |waits| :: IdentityWaitOk(waits[i]))
    && Distinct(Map(IdentityWaitId, waits))
    && Map(IdentityWaitId, waits) == ExpectedIdentityIds(p)
  }

  predicate RoundOk(c: Contract, w: DecisionWait) {
    match w.stage
    case InitialDecision => w.round.None?
    case LaterDecision =>
      w.round.Some? && 1 <= w.round.value <= MAX_SAFE_INTEGER && w.round.value <= c.rounds(w.profile)
  }

  function DecisionWaitTest(c: Contract): DecisionWait -> bool {
    (w: DecisionWait) =>
      w.cacheState in CACHES && w.profile in c.profiles && RoundOk(c, w) && IsDuration(w.durationNs) && IsClosedId(w.id)
  }

  predicate DecisionWaitsOk(c: Contract, p: Protocol, waits: seq<DecisionWait>)
    requires p.Valid()
  {
    && (forall i | 0 <= i < |waits| :: DecisionWaitTest(c)(waits[i]))
    && Distinct(Map(DecisionWaitId, waits))
    && Map(DecisionWaitId, waits) == ExpectedDecisionIds(c, p)
  }

  /** The components that a decision wait must have. */
  function NamesFor(c: Contract, w: DecisionWait): seq<string> {
    if w.stage == InitialDecision then c.initialComponents
    else if w.round == Some(c.rounds(w.profile)) then c.terminalComponents
    else c.laterComponents
  }

  function FingerprintPair(w: IdentityWait): Pair { (w.id, "fingerprint") }

  function PairWith(id: string): string -> Pair {
    name => (id, name)
  }

  function WaitPairs(c: Contract): DecisionWait -> seq<Pair> {
    (w: DecisionWait) => Map(PairWith(w.id), NamesFor(c, w))
  }

  function ExpectedPairs(c: Contract, iw: seq<IdentityWait>, dw: seq<DecisionWait>): seq<Pair> {
    Map(FingerprintPair, iw) + Flat(WaitPairs(c), dw)
  }

  type Durations = map<string, int>

  function IdentityDurations(iw: seq<IdentityWait>): Durations {
    if iw == [] then map[]
    else IdentityDurations(iw[..|iw| - 1])[iw[|iw| - 1].id := iw[|iw| - 1].durationNs]
  }

  function ParentDurations(base: Durations, dw: seq<DecisionWait>): Durations {
    if dw == [] then base
    else ParentDurations(base, dw[..|dw| - 1])[dw[|dw| - 1].id := dw[|dw| - 1].durationNs]
  }

  function ComponentTest(parents: Durations): Component -> bool {
    (x: Component) =>
      && IsClosedId(x.parent) && IsClosedId(x.name) && IsDuration(x.durationNs)
      && x.parent in parents && x.durationNs <= parents[x.parent]
  }

  predicate ComponentsOk(c: Contract, iw: seq<IdentityWait>, dw: seq<DecisionWait>, components: seq<Component>) {
    && (forall i | 0 <= i < |components| :: ComponentTest(ParentDurations(IdentityDurations(iw), dw))(components[i]))
    && Distinct(Map(PairOf, components))
    && Map(PairOf, components) == Sort(ExpectedPairs(c, iw, dw), PairLe)
  }

  function AckTest(c: Contract): Acknowledgement -> bool {
    (a: Acknowledgement) =>
      a.action in c.actions && a.cacheState in CACHES && IsDuration(a.durationNs) && IsClosedId(a.id)
  }

  predicate AcknowledgementsOk(c: Contract, p: Protocol, acks: seq<Acknowledgement>)
    requires p.Valid()
  {
    && (forall i | 0 <= i < |acks| :: AckTest(c)(acks[i]))
    && Distinct(Map(AckIdentifier, acks))
    && Map(AckIdentifier, acks) == ExpectedAckIds(c, p)
  }

  predicate ResourceOk(r: Resource) {
    && r.cacheState in CACHES && IsClosedId(r.id)
    && 1 <= r.peak <= MAX_SAFE_INTEGER && 1 <= r.cpu <= MAX_SAFE_INTEGER
    && 0 <= r.readBytes <= MAX_SAFE_INTEGER && 0 <= r.writeBytes <= MAX_SAFE_INTEGER
  }

  function StatesOf(resources: seq<Resource>): set<string> {
    set r | r in resources :: r.cacheState
  }

  predicate ResourcesOk(resources: seq<Resource>) {
    && resources != []
    && (forall i | 0 <= i < |resources| :: ResourceOk(resources[i]))
    && Distinct(Map(ResourceIdentifier, resources))
    && Map(ResourceIdentifier, resources) == Sort(Map(ResourceIdentifier, resources), TextLe)
    && StatesOf(resources) == {"cold", "warm"}
  }

  predicate ObservationsOk(c: Contract, p: Protocol, o: Observations)
    requires p.Valid()
  {
    && IdentityWaitsOk(p, o.identityWaits)
    && DecisionWaitsOk(c, p, o.decisionWaits)
    && ComponentsOk(c, o.identityWaits, o.decisionWaits, o.components)
    && AcknowledgementsOk(c, p, o.acknowledgements)
    && ResourcesOk(o.resources)
  }

  // ---------- The validators ----------

  /** One pass over a list: test every item and collect its ID. */
  method TestAndCollect<T, U>(items: seq<T>, test: T -> bool, key: T -> U) returns (ok: bool, keys: seq<U>)
    ensures ok <==> forall i | 0 <= i < |items| :: test(items[i])
    ensures ok ==> keys == Map(key, items)
  {
    keys := [];
    for i := 0 to |items|
      invariant keys == Map(key, items)[..i]
      invariant forall k | 0 <= k < i :: test(items[k])
    {
      if !test(items[i]) {
        return false, keys;
      }
      keys := keys + [key(items[i])];
    }
    return true, keys;
  }

  method ValidateIdentityWaits(p: Protocol, waits: seq<IdentityWait>) returns (ok: bool)
    requires p.Valid()
    ensures ok <==> IdentityWaitsOk(p, waits)
  {
    var ids: seq<string>;
    ok, ids := TestAndCollect(waits, IdentityWaitOk, IdentityWaitId);
    ok := ok && Distinct(ids) && ids == ExpectedIdentityIds(p);
  }

  method ValidateDecisionWaits(c: Contract, p: Protocol, waits: seq<DecisionWait>) returns (ok: bool)
    requires p.Valid()
    ensures ok <==> DecisionWaitsOk(c, p, waits)
  {
    var ids: seq<string>;
    ok, ids := TestAndCollect(waits, DecisionWaitTest(c), DecisionWaitId);
    ok := ok && Distinct(ids) && ids == ExpectedDecisionIds(c, p);
  }

  method CollectDurations(iw: seq<IdentityWait>, dw: seq<DecisionWait>) returns (parents: Durations)
    ensures parents == ParentDurations(IdentityDurations(iw), dw)
  {
    parents := map[];
    for i := 0 to |iw|
      invariant parents == IdentityDurations(iw[..i])
    {
      assert iw[..i + 1][..i] == iw[..i];
      parents := parents[iw[i].id := iw[i].durationNs];
    }
    assert iw[..|iw|] == iw;
    for i := 0 to |dw|
      invariant parents == ParentDurations(IdentityDurations(iw), dw[..i])
    {
      assert dw[..i + 1][..i] == dw[..i];
      parents := parents[dw[i].id := dw[i].durationNs];
    }
    assert dw[..|dw|] == dw;
  }

  method CollectPairs(c: Contract, iw: seq<IdentityWait>, dw: seq<DecisionWait>) returns (expected: seq<Pair>)
    ensures expected == ExpectedPairs(c, iw, dw)
  {
    expected := ExtendByBlocks(Map(FingerprintPair, iw), dw, WaitPairs(c));
  }

  method ValidateComponents(c: Contract, iw: seq<IdentityWait>, dw: seq<DecisionWait>, components: seq<Component>)
    returns (ok: bool)
    ensures ok <==> ComponentsOk(c, iw, dw, components)
  {
    var expected := CollectPairs(c, iw, dw);
    var parents := CollectDurations(iw, dw);
    var actual: seq<Pair>;
    ok, actual := TestAndCollect(components, ComponentTest(parents), PairOf);
    ok := ok && Distinct(actual) && actual == Sort(expected, PairLe);
  }

  method ValidateAcknowledgements(c: Contract, p: Protocol, acks: seq<Acknowledgement>) returns (ok: bool)
    requires p.Valid()
    ensures ok <==> AcknowledgementsOk(c, p, acks)
  {
    var ids: seq<string>;
    ok, ids := TestAndCollect(acks, AckTest(c), AckIdentifier);
    ok := ok && Distinct(ids) && ids == ExpectedAckIds(c, p);
  }

  method ValidateResources(resources: seq<Resource>) returns (ok: bool)
    ensures ok <==> ResourcesOk(resources)
  {
    if resources == [] {
      return false;
    }
    var ids: seq<string>;
    ok, ids := TestAndCollect(resources, ResourceOk, ResourceIdentifier);
    ok := ok && Distinct(ids) && ids == Sort(ids, TextLe) && StatesOf(resources) == {"cold", "warm"};
  }
}
