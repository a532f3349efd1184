/** The observation a child process reports, and what its constructor refuses. */
module ChildObservations {
  import opened Wrappers
  import opened Text
  import opened Sorting
  import opened Paths
  import opened Sequences
  import opened BenchmarkContract

  type Span = (string, int)

  /** The measured part of `ChildObservation`; `authority` are the passport, preparation and ledger digests of a
      scenario, and `authorityOk` stands for the tests on identities, outputs and the form of digests. */
  datatype Child = Child(
    cacheState: string,
    profile: Option<string>,
    identityWait: Option<int>,
    initialDecision: Option<int>,
    laterDecisions: seq<(nat, int)>,
    acknowledgements: seq<Span>,
    spans: seq<Span>,
    peak: int, cpu: int, readBytes: int, writeBytes: int,
    authority: seq<string>,
    authorityOk: bool)

  function SpanName(s: Span): string { s.0 }

  function RoundOf(r: (nat, int)): nat { r.0 }

  /** Python's order on `(name, duration)`. */
  predicate SpanLe(a: Span, b: Span) {
    if a.0 == b.0 then a.1 <= b.1 else TextLe(a.0, b.0)
  }

  predicate Positive(spans: seq<Span>) {
    forall i | 0 <= i < |spans| :: 1 <= spans[i].1
  }

  predicate PositiveRounds(rounds: seq<(nat, int)>) {
    forall i | 0 <= i < |rounds| :: 1 <= rounds[i].1
  }

  // ---------- Component names ----------

  function InitialName(name: string): string {
    Join(["initial", name], '.')
  }

  function LaterName(k: nat): string -> string {
    name => Join(["later", Decimal(k), name], '.')
  }

  function LaterNamesOf(c: Contract, profile: string): nat -> seq<string> {
    (k: nat) => Map(LaterName(k + 1), c.LaterNames(profile, k + 1))
  }

  /** The names that `_expected_scenario_component_names` puts into its set. */
  function ComponentNames(c: Contract, profile: string): seq<string> {
    Map(InitialName, c.initialComponents) + Flat(LaterNamesOf(c, profile), Range(c.rounds(profile)))
  }

  /** `_expected_scenario_component_names`. */
  function ExpectedComponentNames(c: Contract, profile: string): seq<string> {
    Sort(ComponentNames(c, profile), TextLe)
  }

  /** The wait a component belongs to. */
  function WaitOf(name: string): string {
    if "later." <= name then
      var parts := Split(name, '.');
      Join(if |parts| >= 2 then parts[..2] else parts, '.')
    else "initial"
  }

  function LaterWait(k: nat): string {
    Join(["later", Decimal(k)], '.')
  }

  /** The dictionary of waits and their durations. */
  function WaitDurations(initial: int, later: seq<(nat, int)>): map<string, int> {
    if later == [] then map["initial" := initial]
    else
      var last := later[|later| - 1];
      WaitDurations(initial, later[..|later| - 1])[LaterWait(last.0) := last.1]
  }

  /** Each component fits into its wait. */
  predicate WithinWaits(spans: seq<Span>, waits: map<string, int>) {
    forall i | 0 <= i < |spans| :: WaitOf(spans[i].0) in waits && spans[i].1 <= waits[WaitOf(spans[i].0)]
  }

  // ---------- The constructor's tests ----------

  predicate IdentityOk(o: Child) {
    && o.identityWait.Some? && 1 <= o.identityWait.value
    && o.initialDecision.None? && o.laterDecisions == []
    && o.spans == [("fingerprint", o.identityWait.value)]
  }

  predicate ScenarioOk(o: Child, c: Contract, profile: string) {
    && o.identityWait.None?
    && o.initialDecision.Some? && 1 <= o.initialDecision.value
    && Map(RoundOf, o.laterDecisions) == seq(c.rounds(profile), i => i + 1)
    && PositiveRounds(o.laterDecisions)
    && Map(SpanName, o.spans) == ExpectedComponentNames(c, profile)
    && WithinWaits(o.spans, WaitDurations(o.initialDecision.value, o.laterDecisions))
  }

  /** `ChildObservation.__post_init__`. */
  predicate ObservationOk(o: Child, c: Contract) {
    && o.cacheState in CACHES
    && (o.profile.Some? ==> o.profile.value in c.profiles)
    && 1 <= o.peak && 1 <= o.cpu && 0 <= o.readBytes && 0 <= o.writeBytes
    && Sort(o.spans, SpanLe) == o.spans && Distinct(Map(SpanName, o.spans))
    && (forall i | 0 <= i < |o.spans| :: IsClosedId(o.spans[i].0)) && Positive(o.spans)
    && (o.acknowledgements == [] || Map(SpanName, o.acknowledgements) == c.actions) && Positive(o.acknowledgements)
    && |o.authority| == (if o.profile.Some? then 3 else 0) && o.authorityOk
    && match o.profile
       case None => IdentityOk(o)
       case Some(profile) => ScenarioOk(o, c, profile)
  }

  /** No measured value is above the largest integer of the result format. */
  predicate Capped(o: Child) {
    && (o.identityWait.Some? ==> o.identityWait.value <= MAX_SAFE_INTEGER)
    && (o.initialDecision.Some? ==> o.initialDecision.value <= MAX_SAFE_INTEGER)
    && (forall i | 0 <= i < |o.laterDecisions| :: o.laterDecisions[i].1 <= MAX_SAFE_INTEGER)
    && (forall i | 0 <= i < |o.acknowledgements| :: o.acknowledgements[i].1 <= MAX_SAFE_INTEGER)
    && o.peak <= MAX_SAFE_INTEGER && o.cpu <= MAX_SAFE_INTEGER
    && o.readBytes <= MAX_SAFE_INTEGER && o.writeBytes <= MAX_SAFE_INTEGER
  }

  // ---------- Waits and names ----------

  lemma LaterWaitsDiffer(j: nat, k: nat)
    ensures LaterWait(j) != "initial"
    ensures LaterWait(j) == LaterWait(k) ==> j == k
  {
    DigitsAreWord(Decimal(j));
    DigitsAreWord(Decimal(k));
    WordIsPlain(Decimal(j));
    WordIsPlain(Decimal(k));
    assert LaterWait(j)[0] == 'l';
    SplitJoin(["later", Decimal(j)], '.');
    SplitJoin(["later", Decimal(k)], '.');
    if LaterWait(j) == LaterWait(k) {
      assert ["later", Decimal(j)][1] == ["later", Decimal(k)][1];
      DecimalInjective(j, k);
    }
  }

  /** Looking up a wait finds what was recorded for it. */
  lemma {:induction false} WaitLookup(initial: int, later: seq<(nat, int)>, i: nat)
    requires forall j | 0 <= j < |later| :: later[j].0 == j + 1
    ensures "initial" in WaitDurations(initial, later) && WaitDurations(initial, later)["initial"] == initial
    ensures i < |later| ==> LaterWait(i + 1) in WaitDurations(initial, later)
                            && WaitDurations(initial, later)[LaterWait(i + 1)] == later[i].1
  {
    if later != [] {
      var n := |later| - 1;
      WaitLookup(initial, later[..n], i);
      LaterWaitsDiffer(later[n].0, i + 1);
    }
  }

  lemma InitialNameParts(name: string)
    requires IsWord(name)
    ensures Split(InitialName(name), '.') == ["initial", name] && WaitOf(InitialName(name)) == "initial"
  {
    WordIsPlain(name);
    SplitJoin(["initial", name], '.');
    assert InitialName(name)[0] == 'i';
  }

  lemma LaterNameParts(k: nat, name: string)
    requires IsWord(name)
    ensures Split(LaterName(k)(name), '.') == ["later", Decimal(k), name] && WaitOf(LaterName(k)(name)) == LaterWait(k)
  {
    WordIsPlain(name);
    DigitsAreWord(Decimal(k));
    WordIsPlain(Decimal(k));
    var parts := ["later", Decimal(k), name];
    SplitJoin(parts, '.');
    assert parts[1..] == [Decimal(k), name];
    assert LaterName(k)(name) == "later." + (Decimal(k) + "." + name) by {
      assert Join(parts, '.') == "later" + ['.'] + Join([Decimal(k), name], '.');
      assert [Decimal(k), name][1..] == [name];
    }
    assert parts[..2] == ["later", Decimal(k)];
  }
}
