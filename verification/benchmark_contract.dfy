/** The frozen benchmark contract: profiles, rounds, actions, component names, and the observation IDs. */
module BenchmarkContract {
  import opened Wrappers
  import opened Text
  import opened Sorting
  import opened Paths
  import opened Sequences

  const MAX_SAFE_INTEGER: int := 9_007_199_254_740_991

  /** `OfficeBenchmarkProtocol`. */
  datatype Protocol = Protocol(cold: int, warm: int, fingerprintLimitMs: int, visibleLimitMs: int,
                               acknowledgementLimitMs: int)
  {
    predicate Valid() {
      && 1 <= cold <= MAX_SAFE_INTEGER && 1 <= warm <= MAX_SAFE_INTEGER
      && 1 <= fingerprintLimitMs <= MAX_SAFE_INTEGER && 1 <= visibleLimitMs <= MAX_SAFE_INTEGER
      && 1 <= acknowledgementLimitMs <= MAX_SAFE_INTEGER
    }

    function Repetitions(cache: string): nat
      requires Valid()
    {
      if cache == "cold" then cold else warm
    }
  }

  const CACHES: seq<string> := ["cold", "warm"]

  /** What the scripts fix about scenarios. The proofs need only that it is `Valid`. */
  datatype Contract = Contract(
    profiles: seq<string>,
    rounds: string -> nat,
    actions: seq<string>,
    initialComponents: seq<string>,
    laterComponents: seq<string>,
    terminalComponents: seq<string>)
  {
    ghost predicate Valid() {
      && profiles != [] && Distinct(profiles) && Words(profiles) && "identity" !in profiles
      && (forall profile | profile in profiles :: rounds(profile) <= MAX_SAFE_INTEGER)
      && Distinct(actions) && Words(actions)
      && Distinct(initialComponents) && Words(initialComponents)
      && Distinct(laterComponents) && Words(laterComponents)
      && Distinct(terminalComponents) && Words(terminalComponents)
    }

    /** The components of the later round `k` of a profile. */
    function LaterNames(profile: string, k: nat): seq<string> {
      if k == rounds(profile) then terminalComponents else laterComponents
    }
  }

  predicate IsWordChar(c: char) { 'a' <= c <= 'z' || '0' <= c <= '9' || c == '_' }

  predicate StartsClosed(s: string) {
    s != [] && ('a' <= s[0] <= 'z' || '0' <= s[0] <= '9')
  }

  /** Lower-case words with digits and underscores. */
  predicate IsWord(s: string) {
    StartsClosed(s) && forall i | 0 <= i < |s| :: IsWordChar(s[i])
  }

  predicate Words(names: seq<string>) {
    forall i | 0 <= i < |names| :: IsWord(names[i])
  }

  /** The pattern of closed identifiers, `[a-z0-9][a-z0-9_.:-]*`. */
  predicate IsClosedId(s: string) {
    StartsClosed(s) && forall i | 0 <= i < |s| :: IsWordChar(s[i]) || s[i] in ['.', ':', '-']
  }

  lemma WordIsPlain(s: string)
    requires IsWord(s)
    ensures s != [] && Avoids(s, ':') && Avoids(s, '.') && IsClosedId(s)
  {
    assert !IsWordChar(':') && !IsWordChar('.');
  }

  lemma DigitsAreWord(s: string)
    requires s != [] && AllDigits(s)
    ensures IsWord(s)
  {
  }

  // ---------- Observation IDs ----------

  function IdentityId(cache: string, i: nat): string {
    Join([cache, "identity", Pad2(i)], ':')
  }

  function InitialId(cache: string, profile: string, i: nat): string {
    Join([cache, profile, Pad2(i), "initial"], ':')
  }

  function LaterId(cache: string, profile: string, i: nat, k: nat): string {
    Join([cache, profile, Pad2(i), "later", Decimal(k)], ':')
  }

  function AckId(cache: string, action: string, i: nat): string {
    Join([cache, "ack", action, Pad2(i)], ':')
  }

  function ResourceId(cache: string, profile: Option<string>, i: nat): string {
    Join([cache, "resource", if profile.Some? then profile.value else "identity", Pad2(i)], ':')
  }

  lemma JoinInjective(a: seq<string>, b: seq<string>)
    requires a != [] && b != [] && Words(a) && Words(b) && Join(a, ':') == Join(b, ':')
    ensures a == b
  {
    forall i | 0 <= i < |a| ensures Avoids(a[i], ':') { WordIsPlain(a[i]); }
    forall i | 0 <= i < |b| ensures Avoids(b[i], ':') { WordIsPlain(b[i]); }
    SplitJoin(a, ':');
    SplitJoin(b, ':');
  }

  lemma {:induction false} JoinedIsClosed(a: seq<string>)
    requires a != [] && Words(a)
    ensures IsClosedId(Join(a, ':'))
  {
    WordIsPlain(a[0]);
    if |a| > 1 {
      JoinedIsClosed(a[1..]);
    }
  }

  // ---------- The lists of expected IDs ----------

  function IdentityIdOf(cache: string): nat -> string {
    (i: nat) => IdentityId(cache, i)
  }

  function IdentityIdsOf(p: Protocol): string -> seq<string>
    requires p.Valid()
  {
    cache => Map(IdentityIdOf(cache), Range(p.Repetitions(cache)))
  }

  /** `_expected_identity_ids`. */
  function ExpectedIdentityIds(p: Protocol): seq<string>
    requires p.Valid()
  {
    Flat(IdentityIdsOf(p), CACHES)
  }

  function LaterIdOf(cache: string, profile: string, i: nat): nat -> string {
    (k: nat) => LaterId(cache, profile, i, k + 1)
  }

  /** One scenario: the initial decision, then every later round. */
  function ScenarioIdsOf(c: Contract, cache: string, profile: string): nat -> seq<string> {
    (i: nat) => [InitialId(cache, profile, i)] + Map(LaterIdOf(cache, profile, i), Range(c.rounds(profile)))
  }

  function ProfileIdsOf(c: Contract, p: Protocol, cache: string): string -> seq<string>
    requires p.Valid()
  {
    profile => Flat(ScenarioIdsOf(c, cache, profile), Range(p.Repetitions(cache)))
  }

  function DecisionIdsOf(c: Contract, p: Protocol): string -> seq<string>
    requires p.Valid()
  {
    cache => Flat(ProfileIdsOf(c, p, cache), c.profiles)
  }

  /** `_expected_decision_ids`. */
  function ExpectedDecisionIds(c: Contract, p: Protocol): seq<string>
    requires p.Valid()
  {
    Flat(DecisionIdsOf(c, p), CACHES)
  }

  function AckIdOf(cache: string, action: string): nat -> string {
    (i: nat) => AckId(cache, action, i)
  }

  function ActionIdsOf(p: Protocol, cache: string): string -> seq<string>
    requires p.Valid()
  {
    action => Map(AckIdOf(cache, action), Range(p.Repetitions(cache)))
  }

  function AckIdsOf(c: Contract, p: Protocol): string -> seq<string>
    requires p.Valid()
  {
    cache => Flat(ActionIdsOf(p, cache), c.actions)
  }

  /** `_expected_ack_ids`. */
  function ExpectedAckIds(c: Contract, p: Protocol): seq<string>
    requires p.Valid()
  {
    Flat(AckIdsOf(c, p), CACHES)
  }

  // ---------- The office contract ----------

  function OfficeRounds(profile: string): nat {
    if profile == "independent_two_group_mean" || profile == "paired_two_time_mean_change" then 2 else 3
  }

  const OFFICE: Contract := Contract(
    ["numeric_distribution", "category_frequency", "independent_two_group_mean",
     "paired_two_time_mean_change", "linear_co_movement", "rank_co_movement"],
    OfficeRounds,
    ["start", "choose_causal_no", "choose_causal_yes", "choose_causal_not_sure", "record_causal_boundary", "back",
     "select_profile", "choose_no_matching_profile", "submit_roles", "answer", "answer_not_sure", "resume",
     "retract", "replan", "prepare", "confirm", "cancel", "sync_mode"],
    ["ledger_create_open", "projection", "publication_readback_audit", "request_build",
     "request_initialize_append", "resolve_plan_passport_append", "task_index_allocate", "task_session"],
    ["answer_append_transition", "answer_build", "projection", "publication_readback_audit",
     "resolve_plan_passport_append"],
    ["answer_append_transition", "answer_build", "handoff", "preflight", "projection", "publication_readback_audit",
     "resolve_plan_passport_append"])
}
