/** Recomputing every acceptance row of a result from its raw observations. */
module Evaluations {
  import opened Wrappers
  import opened Text
  import opened Sorting
  import opened Sequences
  import opened BenchmarkContract
  import opened Observations
  import opened ObservationValidators
  import opened Percentiles

  datatype Row = Row(
    stage: string, cacheState: string, profile: Option<string>, round: Option<int>,
    sampleCount: int, p95: int, maximum: int, limit: int, passed: bool)

  datatype Execution = Execution(
    acPower: bool, driveType: string, isInternal: bool, isRegularDirectory: bool, isReparsePoint: bool,
    isSyncedRoot: bool, releaseProtocol: bool, runtimeVerified: bool, workingRootClass: string)

  /** What is read of an unsealed result; `restOk` says that everything else in it passes its tests. */
  datatype RawResult = RawResult(
    protocol: Protocol, observations: Observations, execution: Execution, errors: seq<string>, restOk: bool)

  datatype Disposition = Pass | Stop

  datatype Evaluation = Evaluation(disposition: Disposition, reasons: seq<string>, rows: seq<Row>)

  // ---------- Rows ----------

  /** `EvaluationRow.__post_init__`. */
  predicate RowOk(c: Contract, r: Row) {
    && IsClosedId(r.stage) && r.cacheState in CACHES && (r.profile.Some? ==> r.profile.value in c.profiles)
    && (r.round.Some? ==> 1 <= r.round.value <= MAX_SAFE_INTEGER)
    && 1 <= r.sampleCount <= MAX_SAFE_INTEGER && 1 <= r.p95 <= MAX_SAFE_INTEGER
    && 1 <= r.maximum <= MAX_SAFE_INTEGER && 1 <= r.limit <= MAX_SAFE_INTEGER
    && r.p95 <= r.maximum
  }

  /** A row to be evaluated. */
  datatype Question = Question(
    stage: string, cacheState: string, profile: Option<string>, round: Option<int>, samples: seq<int>, limit: int)

  /** `_evaluation_row`. */
  function EvaluationRow(c: Contract, q: Question): Result<Row> {
    var ordered := Sort(q.samples, IntLe);
    match NearestRank(ordered)
    case Fail => Fail
    case Ok(p95) =>
      var row := Row(q.stage, q.cacheState, q.profile, q.round, |ordered|, p95,
                     if ordered == [] then 0 else ordered[|ordered| - 1], q.limit, p95 <= q.limit);
      if RowOk(c, row) then Ok(row) else Fail
  }

  // ---------- The samples ----------

  function IdentityDuration(w: IdentityWait): int { w.durationNs }

  function DecisionDuration(w: DecisionWait): int { w.durationNs }

  function AckDuration(a: Acknowledgement): int { a.durationNs }

  function IdentityIn(cache: string): IdentityWait -> bool {
    (w: IdentityWait) => w.cacheState == cache
  }

  function DecisionIn(cache: string, stage: Stage): DecisionWait -> bool {
    (w: DecisionWait) => w.cacheState == cache && w.stage == stage
  }

  function ProfileKey(w: DecisionWait): string { w.profile }

  function RoundKey(w: DecisionWait): Option<int> { w.round }

  function AckIn(cache: string, action: string): Acknowledgement -> bool {
    (a: Acknowledgement) => a.cacheState == cache && a.action == action
  }

  function DecisionsOf(r: RawResult, cache: string, stage: Stage): seq<DecisionWait> {
    Filter(DecisionIn(cache, stage), r.observations.decisionWaits)
  }

  function ProfileDecisions(r: RawResult, cache: string, stage: Stage, profile: string): seq<DecisionWait> {
    Stratum(DecisionsOf(r, cache, stage), ProfileKey, profile)
  }

  function RoundDecisions(r: RawResult, cache: string, profile: string, round: Option<int>): seq<DecisionWait> {
    Stratum(ProfileDecisions(r, cache, LaterDecision, profile), RoundKey, round)
  }

  // ---------- The rows in the order of `evaluate_result` ----------

  function VisibleLimit(r: RawResult): int { r.protocol.visibleLimitMs * 1_000_000 }

  function AckLimit(r: RawResult): int { r.protocol.acknowledgementLimitMs * 1_000_000 }

  const IDENTITY_STAGE := "initial_identity"
  const INITIAL_STAGE := "initial_decision"
  const LATER_STAGE := "later_decision"
  const ACK_STAGE := "acknowledgement_"

  function IdentityQuestion(r: RawResult): string -> Question {
    cache => Question(IDENTITY_STAGE, cache, None, None,
                      Map(IdentityDuration, Filter(IdentityIn(cache), r.observations.identityWaits)), VisibleLimit(r))
  }

  function StageName(stage: Stage): string {
    if stage == InitialDecision then INITIAL_STAGE else LATER_STAGE
  }

  /** The row over all profiles. */
  function AllQuestion(r: RawResult, cache: string, stage: Stage): Question {
    Question(StageName(stage), cache, None, None, Map(DecisionDuration, DecisionsOf(r, cache, stage)), VisibleLimit(r))
  }

  function ProfileQuestion(r: RawResult, cache: string, stage: Stage): string -> Question {
    profile => Question(StageName(stage), cache, Some(profile), None,
                        Map(DecisionDuration, ProfileDecisions(r, cache, stage, profile)), VisibleLimit(r))
  }

  function RoundQuestion(r: RawResult, cache: string, profile: string): Option<int> -> Question {
    (round: Option<int>) =>
      Question(LATER_STAGE, cache, Some(profile), round,
               Map(DecisionDuration, RoundDecisions(r, cache, profile, round)), VisibleLimit(r))
  }

  function RoundAt(k: nat): Option<int> { Some(k + 1) }

  /** The ordinals of a profile's later rounds. */
  function Rounds(c: Contract, profile: string): seq<Option<int>> {
    Map(RoundAt, Range(c.rounds(profile)))
  }

  function AckQuestion(r: RawResult, cache: string): string -> Question {
    action => Question(ACK_STAGE + action, cache, None, None,
                       Map(AckDuration, Filter(AckIn(cache, action), r.observations.acknowledgements)), AckLimit(r))
  }

  function IdentityQuestions(r: RawResult): string -> seq<Question> {
    cache => [IdentityQuestion(r)(cache)]
  }

  function InitialQuestions(c: Contract, r: RawResult): string -> seq<Question> {
    cache => [AllQuestion(r, cache, InitialDecision)] + Map(ProfileQuestion(r, cache, InitialDecision), c.profiles)
  }

  function ProfileLaterQuestions(c: Contract, r: RawResult, cache: string): string -> seq<Question> {
    profile => [ProfileQuestion(r, cache, LaterDecision)(profile)] +
               Map(RoundQuestion(r, cache, profile), Rounds(c, profile))
  }

  function LaterQuestions(c: Contract, r: RawResult): string -> seq<Question> {
    cache => [AllQuestion(r, cache, LaterDecision)] + Flat(ProfileLaterQuestions(c, r, cache), c.profiles)
  }

  function AckQuestions(c: Contract, r: RawResult): string -> seq<Question> {
    cache => Map(AckQuestion(r, cache), c.actions)
  }

  /** All questions, for the cache states in their order. */
  function Questions(c: Contract, r: RawResult, caches: seq<string>): seq<Question> {
    Flat(IdentityQuestions(r), caches) + Flat(InitialQuestions(c, r), caches)
    + Flat(LaterQuestions(c, r), caches) + Flat(AckQuestions(c, r), caches)
  }

  function RowOf(c: Contract): Question -> Result<Row> {
    (q: Question) => EvaluationRow(c, q)
  }

  /** All rows in turn; the first that cannot be evaluated stops the evaluation. */
  function AllRows(questions: seq<Question>, row: Question -> Result<Row>): Result<seq<Row>> {
    if questions == [] then Ok([])
    else
      match AllRows(questions[..|questions| - 1], row)
      case Fail => Fail
      case Ok(front) =>
        match row(questions[|questions| - 1])
        case Fail => Fail
        case Ok(last) => Ok(front + [last])
  }

  // ---------- The verdict ----------

  predicate ValidExecution(e: Execution) {
    && e.acPower && e.driveType == "fixed" && e.isInternal && e.isRegularDirectory && !e.isReparsePoint
    && !e.isSyncedRoot && e.releaseProtocol && e.runtimeVerified && e.workingRootClass == "local_application_owned"
  }

  predicate AnyFailed(rows: seq<Row>, stage: Row -> bool) {
    exists i | 0 <= i < |rows| :: stage(rows[i]) && !rows[i].passed
  }

  predicate IsIdentityRow(r: Row) { r.stage == IDENTITY_STAGE }

  predicate IsInitialRow(r: Row) { r.stage == INITIAL_STAGE }

  predicate IsLaterRow(r: Row) { r.stage == LATER_STAGE }

  predicate IsAckRow(r: Row) { ACK_STAGE <= r.stage }

  function If(b: bool, reason: string): seq<string> {
    if b then [reason] else []
  }

  const REASONS: seq<string> :=
    ["identity_wait_exceeded", "initial_decision_exceeded", "later_decision_exceeded", "acknowledgement_exceeded",
     "execution_conditions_invalid", "benchmark_error"]

  /** For each reason, whether it is added. */
  function Flags(rows: seq<Row>, e: Execution, errors: seq<string>): seq<bool> {
    [AnyFailed(rows, IsIdentityRow), AnyFailed(rows, IsInitialRow), AnyFailed(rows, IsLaterRow),
     AnyFailed(rows, IsAckRow), !ValidExecution(e), errors != []]
  }

  /** The listed names whose flag is set, in order. */
  function Picked(flags: seq<bool>, names: seq<string>): seq<string>
    requires |flags| == |names|
  {
    if names == [] then []
    else Picked(flags[..|names| - 1], names[..|names| - 1]) + If(flags[|names| - 1], names[|names| - 1])
  }

  /** The reasons in the order in which they are added. */
  function ReasonsFor(rows: seq<Row>, e: Execution, errors: seq<string>): seq<string> {
    Picked(Flags(rows, e, errors), REASONS)
  }

  /** `OfficeBenchmarkProtocol()`. */
  const RELEASE_PROTOCOL: Protocol := Protocol(20, 30, 10_000, 30_000, 100)

  predicate ExecutionOk(p: Protocol, e: Execution) {
    IsClosedId(e.driveType) && IsClosedId(e.workingRootClass) && (e.releaseProtocol ==> p == RELEASE_PROTOCOL)
  }

  predicate IsErrorCode(code: string) {
    code in
    ["acknowledgement_failure", "child_nonzero_exit", "child_output_invalid", "child_root_failure", "child_timeout",
     "cleanup_failure", "dynamic_path_budget_exceeded", "fingerprint_cancelled", "fingerprint_limit_exceeded",
     "fingerprint_timeout", "fixture_build_failure", "hardware_probe_failure", "identity_mismatch",
     "identity_sample_failure", "product_authority_failure", "resource_measurement_failure",
     "result_serialization_failure", "scenario_execution_failure", "scenario_fingerprint_failure"]
  }

  predicate ErrorsOk(errors: seq<string>) {
    && (forall i | 0 <= i < |errors| :: IsClosedId(errors[i]))
    && Distinct(errors) && Sort(errors, TextLe) == errors
    && forall i | 0 <= i < |errors| :: IsErrorCode(errors[i])
  }

  /** What `_validate_result_base` accepts. */
  predicate BaseOk(c: Contract, r: RawResult) {
    && r.restOk && r.protocol.Valid() && ExecutionOk(r.protocol, r.execution)
    && ObservationsOk(c, r.protocol, r.observations) && ErrorsOk(r.errors)
  }

  predicate AllPassed(rows: seq<Row>) {
    forall i | 0 <= i < |rows| :: rows[i].passed
  }

  /** `BenchmarkEvaluation.__post_init__`. */
  predicate EvaluationOk(e: Evaluation) {
    && Distinct(e.reasons) && Sort(e.reasons, TextLe) == e.reasons
    && (forall i | 0 <= i < |e.reasons| :: IsClosedId(e.reasons[i]))
    && e.rows != []
    && (e.disposition == Pass <==> e.reasons == [] && AllPassed(e.rows))
  }

  /** The verdict on evaluated rows. */
  function Conclude(r: RawResult, rows: seq<Row>): Result<Evaluation> {
    var reasons := Sort(ReasonsFor(rows, r.execution, r.errors), TextLe);
    var e := Evaluation(if reasons == [] then Pass else Stop, reasons, rows);
    if EvaluationOk(e) then Ok(e) else Fail
  }

  /** `evaluate_result`. */
  function EvaluateResult(c: Contract, r: RawResult): Result<Evaluation> {
    if !BaseOk(c, r) then Fail
    else
      match AllRows(Questions(c, r, CACHES), RowOf(c))
      case Fail => Fail
      case Ok(rows) => Conclude(r, rows)
  }

  // ---------- The loops ----------

  lemma {:induction false} RowPrefixFails(questions: seq<Question>, row: Question -> Result<Row>, n: nat)
    requires n <= |questions| && AllRows(questions[..n], row).Fail?
    ensures AllRows(questions, row).Fail?
    decreases |questions|
  {
    if n < |questions| {
      var front := questions[..|questions| - 1];
      assert front[..n] == questions[..n];
      RowPrefixFails(front, row, n);
    } else {
      assert questions[..n] == questions;
    }
  }

  lemma RowStep(before: seq<Question>, questions: seq<Question>, row: Question -> Result<Row>, i: nat)
    requires i < |questions| && AllRows(before + questions[..i], row).Ok?
    ensures var sofar := AllRows(before + questions[..i], row).value;
            match row(questions[i])
            case Ok(last) => AllRows(before + questions[..i + 1], row) == Ok(sofar + [last])
            case Fail => AllRows(before + questions, row).Fail?
  {
    var longer := before + questions[..i + 1];
    assert longer[..|longer| - 1] == before + questions[..i] && longer[|longer| - 1] == questions[i];
    if row(questions[i]).Fail? {
      assert (before + questions)[..|longer|] == longer;
      RowPrefixFails(before + questions, row, |longer|);
    }
  }

  /** Appends the rows of some questions, or stops. */
  method AppendRows(row: Question -> Result<Row>, rows: seq<Row>, ghost before: seq<Question>, questions: seq<Question>)
    returns (r: Result<seq<Row>>)
    requires AllRows(before, row) == Ok(rows)
    ensures r == AllRows(before + questions, row)
  {
    var result := rows;
    assert before + questions[..0] == before;
    for i := 0 to |questions|
      invariant AllRows(before + questions[..i], row) == Ok(result)
    {
      RowStep(before, questions, row, i);
      var next := row(questions[i]);
      if next.Fail? {
        return Fail;
      }
      result := result + [next.value];
    }
    assert questions[..|questions|] == questions;
    return Ok(result);
  }

  /** The questions of one stage, cache by cache. */
  method AppendStage(row: Question -> Result<Row>, rows: seq<Row>, ghost before: seq<Question>,
                     stage: string -> seq<Question>, caches: seq<string>)
    returns (r: Result<seq<Row>>)
    requires AllRows(before, row) == Ok(rows)
    ensures r == AllRows(before + Flat(stage, caches), row)
  {
    var result := rows;
    assert before + Flat(stage, caches[..0]) == before;
    for n := 0 to |caches|
      invariant AllRows(before + Flat(stage, caches[..n]), row) == Ok(result)
    {
      StagePrefix(before, stage, caches, row, n);
      var next := AppendRows(row, result, before + Flat(stage, caches[..n]), stage(caches[n]));
      if next.Fail? {
        return Fail;
      }
      result := next.value;
    }
    assert caches[..|caches|] == caches;
    return Ok(result);
  }

  lemma StagePrefix(before: seq<Question>, stage: string -> seq<Question>, caches: seq<string>,
                    row: Question -> Result<Row>, n: nat)
    requires n < |caches|
    ensures before + Flat(stage, caches[..n]) + stage(caches[n]) == before + Flat(stage, caches[..n + 1])
    ensures AllRows(before + Flat(stage, caches[..n + 1]), row).Fail? ==>
              AllRows(before + Flat(stage, caches), row).Fail?
  {
    FlatStep(stage, caches, n);
    var front, rest := caches[..n + 1], caches[n + 1..];
    assert front + rest == caches;
    FlatConcat(stage, front, rest);
    var all := before + Flat(stage, caches);
    var done := before + Flat(stage, front);
    assert all[..|done|] == done;
    if AllRows(done, row).Fail? {
      RowPrefixFails(all, row, |done|);
    }
  }

  method FourStages(row: Question -> Result<Row>, first: string -> seq<Question>, second: string -> seq<Question>,
                    third: string -> seq<Question>, fourth: string -> seq<Question>, caches: seq<string>)
    returns (rows: Result<seq<Row>>)
    ensures rows == AllRows(Flat(first, caches) + Flat(second, caches) + Flat(third, caches) + Flat(fourth, caches),
                            row)
  {
    ghost var q1 := Flat(first, caches);
    ghost var q2 := q1 + Flat(second, caches);
    ghost var q3 := q2 + Flat(third, caches);
    ghost var q4 := q3 + Flat(fourth, caches);
    assert [] + q1 == q1;
    PrefixOrAll(q1, q4, row);
    PrefixOrAll(q2, q4, row);
    PrefixOrAll(q3, q4, row);
    rows := AppendStage(row, [], [], first, caches);
    if rows.Ok? {
      rows := AppendStage(row, rows.value, q1, second, caches);
    }
    if rows.Ok? {
      rows := AppendStage(row, rows.value, q2, third, caches);
    }
    if rows.Ok? {
      rows := AppendStage(row, rows.value, q3, fourth, caches);
    }
  }

  /** The four stages of `evaluate_result`, one after the other. */
  method EvaluateRows(c: Contract, r: RawResult, caches: seq<string>) returns (rows: Result<seq<Row>>)
    ensures rows == AllRows(Questions(c, r, caches), RowOf(c))
  {
    rows := FourStages(RowOf(c), IdentityQuestions(r), InitialQuestions(c, r), LaterQuestions(c, r),
                       AckQuestions(c, r), caches);
  }

  lemma PrefixOrAll(front: seq<Question>, all: seq<Question>, row: Question -> Result<Row>)
    requires front <= all
    ensures AllRows(front, row).Fail? ==> AllRows(all, row).Fail?
  {
    if AllRows(front, row).Fail? {
      assert all[..|front|] == front;
      RowPrefixFails(all, row, |front|);
    }
  }

  /** `_validate_result_base`. */
  method ValidateBase(c: Contract, r: RawResult) returns (ok: bool)
    ensures ok <==> BaseOk(c, r)
  {
    if !r.restOk || !r.protocol.Valid() || !ExecutionOk(r.protocol, r.execution) {
      return false;
    }
    var o := r.observations;
    ok := ValidateIdentityWaits(r.protocol, o.identityWaits);
    if ok {
      ok := ValidateDecisionWaits(c, r.protocol, o.decisionWaits);
    }
    if ok {
      ok := ValidateComponents(c, o.identityWaits, o.decisionWaits, o.components);
    }
    if ok {
      ok := ValidateAcknowledgements(c, r.protocol, o.acknowledgements);
    }
    if ok {
      ok := ValidateResources(o.resources);
    }
    ok := ok && ErrorsOk(r.errors);
  }

  /** `evaluate_result`, step by step. */
  method Evaluate(c: Contract, r: RawResult) returns (e: Result<Evaluation>)
    ensures e == EvaluateResult(c, r)
  {
    var ok := ValidateBase(c, r);
    if !ok {
      return Fail;
    }
    var rows := EvaluateRows(c, r, CACHES);
    if rows.Fail? {
      return Fail;
    }
    e := Conclude(r, rows.value);
  }
}
