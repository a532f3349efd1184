/** The JSON of a benchmark result: writers, and readers with exact field sets and strict types. */
module ResultJson {
  import opened Wrappers
  import opened Sorting
  import opened Json
  import opened JsonTheorems
  import opened Records
  import BenchmarkContract
  import opened Observations
  import opened Evaluations

  type Protocol = BenchmarkContract.Protocol

  // ---------- Scalars ----------

  function OptIntJson(n: Option<int>): Json {
    match n case None => Null case Some(k) => Int(k)
  }

  function OptTextJson(s: Option<string>): Json {
    match s case None => Null case Some(t) => Str(t)
  }

  function OptInt(v: Json): Option<int> {
    if v.Int? then Some(v.n) else None
  }

  function OptText(v: Json): Option<string> {
    if v.Str? then Some(v.s) else None
  }

  function TextJson(s: string): Json { Str(s) }

  lemma TextFaithful()
    ensures Faithful(TextJson, OptText)
  {
    forall s
      ensures ReadsBack(TextJson, OptText, s)
    {
    }
    forall v
      ensures FaithfulAt(TextJson, OptText, v)
    {
    }
  }

  // ---------- Observations ----------

  const IDENTITY_FIELDS: seq<string> := ["cache_state", "duration_ns", "observation_id"]

  function PutIdentityWait(w: IdentityWait): seq<Json> {
    [Str(w.cacheState), Int(w.durationNs), Str(w.id)]
  }

  function GetIdentityWait(vs: seq<Json>): Option<IdentityWait> {
    if |vs| == 3 && vs[0].Str? && vs[1].Int? && vs[2].Str? then Some(IdentityWait(vs[0].s, vs[1].n, vs[2].s)) else None
  }

  lemma IdentityWaitFields(names: seq<string>)
    requires names == IDENTITY_FIELDS
    ensures ScalarFields(names, PutIdentityWait, GetIdentityWait)
  {
    forall w
      ensures PutAt(names, PutIdentityWait, GetIdentityWait, w)
    {
    }
    forall vs
      ensures GetAt(PutIdentityWait, GetIdentityWait, vs)
    {
    }
  }

  const DECISION_FIELDS: seq<string> :=
    ["cache_state", "duration_ns", "observation_id", "profile", "round_ordinal", "stage"]

  function PutDecisionWait(w: DecisionWait): seq<Json> {
    [Str(w.cacheState), Int(w.durationNs), Str(w.id), Str(w.profile), OptIntJson(w.round), Str(StageName(w.stage))]
  }

  function GetDecisionWait(vs: seq<Json>): Option<DecisionWait> {
    if && |vs| == 6 && vs[0].Str? && vs[1].Int? && vs[2].Str? && vs[3].Str? && (vs[4].Null? || vs[4].Int?)
       && (vs[5] == Str(INITIAL_STAGE) || vs[5] == Str(LATER_STAGE))
    then Some(DecisionWait(vs[0].s, vs[1].n, vs[2].s, vs[3].s, OptInt(vs[4]),
                           if vs[5] == Str(INITIAL_STAGE) then InitialDecision else LaterDecision))
    else None
  }

  lemma StagesDiffer()
    ensures INITIAL_STAGE != LATER_STAGE
  {
    assert INITIAL_STAGE[0] == 'i' && LATER_STAGE[0] == 'l';
  }

  lemma DecisionWaitFields(names: seq<string>)
    requires names == DECISION_FIELDS
    ensures ScalarFields(names, PutDecisionWait, GetDecisionWait)
  {
    StagesDiffer();
    forall w
      ensures PutAt(names, PutDecisionWait, GetDecisionWait, w)
    {
    }
    forall vs
      ensures GetAt(PutDecisionWait, GetDecisionWait, vs)
    {
    }
  }

  const COMPONENT_FIELDS: seq<string> := ["duration_ns", "name", "parent_observation_id"]

  function PutComponent(x: Component): seq<Json> {
    [Int(x.durationNs), Str(x.name), Str(x.parent)]
  }

  function GetComponent(vs: seq<Json>): Option<Component> {
    if |vs| == 3 && vs[0].Int? && vs[1].Str? && vs[2].Str? then Some(Component(vs[0].n, vs[1].s, vs[2].s)) else None
  }

  lemma ComponentFields(names: seq<string>)
    requires names == COMPONENT_FIELDS
    ensures ScalarFields(names, PutComponent, GetComponent)
  {
    forall x
      ensures PutAt(names, PutComponent, GetComponent, x)
    {
    }
    forall vs
      ensures GetAt(PutComponent, GetComponent, vs)
    {
    }
  }

  const ACK_FIELDS: seq<string> := ["action", "cache_state", "duration_ns", "observation_id"]

  function PutAck(a: Acknowledgement): seq<Json> {
    [Str(a.action), Str(a.cacheState), Int(a.durationNs), Str(a.id)]
  }

  function GetAck(vs: seq<Json>): Option<Acknowledgement> {
    if |vs| == 4 && vs[0].Str? && vs[1].Str? && vs[2].Int? && vs[3].Str?
    then Some(Acknowledgement(vs[0].s, vs[1].s, vs[2].n, vs[3].s)) else None
  }

  lemma AckFields(names: seq<string>)
    requires names == ACK_FIELDS
    ensures ScalarFields(names, PutAck, GetAck)
  {
    forall a
      ensures PutAt(names, PutAck, GetAck, a)
    {
    }
    forall vs
      ensures GetAt(PutAck, GetAck, vs)
    {
    }
  }

  const RESOURCE_FIELDS: seq<string> :=
    ["cache_state", "observation_id", "peak_working_set_bytes", "process_cpu_time_ns", "read_bytes", "write_bytes"]

  function PutResource(r: Resource): seq<Json> {
    [Str(r.cacheState), Str(r.id), Int(r.peak), Int(r.cpu), Int(r.readBytes), Int(r.writeBytes)]
  }

  function GetResource(vs: seq<Json>): Option<Resource> {
    if |vs| == 6 && vs[0].Str? && vs[1].Str? && vs[2].Int? && vs[3].Int? && vs[4].Int? && vs[5].Int?
    then Some(Resource(vs[0].s, vs[1].s, vs[2].n, vs[3].n, vs[4].n, vs[5].n)) else None
  }

  lemma ResourceFields(names: seq<string>)
    requires names == RESOURCE_FIELDS
    ensures ScalarFields(names, PutResource, GetResource)
  {
    forall r
      ensures PutAt(names, PutResource, GetResource, r)
    {
    }
    forall vs
      ensures GetAt(PutResource, GetResource, vs)
    {
    }
  }

  // ---------- Protocol, execution conditions, rows ----------

  const PROTOCOL_FIELDS: seq<string> :=
    ["acknowledgement_limit_ms", "cold_processes_per_stratum", "fingerprint_worker_limit_ms", "visible_wait_limit_ms",
     "warm_iterations"]

  function PutProtocol(p: Protocol): seq<Json> {
    [Int(p.acknowledgementLimitMs), Int(p.cold), Int(p.fingerprintLimitMs), Int(p.visibleLimitMs), Int(p.warm)]
  }

  function GetProtocol(vs: seq<Json>): Option<Protocol> {
    if |vs| == 5 && vs[0].Int? && vs[1].Int? && vs[2].Int? && vs[3].Int? && vs[4].Int?
    then Some(BenchmarkContract.Protocol(vs[1].n, vs[4].n, vs[2].n, vs[3].n, vs[0].n)) else None
  }

  lemma ProtocolFields(names: seq<string>)
    requires names == PROTOCOL_FIELDS
    ensures ScalarFields(names, PutProtocol, GetProtocol)
  {
    forall p
      ensures PutAt(names, PutProtocol, GetProtocol, p)
    {
    }
    forall vs
      ensures GetAt(PutProtocol, GetProtocol, vs)
    {
    }
  }

  const EXECUTION_FIELDS: seq<string> :=
    ["ac_power", "drive_type", "is_internal", "is_regular_directory", "is_reparse_point", "is_synced_root",
     "release_protocol", "runtime_verified", "working_root_class"]

  function PutExecution(e: Execution): seq<Json> {
    [Bool(e.acPower), Str(e.driveType), Bool(e.isInternal), Bool(e.isRegularDirectory), Bool(e.isReparsePoint),
     Bool(e.isSyncedRoot), Bool(e.releaseProtocol), Bool(e.runtimeVerified), Str(e.workingRootClass)]
  }

  function GetExecution(vs: seq<Json>): Option<Execution> {
    if && |vs| == 9 && vs[0].Bool? && vs[1].Str? && vs[2].Bool? && vs[3].Bool? && vs[4].Bool? && vs[5].Bool?
       && vs[6].Bool? && vs[7].Bool? && vs[8].Str?
    then Some(Execution(vs[0].b, vs[1].s, vs[2].b, vs[3].b, vs[4].b, vs[5].b, vs[6].b, vs[7].b, vs[8].s))
    else None
  }

  lemma ExecutionFields(names: seq<string>)
    requires names == EXECUTION_FIELDS
    ensures ScalarFields(names, PutExecution, GetExecution)
  {
    forall e
      ensures PutAt(names, PutExecution, GetExecution, e)
    {
    }
    forall vs
      ensures GetAt(PutExecution, GetExecution, vs)
    {
    }
  }

  const ROW_FIELDS: seq<string> :=
    ["cache_state", "limit_ns", "maximum_ns", "p95_ns", "passed", "profile", "round_ordinal", "sample_count", "stage"]

  function PutRow(r: Row): seq<Json> {
    [Str(r.cacheState), Int(r.limit), Int(r.maximum), Int(r.p95), Bool(r.passed), OptTextJson(r.profile),
     OptIntJson(r.round), Int(r.sampleCount), Str(r.stage)]
  }

  function GetRow(vs: seq<Json>): Option<Row> {
    if && |vs| == 9 && vs[0].Str? && vs[1].Int? && vs[2].Int? && vs[3].Int? && vs[4].Bool?
       && (vs[5].Null? || vs[5].Str?) && (vs[6].Null? || vs[6].Int?) && vs[7].Int? && vs[8].Str?
    then Some(Row(vs[8].s, vs[0].s, OptText(vs[5]), OptInt(vs[6]), vs[7].n, vs[3].n, vs[2].n, vs[1].n, vs[4].b))
    else None
  }

  lemma RowFields(names: seq<string>)
    requires names == ROW_FIELDS
    ensures ScalarFields(names, PutRow, GetRow)
  {
    forall r
      ensures PutAt(names, PutRow, GetRow, r)
    {
    }
    forall vs
      ensures GetAt(PutRow, GetRow, vs)
    {
    }
  }

  // ---------- Writers and readers of the parts ----------

  function ProtocolJson(): Protocol -> Json { RecordWriter(PROTOCOL_FIELDS, PutProtocol) }
  function ReadProtocol(): Json -> Option<Protocol> { RecordReader(PROTOCOL_FIELDS, GetProtocol) }

  function ExecutionJson(): Execution -> Json { RecordWriter(EXECUTION_FIELDS, PutExecution) }
  function ReadExecution(): Json -> Option<Execution> { RecordReader(EXECUTION_FIELDS, GetExecution) }

  function TextsJson(): seq<string> -> Json { ListWriter(TextJson) }
  function ReadTexts(): Json -> Option<seq<string>> { ListReader(OptText) }

  function IdentityWaitsJson(): seq<IdentityWait> -> Json { ListWriter(RecordWriter(IDENTITY_FIELDS, PutIdentityWait)) }
  function ReadIdentityWaits(): Json -> Option<seq<IdentityWait>> {
    ListReader(RecordReader(IDENTITY_FIELDS, GetIdentityWait))
  }

  function DecisionWaitsJson(): seq<DecisionWait> -> Json { ListWriter(RecordWriter(DECISION_FIELDS, PutDecisionWait)) }
  function ReadDecisionWaits(): Json -> Option<seq<DecisionWait>> {
    ListReader(RecordReader(DECISION_FIELDS, GetDecisionWait))
  }

  function ComponentsJson(): seq<Component> -> Json { ListWriter(RecordWriter(COMPONENT_FIELDS, PutComponent)) }
  function ReadComponents(): Json -> Option<seq<Component>> { ListReader(RecordReader(COMPONENT_FIELDS, GetComponent)) }

  function AcksJson(): seq<Acknowledgement> -> Json { ListWriter(RecordWriter(ACK_FIELDS, PutAck)) }
  function ReadAcks(): Json -> Option<seq<Acknowledgement>> { ListReader(RecordReader(ACK_FIELDS, GetAck)) }

  function ResourcesJson(): seq<Resource> -> Json { ListWriter(RecordWriter(RESOURCE_FIELDS, PutResource)) }
  function ReadResources(): Json -> Option<seq<Resource>> { ListReader(RecordReader(RESOURCE_FIELDS, GetResource)) }

  function RowsJson(): seq<Row> -> Json { ListWriter(RecordWriter(ROW_FIELDS, PutRow)) }
  function ReadRows(): Json -> Option<seq<Row>> { ListReader(RecordReader(ROW_FIELDS, GetRow)) }

  /** Every part is read back, in any key order, and only its writings are accepted. */
  lemma PartsFaithful()
    ensures Faithful(ProtocolJson(), ReadProtocol()) && Faithful(ExecutionJson(), ReadExecution())
    ensures Faithful(TextsJson(), ReadTexts()) && Faithful(RowsJson(), ReadRows())
  {
    ProtocolFields(PROTOCOL_FIELDS);
    RecordFaithful(PROTOCOL_FIELDS, PutProtocol, GetProtocol);
    ExecutionFields(EXECUTION_FIELDS);
    RecordFaithful(EXECUTION_FIELDS, PutExecution, GetExecution);
    TextFaithful();
    ListFaithful(TextJson, OptText);
    RowFields(ROW_FIELDS);
    ScalarListFaithful(ROW_FIELDS, PutRow, GetRow);
  }

  lemma ScalarListFaithful<X(!new)>(names: seq<string>, put: X -> seq<Json>, get: seq<Json> -> Option<X>)
    requires ScalarFields(names, put, get)
    ensures Faithful(ListWriter(RecordWriter(names, put)), ListReader(RecordReader(names, get)))
  {
    RecordFaithful(names, put, get);
    ListFaithful(RecordWriter(names, put), RecordReader(names, get));
  }

  lemma ListsFaithful()
    ensures Faithful(IdentityWaitsJson(), ReadIdentityWaits()) && Faithful(DecisionWaitsJson(), ReadDecisionWaits())
    ensures Faithful(ComponentsJson(), ReadComponents()) && Faithful(AcksJson(), ReadAcks())
    ensures Faithful(ResourcesJson(), ReadResources())
  {
    IdentityWaitFields(IDENTITY_FIELDS);
    ScalarListFaithful(IDENTITY_FIELDS, PutIdentityWait, GetIdentityWait);
    DecisionWaitFields(DECISION_FIELDS);
    ScalarListFaithful(DECISION_FIELDS, PutDecisionWait, GetDecisionWait);
    ComponentFields(COMPONENT_FIELDS);
    ScalarListFaithful(COMPONENT_FIELDS, PutComponent, GetComponent);
    AckFields(ACK_FIELDS);
    ScalarListFaithful(ACK_FIELDS, PutAck, GetAck);
    ResourceFields(RESOURCE_FIELDS);
    ScalarListFaithful(RESOURCE_FIELDS, PutResource, GetResource);
  }

  // ---------- The evaluation ----------

  const EVALUATION_FIELDS: seq<string> := ["disposition", "reason_codes", "rows"]

  function DispositionJson(d: Disposition): Json {
    Str(if d == Pass then "pass" else "stop")
  }

  /** `BenchmarkEvaluation.to_mapping`. */
  function EvaluationJson(e: Evaluation): Json {
    RecordJson(EVALUATION_FIELDS, EvaluationValues(e))
  }

  function EvaluationValues(e: Evaluation): (r: seq<Json>)
    ensures |r| == 3
  {
    [DispositionJson(e.disposition), TextsJson()(e.reasons), RowsJson()(e.rows)]
  }

  /** The typed reading of a stored evaluation. */
  function ReadEvaluation(v: Json): Option<Evaluation> {
    match ReadRecord(EVALUATION_FIELDS, v)
    case None => None
    case Some(vs) => EvaluationOf(vs)
  }

  function EvaluationOf(vs: seq<Json>): Option<Evaluation> {
    if |vs| == 3 && (vs[0] == Str("pass") || vs[0] == Str("stop")) then
      match (ReadTexts()(vs[1]), ReadRows()(vs[2]))
      case (Some(reasons), Some(rows)) => Some(Evaluation(if vs[0] == Str("pass") then Pass else Stop, reasons, rows))
      case _ => None
    else None
  }

  lemma VerdictsDiffer()
    ensures "pass" != "stop"
  {
    assert "pass"[0] == 'p' && "stop"[0] == 's';
  }

  /** A stored evaluation is read back; and what can be read as an evaluation is its writing, up to key order. */
  lemma EvaluationFaithful()
    ensures Faithful(EvaluationJson, ReadEvaluation)
  {
    forall e
      ensures ReadsBack(EvaluationJson, ReadEvaluation, e)
    {
      EvaluationReadsBack(EVALUATION_FIELDS, e);
    }
    forall v
      ensures FaithfulAt(EvaluationJson, ReadEvaluation, v)
    {
      if UniqueKeys(v) {
        EvaluationIs(EVALUATION_FIELDS, v);
      }
    }
  }

  lemma EvaluationReadsBack(names: seq<string>, e: Evaluation)
    requires names == EVALUATION_FIELDS
    ensures ReadsBack(EvaluationJson, ReadEvaluation, e)
  {
    PartsFaithful();
    VerdictsDiffer();
    assert ReadsBack(TextsJson(), ReadTexts(), e.reasons) && ReadsBack(RowsJson(), ReadRows(), e.rows);
    EvaluationNames(names);
    RecordReadsBack(names, EvaluationValues(e));
  }

  lemma EvaluationNames(names: seq<string>)
    requires names == EVALUATION_FIELDS
    ensures Distinct(names) && |names| == 3
  {
  }

  lemma EvaluationOfSorted(vs: seq<Json>)
    requires |vs| == 3 && forall i | 0 <= i < 3 :: UniqueKeys(vs[i])
    ensures EvaluationOf(Map(SortKeys, vs)) == EvaluationOf(vs)
    ensures EvaluationOf(vs).Some? ==> Map(SortKeys, vs) == Map(SortKeys, EvaluationValues(EvaluationOf(vs).value))
  {
    PartsFaithful();
    assert FaithfulAt(TextsJson(), ReadTexts(), vs[1]) && FaithfulAt(RowsJson(), ReadRows(), vs[2]);
    var sorted := Map(SortKeys, vs);
    assert sorted[0] == Str("pass") <==> vs[0] == Str("pass");
    assert sorted[0] == Str("stop") <==> vs[0] == Str("stop");
    if EvaluationOf(vs).Some? {
      EvaluationWritten(vs, EvaluationOf(vs).value);
    }
  }

  lemma EvaluationWritten(vs: seq<Json>, e: Evaluation)
    requires |vs| == 3 && EvaluationOf(vs) == Some(e)
    requires Same(vs[1], TextsJson()(e.reasons)) && Same(vs[2], RowsJson()(e.rows))
    ensures Map(SortKeys, vs) == Map(SortKeys, EvaluationValues(e))
  {
    VerdictsDiffer();
    assert vs[0] == DispositionJson(e.disposition);
  }

  lemma EvaluationIs(names: seq<string>, v: Json)
    requires names == EVALUATION_FIELDS && UniqueKeys(v)
    ensures FaithfulAt(EvaluationJson, ReadEvaluation, v)
  {
    EvaluationNames(names);
    SortedRecord(names, v);
    if ReadRecord(names, v).Some? {
      var vs := ReadRecord(names, v).value;
      RecordIs(names, v, vs);
      EvaluationOfSorted(vs);
      if EvaluationOf(vs).Some? {
        RecordUpToOrder(names, vs, EvaluationValues(EvaluationOf(vs).value));
      }
    }
  }

  // ---------- The base of a result ----------

  const OBSERVATION_FIELDS: seq<string> :=
    ["acknowledgements", "components", "decision_waits", "identity_waits", "overheads", "resources"]

  function ObservationValues(o: Observations, overheads: Json): (r: seq<Json>)
    ensures |r| == 6
  {
    [AcksJson()(o.acknowledgements), ComponentsJson()(o.components), DecisionWaitsJson()(o.decisionWaits),
     IdentityWaitsJson()(o.identityWaits), overheads, ResourcesJson()(o.resources)]
  }

  function ObservationsJson(o: Observations, overheads: Json): Json {
    RecordJson(OBSERVATION_FIELDS, ObservationValues(o, overheads))
  }

  function ObservationsOf(vs: seq<Json>): Option<Observations> {
    if |vs| != 6 then None
    else
      match (ReadAcks()(vs[0]), ReadComponents()(vs[1]), ReadDecisionWaits()(vs[2]), ReadIdentityWaits()(vs[3]),
             ReadResources()(vs[5]))
      case (Some(acks), Some(components), Some(decisions), Some(identities), Some(resources)) =>
        Some(Observations(identities, decisions, components, acks, resources))
      case _ => None
  }

  function ReadObservations(v: Json): Option<Observations> {
    match ReadRecord(OBSERVATION_FIELDS, v) case None => None case Some(vs) => ObservationsOf(vs)
  }

  const BASE_FIELDS: seq<string> :=
    ["error_codes", "execution_conditions", "fixture", "hardware", "kit_identity_digest", "observations", "protocol",
     "protocol_digest", "recorded_at_utc", "run_id", "schema_id", "schema_version", "source_commit", "stress_check"]

  /** The values of a result that the evaluation does not use; each but the run ID is tested as it stands. */
  datatype Others = Others(
    fixture: Json, hardware: Json, kitDigest: Json, overheads: Json, protocolDigest: Json, recordedAt: Json,
    runId: string, schemaId: Json, schemaVersion: Json, sourceCommit: Json, stressCheck: Json)

  function BaseValues(r: RawResult, x: Others): (vs: seq<Json>)
    ensures |vs| == 14
  {
    [TextsJson()(r.errors), ExecutionJson()(r.execution), x.fixture, x.hardware, x.kitDigest,
     ObservationsJson(r.observations, x.overheads), ProtocolJson()(r.protocol), x.protocolDigest, x.recordedAt,
     Str(x.runId), x.schemaId, x.schemaVersion, x.sourceCommit, x.stressCheck]
  }

  /** `base_result`. */
  function BaseJson(r: RawResult, x: Others): Json {
    RecordJson(BASE_FIELDS, BaseValues(r, x))
  }

  predicate IsHex(c: char) { '0' <= c <= '9' || 'a' <= c <= 'f' }

  /** A canonical UUID of version 4, section 5.4 of RFC 9562. */
  predicate IsRunId(s: string) {
    && |s| == 36 && s[14] == '4' && s[19] in ['8', '9', 'a', 'b']
    && forall i | 0 <= i < 36 :: if i in [8, 13, 18, 23] then s[i] == '-' else IsHex(s[i])
  }

  /** What `_validate_result_base` reads; `tests` stands for its tests on the other values. */
  function BaseOf(tests: Json -> bool, v: Json, vs: seq<Json>): Option<RawResult>
    requires |vs| == 14
  {
    match (ReadTexts()(vs[0]), ReadExecution()(vs[1]), ReadObservations(vs[5]), ReadProtocol()(vs[6]))
    case (Some(errors), Some(execution), Some(observations), Some(protocol)) =>
      Some(RawResult(protocol, observations, execution, errors, vs[9].Str? && IsRunId(vs[9].s) && tests(v)))
    case _ => None
  }

  function ReadBase(tests: Json -> bool, v: Json): Option<RawResult> {
    match ReadRecord(BASE_FIELDS, v)
    case None => None
    case Some(vs) => if |vs| == 14 then BaseOf(tests, v, vs) else None
  }

  /** The tests look keys up, so that their order is not seen. */
  ghost predicate OrderFree(tests: Json -> bool) {
    forall v, w :: SameTest(tests, v, w)
  }

  predicate SameTest(tests: Json -> bool, v: Json, w: Json) {
    Same(v, w) ==> tests(v) == tests(w)
  }

  lemma ObservationNames(names: seq<string>)
    requires names == OBSERVATION_FIELDS
    ensures Distinct(names) && |names| == 6
  {
  }

  lemma ObservationsReadBack(names: seq<string>, o: Observations, overheads: Json)
    requires names == OBSERVATION_FIELDS && UniqueKeys(overheads)
    ensures ReadObservations(ObservationsJson(o, overheads)) == Some(o) && UniqueKeys(ObservationsJson(o, overheads))
  {
    ListsFaithful();
    assert ReadsBack(AcksJson(), ReadAcks(), o.acknowledgements)
           && ReadsBack(ComponentsJson(), ReadComponents(), o.components);
    assert ReadsBack(DecisionWaitsJson(), ReadDecisionWaits(), o.decisionWaits);
    assert ReadsBack(IdentityWaitsJson(), ReadIdentityWaits(), o.identityWaits);
    assert ReadsBack(ResourcesJson(), ReadResources(), o.resources);
    ObservationNames(names);
    RecordReadsBack(names, ObservationValues(o, overheads));
  }

  lemma ObservationsOfSorted(vs: seq<Json>)
    requires |vs| == 6 && forall i | 0 <= i < 6 :: UniqueKeys(vs[i])
    ensures ObservationsOf(Map(SortKeys, vs)) == ObservationsOf(vs)
  {
    ListsFaithful();
    assert FaithfulAt(AcksJson(), ReadAcks(), vs[0]) && FaithfulAt(ComponentsJson(), ReadComponents(), vs[1]);
    assert FaithfulAt(DecisionWaitsJson(), ReadDecisionWaits(), vs[2]);
    assert FaithfulAt(IdentityWaitsJson(), ReadIdentityWaits(), vs[3]);
    assert FaithfulAt(ResourcesJson(), ReadResources(), vs[5]);
  }

  lemma ObservationsSorted(names: seq<string>, v: Json)
    requires names == OBSERVATION_FIELDS && UniqueKeys(v)
    ensures ReadObservations(SortKeys(v)) == ReadObservations(v)
  {
    ObservationNames(names);
    SortedRecord(names, v);
    if ReadRecord(names, v).Some? {
      RecordIs(names, v, ReadRecord(names, v).value);
      ObservationsOfSorted(ReadRecord(names, v).value);
    }
  }

  lemma BaseNames(names: seq<string>)
    requires names == BASE_FIELDS
    ensures Distinct(names) && |names| == 14 && "evaluation" !in names && "result_hash" !in names
  {
  }

  ghost predicate UniqueOthers(x: Others) {
    && UniqueKeys(x.fixture) && UniqueKeys(x.hardware) && UniqueKeys(x.kitDigest) && UniqueKeys(x.overheads)
    && UniqueKeys(x.protocolDigest) && UniqueKeys(x.recordedAt) && UniqueKeys(x.schemaId) && UniqueKeys(x.schemaVersion)
    && UniqueKeys(x.sourceCommit) && UniqueKeys(x.stressCheck)
  }

  /** A written base is read back. */
  lemma BaseReadsBack(names: seq<string>, tests: Json -> bool, r: RawResult, x: Others)
    requires names == BASE_FIELDS && UniqueOthers(x)
    ensures |names| == 14 && UniqueKeys(BaseJson(r, x))
    ensures ReadBase(tests, BaseJson(r, x)) == Some(r.(restOk := IsRunId(x.runId) && tests(BaseJson(r, x))))
  {
    BaseNames(names);
    ValuesReadBack(tests, BaseJson(r, x), r, x, BaseValues(r, x));
    ValuesUnique(r, x, BaseValues(r, x));
    RecordReadsBack(names, BaseValues(r, x));
  }

  lemma ValuesReadBack(tests: Json -> bool, v: Json, r: RawResult, x: Others, vs: seq<Json>)
    requires vs == BaseValues(r, x) && UniqueOthers(x)
    ensures BaseOf(tests, v, vs) == Some(r.(restOk := IsRunId(x.runId) && tests(v)))
  {
    BaseValueAt(r, x, vs);
    PartsReadBack(r, vs[0], vs[1], vs[6]);
    ObservationsReadBack(OBSERVATION_FIELDS, r.observations, x.overheads);
    BaseOfParts(tests, v, vs, r, x.runId);
  }

  lemma BaseValueAt(r: RawResult, x: Others, vs: seq<Json>)
    requires vs == BaseValues(r, x)
    ensures |vs| == 14 && vs[0] == TextsJson()(r.errors) && vs[1] == ExecutionJson()(r.execution)
    ensures vs[5] == ObservationsJson(r.observations, x.overheads) && vs[6] == ProtocolJson()(r.protocol)
    ensures vs[9] == Str(x.runId)
  {
  }

  lemma OthersAt(r: RawResult, x: Others, vs: seq<Json>)
    requires vs == BaseValues(r, x)
    ensures |vs| == 14 && vs[2] == x.fixture && vs[3] == x.hardware && vs[4] == x.kitDigest && vs[7] == x.protocolDigest
    ensures vs[8] == x.recordedAt && vs[10] == x.schemaId && vs[11] == x.schemaVersion && vs[12] == x.sourceCommit
    ensures vs[13] == x.stressCheck
  {
  }

  lemma FourteenUnique(vs: seq<Json>)
    requires |vs| == 14
    requires UniqueKeys(vs[0]) && UniqueKeys(vs[1]) && UniqueKeys(vs[2]) && UniqueKeys(vs[3]) && UniqueKeys(vs[4])
    requires UniqueKeys(vs[5]) && UniqueKeys(vs[6]) && UniqueKeys(vs[7]) && UniqueKeys(vs[8]) && UniqueKeys(vs[9])
    requires UniqueKeys(vs[10]) && UniqueKeys(vs[11]) && UniqueKeys(vs[12]) && UniqueKeys(vs[13])
    ensures forall i | 0 <= i < 14 :: UniqueKeys(vs[i])
  {
  }

  lemma ValuesUnique(r: RawResult, x: Others, vs: seq<Json>)
    requires vs == BaseValues(r, x) && UniqueOthers(x)
    ensures forall i | 0 <= i < 14 :: UniqueKeys(vs[i])
  {
    BaseValueAt(r, x, vs);
    PartsReadBack(r, vs[0], vs[1], vs[6]);
    ObservationsReadBack(OBSERVATION_FIELDS, r.observations, x.overheads);
    OthersAt(r, x, vs);
    FourteenUnique(vs);
  }

  lemma PartsReadBack(r: RawResult, errors: Json, execution: Json, protocol: Json)
    requires errors == TextsJson()(r.errors) && execution == ExecutionJson()(r.execution)
    requires protocol == ProtocolJson()(r.protocol)
    ensures UniqueKeys(errors) && UniqueKeys(execution) && UniqueKeys(protocol)
    ensures ReadTexts()(errors) == Some(r.errors) && ReadExecution()(execution) == Some(r.execution)
    ensures ReadProtocol()(protocol) == Some(r.protocol)
  {
    PartsFaithful();
    assert ReadsBack(TextsJson(), ReadTexts(), r.errors) && ReadsBack(ExecutionJson(), ReadExecution(), r.execution);
    assert ReadsBack(ProtocolJson(), ReadProtocol(), r.protocol);
  }

  lemma BaseOfParts(tests: Json -> bool, v: Json, vs: seq<Json>, r: RawResult, runId: string)
    requires |vs| == 14 && vs[9] == Str(runId)
    requires ReadTexts()(vs[0]) == Some(r.errors) && ReadExecution()(vs[1]) == Some(r.execution)
    requires ReadObservations(vs[5]) == Some(r.observations) && ReadProtocol()(vs[6]) == Some(r.protocol)
    ensures BaseOf(tests, v, vs) == Some(r.(restOk := IsRunId(runId) && tests(v)))
  {
  }

  lemma BaseOfSorted(tests: Json -> bool, v: Json, vs: seq<Json>)
    requires |vs| == 14 && OrderFree(tests) && forall i | 0 <= i < 14 :: UniqueKeys(vs[i])
    ensures BaseOf(tests, SortKeys(v), Map(SortKeys, vs)) == BaseOf(tests, v, vs)
  {
    PartsFaithful();
    assert FaithfulAt(TextsJson(), ReadTexts(), vs[0]) && FaithfulAt(ExecutionJson(), ReadExecution(), vs[1]);
    assert FaithfulAt(ProtocolJson(), ReadProtocol(), vs[6]);
    ObservationsSorted(OBSERVATION_FIELDS, vs[5]);
    SortKeysIdempotent(v);
    assert SameTest(tests, SortKeys(v), v);
    BaseOfSame(tests, v, SortKeys(v), vs, Map(SortKeys, vs));
  }

  lemma BaseOfSame(tests: Json -> bool, v: Json, w: Json, vs: seq<Json>, ws: seq<Json>)
    requires |vs| == |ws| == 14 && tests(v) == tests(w) && ws[9] == SortKeys(vs[9])
    requires ReadTexts()(vs[0]) == ReadTexts()(ws[0]) && ReadExecution()(vs[1]) == ReadExecution()(ws[1])
    requires ReadObservations(vs[5]) == ReadObservations(ws[5]) && ReadProtocol()(vs[6]) == ReadProtocol()(ws[6])
    ensures BaseOf(tests, v, vs) == BaseOf(tests, w, ws)
  {
  }

  /** The reading of a base does not depend on the order of keys. */
  lemma BaseSorted(names: seq<string>, tests: Json -> bool, v: Json)
    requires names == BASE_FIELDS && UniqueKeys(v) && OrderFree(tests)
    ensures ReadBase(tests, SortKeys(v)) == ReadBase(tests, v)
  {
    BaseNames(names);
    SortedRecord(names, v);
    if ReadRecord(names, v).Some? {
      RecordIs(names, v, ReadRecord(names, v).value);
      BaseOfSorted(tests, v, ReadRecord(names, v).value);
    }
  }
}
