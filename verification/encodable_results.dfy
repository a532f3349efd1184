/** Everything that is read of a result and computed from it can be written; so sealing hangs on the other values. */
module EncodableResults {
  import opened Wrappers
  import opened Json
  import opened JsonTheorems
  import opened Records
  import opened ResultJson
  import opened SealedRecords
  import opened BenchmarkContract
  import opened ObservationIds
  import opened Observations
  import opened ObservationValidators
  import opened Evaluations
  import opened Sealing

  // ---------- Names and scalars ----------

  ghost predicate WritesIds(text: string -> bool) {
    forall s | IsClosedId(s) :: text(s)
  }

  lemma IdsAreText(nfc: string -> bool)
    requires AsciiIsNormal(nfc)
    ensures WritesIds(TextOf(nfc))
  {
    forall s | IsClosedId(s)
      ensures TextOf(nfc)(s)
    {
      assert IsAscii(s);
    }
  }

  predicate IsName(s: string) {
    IsWord(s) && 'a' <= s[0] <= 'z'
  }

  predicate Names(names: seq<string>) {
    forall i | 0 <= i < |names| :: IsName(names[i])
  }

  lemma NameIsKey(s: string, text: string -> bool)
    requires IsName(s) && WritesIds(text)
    ensures IsClosedKey(s) && text(s)
  {
    WordIsPlain(s);
    forall c | c in s
      ensures 'a' <= c <= 'z' || '0' <= c <= '9' || c == '_'
    {
      var i :| 0 <= i < |s| && s[i] == c;
      assert IsWordChar(s[i]);
    }
  }

  /** A scalar that can be written. */
  predicate Prints(text: string -> bool, v: Json) {
    IsScalar(v) && Canonical(v, 0, text)
  }

  predicate AllPrint(text: string -> bool, values: seq<Json>) {
    forall i | 0 <= i < |values| :: Prints(text, values[i])
  }

  lemma RecordCanonical(names: seq<string>, values: seq<Json>, depth: nat, text: string -> bool)
    requires |names| == |values| && Names(names) && WritesIds(text) && depth <= MAX_DEPTH
    ensures Canonical(RecordJson(names, values), depth, text) <==>
            forall i | 0 <= i < |values| :: Canonical(values[i], depth + 1, text)
  {
    var members := Pairs(names, values);
    forall i | 0 <= i < |names|
      ensures IsClosedKey(members[i].key) && text(members[i].key)
    {
      NameIsKey(names[i], text);
    }
    if Canonical(Obj(members), depth, text) {
      forall i | 0 <= i < |values|
        ensures Canonical(values[i], depth + 1, text)
      {
        assert Canonical(members[i].value, depth + 1, text);
      }
    }
  }

  ghost predicate PutPrints<X>(names: seq<string>, put: X -> seq<Json>, text: string -> bool, x: X) {
    |put(x)| == |names| && AllPrint(text, put(x))
  }

  lemma ScalarRecordCanonical<X>(names: seq<string>, put: X -> seq<Json>, x: X, depth: nat, text: string -> bool)
    requires PutPrints(names, put, text, x) && Names(names) && WritesIds(text) && depth < MAX_DEPTH
    ensures Canonical(RecordWriter(names, put)(x), depth, text)
  {
    RecordCanonical(names, put(x), depth, text);
    forall i | 0 <= i < |put(x)|
      ensures Canonical(put(x)[i], depth + 1, text)
    {
      assert Prints(text, put(x)[i]);
    }
  }

  lemma ScalarListCanonical<X>(names: seq<string>, put: X -> seq<Json>, xs: seq<X>, depth: nat, text: string -> bool)
    requires Names(names) && WritesIds(text) && depth + 1 < MAX_DEPTH
    requires forall i | 0 <= i < |xs| :: PutPrints(names, put, text, xs[i])
    ensures Canonical(ListWriter(RecordWriter(names, put))(xs), depth, text)
  {
    forall i | 0 <= i < |xs|
      ensures Canonical(RecordWriter(names, put)(xs[i]), depth + 1, text)
    {
      ScalarRecordCanonical(names, put, xs[i], depth + 1, text);
    }
  }

  lemma TextsCanonical(xs: seq<string>, depth: nat, text: string -> bool)
    requires WritesIds(text) && depth < MAX_DEPTH && forall i | 0 <= i < |xs| :: IsClosedId(xs[i])
    ensures Canonical(TextsJson()(xs), depth, text)
  {
  }

  // ---------- The names of the fields ----------

  lemma FirstBaseFieldNames()
    ensures IsName("error_codes") && IsName("execution_conditions") && IsName("fixture") && IsName("hardware")
    ensures IsName("kit_identity_digest") && IsName("observations") && IsName("protocol") && IsName("protocol_digest")
  {
  }

  lemma BaseFieldNames(names: seq<string>)
    requires names == BASE_FIELDS
    ensures Names(names)
  {
    FirstBaseFieldNames();
    assert IsName("recorded_at_utc") && IsName("run_id") && IsName("schema_id") && IsName("schema_version");
    assert IsName("source_commit") && IsName("stress_check");
  }

  lemma ObservationFieldNames(names: seq<string>)
    requires names == OBSERVATION_FIELDS
    ensures Names(names)
  {
    assert IsName("acknowledgements") && IsName("components") && IsName("decision_waits");
    assert IsName("identity_waits") && IsName("overheads") && IsName("resources");
  }

  lemma WaitFieldNames(identity: seq<string>, decision: seq<string>)
    requires identity == IDENTITY_FIELDS && decision == DECISION_FIELDS
    ensures Names(identity) && Names(decision)
  {
    assert IsName("cache_state") && IsName("duration_ns") && IsName("observation_id");
    assert IsName("profile") && IsName("round_ordinal") && IsName("stage");
  }

  lemma OtherFieldNames(component: seq<string>, ack: seq<string>)
    requires component == COMPONENT_FIELDS && ack == ACK_FIELDS
    ensures Names(component) && Names(ack)
  {
    assert IsName("duration_ns") && IsName("name") && IsName("parent_observation_id");
    assert IsName("action") && IsName("cache_state") && IsName("observation_id");
  }

  lemma ResourceFieldNames(names: seq<string>)
    requires names == RESOURCE_FIELDS
    ensures Names(names)
  {
    assert IsName("cache_state") && IsName("observation_id") && IsName("peak_working_set_bytes");
    assert IsName("process_cpu_time_ns") && IsName("read_bytes") && IsName("write_bytes");
  }

  lemma ProtocolFieldNames(names: seq<string>)
    requires names == PROTOCOL_FIELDS
    ensures Names(names)
  {
    assert IsName("acknowledgement_limit_ms") && IsName("cold_processes_per_stratum");
    assert IsName("fingerprint_worker_limit_ms") && IsName("visible_wait_limit_ms") && IsName("warm_iterations");
  }

  lemma ExecutionFieldNames(names: seq<string>)
    requires names == EXECUTION_FIELDS
    ensures Names(names)
  {
    assert IsName("ac_power") && IsName("drive_type") && IsName("is_internal") && IsName("is_regular_directory");
    assert IsName("is_reparse_point") && IsName("is_synced_root") && IsName("release_protocol");
    assert IsName("runtime_verified") && IsName("working_root_class");
  }

  lemma RowFieldNames(names: seq<string>)
    requires names == ROW_FIELDS
    ensures Names(names)
  {
    assert IsName("cache_state") && IsName("limit_ns") && IsName("maximum_ns") && IsName("p95_ns") && IsName("passed");
    assert IsName("profile") && IsName("round_ordinal") && IsName("sample_count") && IsName("stage");
  }

  lemma EvaluationFieldNames(names: seq<string>)
    requires names == EVALUATION_FIELDS
    ensures Names(names) && IsName(EVALUATION)
  {
    assert IsName("disposition") && IsName("reason_codes") && IsName("rows");
  }

  // ---------- The parts of a validated result ----------

  lemma IdentityWaitsCanonical(p: Protocol, waits: seq<IdentityWait>, text: string -> bool)
    requires WritesIds(text) && p.Valid() && IdentityWaitsOk(p, waits)
    ensures Canonical(IdentityWaitsJson()(waits), 2, text)
  {
    WaitFieldNames(IDENTITY_FIELDS, DECISION_FIELDS);
    forall i | 0 <= i < |waits|
      ensures PutPrints(IDENTITY_FIELDS, PutIdentityWait, text, waits[i])
    {
      assert IdentityWaitOk(waits[i]);
      CacheIsId(waits[i].cacheState);
    }
    ScalarListCanonical(IDENTITY_FIELDS, PutIdentityWait, waits, 2, text);
  }

  lemma CacheIsId(cache: string)
    requires cache in CACHES
    ensures IsClosedId(cache)
  {
    CachesAreWords(cache);
    WordIsPlain(cache);
  }

  lemma NamedIsId(names: seq<string>, name: string)
    requires Words(names) && name in names
    ensures IsClosedId(name)
  {
    var i :| 0 <= i < |names| && names[i] == name;
    WordIsPlain(names[i]);
  }

  lemma StageIsId(stage: Stage)
    ensures IsClosedId(StageName(stage))
  {
  }

  lemma DecisionWaitsCanonical(c: Contract, p: Protocol, waits: seq<DecisionWait>, text: string -> bool)
    requires WritesIds(text) && p.Valid() && Words(c.profiles) && DecisionWaitsOk(c, p, waits)
    ensures Canonical(DecisionWaitsJson()(waits), 2, text)
  {
    WaitFieldNames(IDENTITY_FIELDS, DECISION_FIELDS);
    forall i | 0 <= i < |waits|
      ensures PutPrints(DECISION_FIELDS, PutDecisionWait, text, waits[i])
    {
      assert DecisionWaitTest(c)(waits[i]);
      DecisionWaitPrints(c, waits[i], text);
    }
    ScalarListCanonical(DECISION_FIELDS, PutDecisionWait, waits, 2, text);
  }

  lemma DecisionWaitPrints(c: Contract, w: DecisionWait, text: string -> bool)
    requires WritesIds(text) && Words(c.profiles) && DecisionWaitTest(c)(w)
    ensures |PutDecisionWait(w)| == 6 && AllPrint(text, PutDecisionWait(w))
  {
    CacheIsId(w.cacheState);
    NamedIsId(c.profiles, w.profile);
    StageIsId(w.stage);
  }

  lemma ComponentsCanonical(parents: Durations, components: seq<Component>, text: string -> bool)
    requires WritesIds(text) && forall i | 0 <= i < |components| :: ComponentTest(parents)(components[i])
    ensures Canonical(ComponentsJson()(components), 2, text)
  {
    OtherFieldNames(COMPONENT_FIELDS, ACK_FIELDS);
    forall i | 0 <= i < |components|
      ensures PutPrints(COMPONENT_FIELDS, PutComponent, text, components[i])
    {
      assert ComponentTest(parents)(components[i]);
    }
    ScalarListCanonical(COMPONENT_FIELDS, PutComponent, components, 2, text);
  }

  lemma AcksCanonical(c: Contract, acks: seq<Acknowledgement>, text: string -> bool)
    requires WritesIds(text) && Words(c.actions) && forall i | 0 <= i < |acks| :: AckTest(c)(acks[i])
    ensures Canonical(AcksJson()(acks), 2, text)
  {
    OtherFieldNames(COMPONENT_FIELDS, ACK_FIELDS);
    forall i | 0 <= i < |acks|
      ensures PutPrints(ACK_FIELDS, PutAck, text, acks[i])
    {
      assert AckTest(c)(acks[i]);
      CacheIsId(acks[i].cacheState);
      NamedIsId(c.actions, acks[i].action);
    }
    ScalarListCanonical(ACK_FIELDS, PutAck, acks, 2, text);
  }

  lemma ResourcesCanonical(resources: seq<Resource>, text: string -> bool)
    requires WritesIds(text) && ResourcesOk(resources)
    ensures Canonical(ResourcesJson()(resources), 2, text)
  {
    ResourceFieldNames(RESOURCE_FIELDS);
    forall i | 0 <= i < |resources|
      ensures PutPrints(RESOURCE_FIELDS, PutResource, text, resources[i])
    {
      assert ResourceOk(resources[i]);
      CacheIsId(resources[i].cacheState);
    }
    ScalarListCanonical(RESOURCE_FIELDS, PutResource, resources, 2, text);
  }

  lemma ProtocolCanonical(p: Protocol, text: string -> bool)
    requires WritesIds(text) && p.Valid()
    ensures Canonical(ProtocolJson()(p), 1, text)
  {
    ProtocolFieldNames(PROTOCOL_FIELDS);
    ScalarRecordCanonical(PROTOCOL_FIELDS, PutProtocol, p, 1, text);
  }

  lemma ExecutionCanonical(p: Protocol, e: Execution, text: string -> bool)
    requires WritesIds(text) && ExecutionOk(p, e)
    ensures Canonical(ExecutionJson()(e), 1, text)
  {
    ExecutionFieldNames(EXECUTION_FIELDS);
    ScalarRecordCanonical(EXECUTION_FIELDS, PutExecution, e, 1, text);
  }

  /** The lists of a result can be written when its overheads can. */
  lemma ObservationsCanonical(c: Contract, p: Protocol, o: Observations, overheads: Json, text: string -> bool)
    requires WritesIds(text) && c.Valid() && p.Valid() && ObservationsOk(c, p, o)
    ensures Canonical(ObservationsJson(o, overheads), 1, text) <==> Canonical(overheads, 2, text)
  {
    ListsCanonical(c, p, o, text);
    ObservationFieldNames(OBSERVATION_FIELDS);
    ObservationsWith(OBSERVATION_FIELDS, o, overheads, ObservationValues(o, overheads), text);
  }

  ghost predicate ListsPrint(o: Observations, text: string -> bool) {
    && Canonical(AcksJson()(o.acknowledgements), 2, text) && Canonical(ComponentsJson()(o.components), 2, text)
    && Canonical(DecisionWaitsJson()(o.decisionWaits), 2, text)
    && Canonical(IdentityWaitsJson()(o.identityWaits), 2, text) && Canonical(ResourcesJson()(o.resources), 2, text)
  }

  lemma ListsCanonical(c: Contract, p: Protocol, o: Observations, text: string -> bool)
    requires WritesIds(text) && c.Valid() && p.Valid() && ObservationsOk(c, p, o)
    ensures ListsPrint(o, text)
  {
    IdentityWaitsCanonical(p, o.identityWaits, text);
    DecisionWaitsCanonical(c, p, o.decisionWaits, text);
    ComponentsCanonical(ParentDurations(IdentityDurations(o.identityWaits), o.decisionWaits), o.components, text);
    AcksCanonical(c, o.acknowledgements, text);
    ResourcesCanonical(o.resources, text);
  }

  lemma ObservationsWith(names: seq<string>, o: Observations, overheads: Json, vs: seq<Json>, text: string -> bool)
    requires |names| == 6 && Names(names) && vs == ObservationValues(o, overheads) && WritesIds(text)
    requires ListsPrint(o, text)
    ensures |vs| == 6 && (Canonical(RecordJson(names, vs), 1, text) <==> Canonical(overheads, 2, text))
  {
    RecordCanonical(names, vs, 1, text);
    assert vs[4] == overheads;
  }

  // ---------- The evaluation ----------

  lemma RowPrints(c: Contract, r: Row, text: string -> bool)
    requires WritesIds(text) && Words(c.profiles) && RowOk(c, r)
    ensures |PutRow(r)| == 9 && AllPrint(text, PutRow(r))
  {
    CacheIsId(r.cacheState);
    if r.profile.Some? {
      NamedIsId(c.profiles, r.profile.value);
    }
  }

  lemma DispositionPrints(d: Disposition, text: string -> bool)
    requires WritesIds(text)
    ensures Canonical(DispositionJson(d), 2, text)
  {
    assert IsClosedId("pass") && IsClosedId("stop");
  }

  lemma EvaluationCanonical(c: Contract, e: Evaluation, text: string -> bool)
    requires WritesIds(text) && Words(c.profiles) && EvaluationOk(e)
    requires forall i | 0 <= i < |e.rows| :: RowOk(c, e.rows[i])
    ensures Canonical(EvaluationJson(e), 1, text)
  {
    RowFieldNames(ROW_FIELDS);
    forall i | 0 <= i < |e.rows|
      ensures PutPrints(ROW_FIELDS, PutRow, text, e.rows[i])
    {
      RowPrints(c, e.rows[i], text);
    }
    ScalarListCanonical(ROW_FIELDS, PutRow, e.rows, 2, text);
    TextsCanonical(e.reasons, 2, text);
    DispositionPrints(e.disposition, text);
    EvaluationFieldNames(EVALUATION_FIELDS);
    RecordCanonical(EVALUATION_FIELDS, EvaluationValues(e), 1, text);
  }

  // ---------- The base ----------

  /** The values that the evaluation does not use can be written. */
  predicate OthersPrint(x: Others, text: string -> bool) {
    && Canonical(x.fixture, 1, text) && Canonical(x.hardware, 1, text) && Canonical(x.kitDigest, 1, text)
    && Canonical(x.overheads, 2, text) && Canonical(x.protocolDigest, 1, text) && Canonical(x.recordedAt, 1, text)
    && Canonical(x.schemaId, 1, text) && Canonical(x.schemaVersion, 1, text) && Canonical(x.sourceCommit, 1, text)
    && Canonical(x.stressCheck, 1, text)
  }

  predicate AllCanonical(values: seq<Json>, text: string -> bool) {
    forall i | 0 <= i < |values| :: Canonical(values[i], 1, text)
  }

  lemma FourteenCanonical(vs: seq<Json>, text: string -> bool)
    requires |vs| == 14
    ensures AllCanonical(vs, text) <==>
            && Canonical(vs[0], 1, text) && Canonical(vs[1], 1, text) && Canonical(vs[2], 1, text)
            && Canonical(vs[3], 1, text) && Canonical(vs[4], 1, text) && Canonical(vs[5], 1, text)
            && Canonical(vs[6], 1, text) && Canonical(vs[7], 1, text) && Canonical(vs[8], 1, text)
            && Canonical(vs[9], 1, text) && Canonical(vs[10], 1, text) && Canonical(vs[11], 1, text)
            && Canonical(vs[12], 1, text) && Canonical(vs[13], 1, text)
  {
  }

  lemma RunIdPrints(id: string, nfc: string -> bool)
    requires IsRunId(id) && AsciiIsNormal(nfc)
    ensures Canonical(Str(id), 1, TextOf(nfc))
  {
    assert IsAscii(id);
  }

  lemma BaseCanonical(c: Contract, r: RawResult, x: Others, vs: seq<Json>, nfc: string -> bool)
    requires c.Valid() && AsciiIsNormal(nfc) && BaseOk(c, r) && IsRunId(x.runId) && vs == BaseValues(r, x)
    ensures AllCanonical(vs, TextOf(nfc)) <==> OthersPrint(x, TextOf(nfc))
  {
    var text := TextOf(nfc);
    IdsAreText(nfc);
    BaseValueAt(r, x, vs);
    OthersAt(r, x, vs);
    TextsCanonical(r.errors, 1, text);
    ExecutionCanonical(r.protocol, r.execution, text);
    ObservationsCanonical(c, r.protocol, r.observations, x.overheads, text);
    ProtocolCanonical(r.protocol, text);
    RunIdPrints(x.runId, nfc);
    FourteenCanonical(vs, text);
  }

  // ---------- Sealing ----------

  lemma HashedCanonical(names: seq<string>, vs: seq<Json>, e: Json, text: string -> bool)
    requires |names| == |vs| && Names(names) && IsName(EVALUATION) && WritesIds(text)
    ensures Canonical(RecordJson(names + [EVALUATION], vs + [e]), 0, text) <==>
            AllCanonical(vs, text) && Canonical(e, 1, text)
  {
    RecordCanonical(names + [EVALUATION], vs + [e], 0, text);
    var all := vs + [e];
    assert forall i | 0 <= i < |vs| :: all[i] == vs[i];
    assert all[|vs|] == e;
  }

  /** A written base is evaluated as what was written. */
  lemma WrittenEvaluates(s: Scripts, r: RawResult, x: Others)
    requires s.Valid() && UniqueOthers(x)
    ensures UniqueKeys(BaseJson(r, x))
    ensures ReadRecord(BASE_FIELDS, BaseJson(r, x)) == Some(BaseValues(r, x))
    ensures var read := r.(restOk := IsRunId(x.runId) && s.tests(BaseJson(r, x)));
            ReadBase(s.tests, BaseJson(r, x)) == Some(read)
              && EvaluateBase(s, BaseJson(r, x)) == EvaluateResult(s.c, read)
  {
    BaseReadsBack(BASE_FIELDS, s.tests, r, x);
    BaseNames(BASE_FIELDS);
    RecordReadsBack(BASE_FIELDS, BaseValues(r, x));
  }

  /** When sealing is possible, given an evaluation. */
  lemma SealsEvaluated(s: Scripts, r: RawResult, x: Others, e: Evaluation)
    requires s.Valid() && BaseOk(s.c, r) && IsRunId(x.runId) && EvaluateResult(s.c, r) == Ok(e)
    ensures CanonicalBytes(RecordJson(SealerOf(s).Hashed(), BaseValues(r, x) + [EvaluationJson(e)]), TextOf(s.nfc)).Ok?
            <==> OthersPrint(x, TextOf(s.nfc))
  {
    var text := TextOf(s.nfc);
    IdsAreText(s.nfc);
    BaseFieldNames(BASE_FIELDS);
    EvaluationFieldNames(EVALUATION_FIELDS);
    BaseNames(BASE_FIELDS);
    EvaluatedIsOk(s.c, r, e);
    EvaluatedRowsAreOk(s.c, r, e);
    EvaluationCanonical(s.c, e, text);
    BaseCanonical(s.c, r, x, BaseValues(r, x), s.nfc);
    HashedCanonical(BASE_FIELDS, BaseValues(r, x), EvaluationJson(e), text);
  }

  /** Sealing a result succeeds exactly when its values pass their tests, every row can be computed, and the values that
      the evaluation does not use can be written. */
  lemma SealsExactlyWhen(s: Scripts, r: RawResult, x: Others)
    requires s.Valid() && UniqueOthers(x)
    ensures SealResult(s, BaseJson(r, x)).Ok? <==>
            && IsRunId(x.runId) && s.tests(BaseJson(r, x)) && EvaluateResult(s.c, r.(restOk := true)).Ok?
            && OthersPrint(x, TextOf(s.nfc))
  {
    WrittenEvaluates(s, r, x);
    SealsRecord(s, BaseJson(r, x), BaseValues(r, x));
    var e := EvaluateResult(s.c, r.(restOk := true));
    EvaluationNeedsTests(s.c, r);
    if IsRunId(x.runId) && e.Ok? {
      SealsRead(s, r, x, e.value);
    }
  }

  lemma EvaluationNeedsTests(c: Contract, r: RawResult)
    ensures EvaluateResult(c, r.(restOk := false)).Fail?
  {
  }

  lemma SealsRecord(s: Scripts, base: Json, vs: seq<Json>)
    requires s.Valid() && UniqueKeys(base) && ReadRecord(BASE_FIELDS, base) == Some(vs)
    ensures var e, hashed := EvaluateBase(s, base), SealerOf(s).Hashed();
            && (e.Ok? ==> |vs| + 1 == |hashed|)
            && (SealResult(s, base).Ok? <==>
                e.Ok? && CanonicalBytes(RecordJson(hashed, vs + [EvaluationJson(e.value)]), TextOf(s.nfc)).Ok?)
  {
    SealedNames(BASE_FIELDS);
    StoreWriting(s, base, base);
    SealIs(SealerOf(s), base, vs);
  }

  lemma SealsRead(s: Scripts, r: RawResult, x: Others, e: Evaluation)
    requires s.Valid() && IsRunId(x.runId) && EvaluateResult(s.c, r.(restOk := true)) == Ok(e)
    ensures CanonicalBytes(RecordJson(SealerOf(s).Hashed(), BaseValues(r, x) + [EvaluationJson(e)]), TextOf(s.nfc)).Ok?
            <==> OthersPrint(x, TextOf(s.nfc))
  {
    var read := r.(restOk := true);
    assert BaseValues(read, x) == BaseValues(r, x);
    SealsEvaluated(s, read, x, e);
  }
}
