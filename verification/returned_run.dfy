/** Verifying the files a run has returned, from their bytes, without trusting the verdict stored in them. */
module ReturnedRuns {
  import opened Wrappers
  import opened Sorting
  import opened Utf8
  import opened Json
  import opened JsonTheorems
  import opened Records
  import opened ResultJson
  import opened SealedRecords
  import opened Evaluations
  import opened Verdicts
  import opened Sealing

  datatype Reason =
    | KitBindingInvalid | FileSetInvalid | SidecarInvalid | ContractInvalid | ExecutionInvalid | SummaryInvalid

  /** `ReturnedRunVerification`: its status with the reason or the recomputed evaluation. */
  datatype ReturnedRun = Invalid(reason: Reason) | ValidPass(evaluation: Evaluation) | ValidStop(evaluation: Evaluation)

  datatype Returned = Returned(jsonName: string, result: seq<Byte>, sidecar: seq<Byte>, summary: seq<Byte>)

  /** What a result must name; `digest` is the hash of the identity itself. */
  datatype KitIdentity = KitIdentity(
    schemaId: string, schemaVersion: int, sourceCommit: string, digest: string, protocolDigest: string,
    fixtureDigest: string)

  /** The kit that verifies. The wording of the summary depends on the run ID, the source commit, the protocol digest
      and the evaluation. */
  datatype Kit = Kit(
    identity: KitIdentity, scripts: Scripts, summary: (string, string, string, Evaluation) -> seq<Byte>)

  // ---------- What is read of a result ----------

  function Field(v: Json, key: string): Json {
    if v.Obj? then FieldOf(v.members)(key) else Null
  }

  function TextField(v: Json, key: string): string {
    if Field(v, key).Str? then Field(v, key).s else []
  }

  /** `value == n` as Python has it: `True` equals one and `False` zero. */
  predicate EqualsInt(v: Json, n: int) {
    v == Int(n) || (v == Bool(true) && n == 1) || (v == Bool(false) && n == 0)
  }

  /** The result names this kit, its protocol and its fixture, and when it was recorded. */
  predicate BoundTo(k: KitIdentity, v: Json) {
    && Field(v, "schema_id") == Str(k.schemaId) && EqualsInt(Field(v, "schema_version"), k.schemaVersion)
    && Field(v, SOURCE_COMMIT) == Str(k.sourceCommit) && Field(v, "kit_identity_digest") == Str(k.digest)
    && Field(v, PROTOCOL_DIGEST) == Str(k.protocolDigest)
    && Field(Field(v, "fixture"), "fixture_digest") == Str(k.fixtureDigest)
    && !Field(v, "recorded_at_utc").Null?
  }

  /** `_execution_is_valid`. */
  predicate ExecutionIsValid(s: Scripts, base: Json) {
    match ReadBase(s.tests, base) case None => false case Some(r) => ValidExecution(r.execution)
  }

  const RUN_ID := "run_id"
  const SOURCE_COMMIT := "source_commit"
  const PROTOCOL_DIGEST := "protocol_digest"
  const NAME_FRONT := "modori-live-research-os-office-benchmark-"
  const NAME_END := ".json"

  /** `result_filename`. */
  function ResultFilename(v: Json): string {
    NAME_FRONT + TextField(v, RUN_ID) + NAME_END
  }

  predicate IsPlainName(name: string) {
    forall i | 0 <= i < |name| :: (name[i] as int) < 0x80 && name[i] != '/' && name[i] != '\\'
  }

  /** `result_sidecar_bytes`. */
  function Sidecar(sha: seq<Byte> -> string, raw: seq<Byte>, name: string): seq<Byte> {
    Encode(sha(raw) + "  " + name + "\n")
  }

  /** `canonical_summary_bytes`. */
  function SummaryBytes(k: Kit, base: Json, e: Evaluation): seq<Byte> {
    k.summary(TextField(base, RUN_ID), TextField(base, SOURCE_COMMIT), TextField(base, PROTOCOL_DIGEST), e)
  }

  /** `_strict_result_mapping`. */
  function StrictResultMapping(raw: seq<Byte>): Option<Json> {
    if raw == [] || |raw| > MAX_JSON_BYTES || BYTE_ORDER_MARK <= raw then None
    else
      match Decode(raw)
      case None => None
      case Some(text) =>
        match Loads(text) case None => None case Some(v) => if v.Obj? then Some(v) else None
  }

  // ---------- What a run writes ----------

  /** The bytes are the canonical text of the sealed base. */
  ghost predicate IsText(s: Scripts, base: Json, raw: seq<Byte>) {
    && UniqueKeys(base) && SealResult(s, base).Ok?
    && CanonicalBytes(SealResult(s, base).value, TextOf(s.nfc)) == Ok(raw) && |raw| <= MAX_JSON_BYTES
  }

  /** The files are what a run of this kit on a valid machine writes for its base. */
  ghost predicate IsWritten(k: Kit, base: Json, r: Returned) {
    && IsText(k.scripts, base, r.result) && r.jsonName == ResultFilename(base)
    && r.sidecar == Sidecar(k.scripts.sha, r.result, r.jsonName)
    && BoundTo(k.identity, base) && ExecutionIsValid(k.scripts, base)
    && EvaluateBase(k.scripts, base).Ok? && r.summary == SummaryBytes(k, base, EvaluateBase(k.scripts, base).value)
  }

  ghost predicate Genuine(k: Kit, r: Returned) {
    exists base :: IsWritten(k, base, r)
  }

  /** No run of any base has written this text. */
  ghost predicate NoText(s: Scripts, raw: seq<Byte>) {
    forall base :: !IsText(s, base, raw)
  }

  /** The base behind the text is not what the kit asks for. */
  ghost predicate WrongFor(k: Kit, base: Json, r: Returned, reason: Reason) {
    IsText(k.scripts, base, r.result) &&
    match reason
    case FileSetInvalid => r.jsonName != ResultFilename(base)
    case KitBindingInvalid => !BoundTo(k.identity, base)
    case ExecutionInvalid => !ExecutionIsValid(k.scripts, base)
    case SummaryInvalid => EvaluateBase(k.scripts, base).Ok? &&
                           r.summary != SummaryBytes(k, base, EvaluateBase(k.scripts, base).value)
    case _ => false
  }

  // ---------- Reading is independent of the order of keys ----------

  lemma FieldSorted(v: Json, key: string)
    requires UniqueKeys(v)
    ensures Field(SortKeys(v), key) == SortKeys(Field(v, key)) && UniqueKeys(Field(v, key))
  {
    if v.Obj? {
      SortedField(v.members, key);
      LookupMeans(v.members, key);
      if key in KeySet(v.members) {
        var i := IndexOf(v.members, Member(key, Lookup(v.members, key).value));
      }
    }
  }

  lemma TextFieldSame(v: Json, w: Json, key: string)
    requires UniqueKeys(v) && UniqueKeys(w) && Same(v, w)
    ensures TextField(v, key) == TextField(w, key)
  {
    FieldSorted(v, key);
    FieldSorted(w, key);
  }

  lemma BoundSorted(k: KitIdentity, v: Json)
    requires UniqueKeys(v)
    ensures BoundTo(k, SortKeys(v)) <==> BoundTo(k, v)
  {
    FieldSorted(v, "schema_id");
    FieldSorted(v, "schema_version");
    FieldSorted(v, SOURCE_COMMIT);
    FieldSorted(v, "kit_identity_digest");
    FieldSorted(v, PROTOCOL_DIGEST);
    FieldSorted(v, "recorded_at_utc");
    FieldSorted(v, "fixture");
    FieldSorted(Field(v, "fixture"), "fixture_digest");
  }

  lemma ReadSame(s: Scripts, v: Json, w: Json)
    requires s.Valid() && UniqueKeys(v) && UniqueKeys(w) && Same(v, w)
    ensures ReadBase(s.tests, v) == ReadBase(s.tests, w)
  {
    BaseSorted(BASE_FIELDS, s.tests, v);
    BaseSorted(BASE_FIELDS, s.tests, w);
  }

  /** Bases that differ in the order of keys write the same files. */
  lemma WrittenSame(k: Kit, v: Json, w: Json)
    requires k.scripts.Valid() && UniqueKeys(v) && UniqueKeys(w) && Same(v, w)
    ensures ResultFilename(v) == ResultFilename(w) && (BoundTo(k.identity, v) <==> BoundTo(k.identity, w))
    ensures EvaluateBase(k.scripts, v) == EvaluateBase(k.scripts, w)
    ensures ExecutionIsValid(k.scripts, v) <==> ExecutionIsValid(k.scripts, w)
    ensures forall e :: SummaryBytes(k, v, e) == SummaryBytes(k, w, e)
  {
    TextFieldSame(v, w, RUN_ID);
    TextFieldSame(v, w, SOURCE_COMMIT);
    TextFieldSame(v, w, PROTOCOL_DIGEST);
    BoundSorted(k.identity, v);
    BoundSorted(k.identity, w);
    ReadSame(k.scripts, v, w);
  }

  // ---------- Text and result ----------

  /** The text of an accepted value reads as that value with sorted keys. */
  lemma TextReads(d: Json, raw: seq<Byte>, text: string -> bool)
    requires UniqueKeys(d) && d.Obj? && CanonicalBytes(d, text) == Ok(raw) && |raw| <= MAX_JSON_BYTES
    ensures StrictResultMapping(raw) == Some(SortKeys(d)) && UniqueKeys(SortKeys(d)) && Same(SortKeys(d), d)
  {
    var w := SortKeys(d);
    SortKeysKeepsProfile(d, 0, text);
    SortKeysKeepsUniqueKeys(d);
    SortKeysIdempotent(d);
    LoadsOfPrinted(w);
    DecodeEncode(PrintValue(w));
    NoByteOrderMark(w);
    PrintedAscii(w);
    assert raw == Encode(PrintValue(w)) && raw != [];
  }

  lemma StrictIsUnique(raw: seq<Byte>)
    requires StrictResultMapping(raw).Some?
    ensures UniqueKeys(StrictResultMapping(raw).value) && StrictResultMapping(raw).value.Obj?
    ensures |raw| <= MAX_JSON_BYTES
  {
    ParsedKeysUnique(SkipSpace(Decode(raw).value));
  }

  /** What a run writes is read and accepted, and its base is the one that was sealed. */
  lemma TextIsAccepted(s: Scripts, base: Json, raw: seq<Byte>)
    requires s.Valid() && IsText(s, base, raw)
    ensures StrictResultMapping(raw).Some?
    ensures var v := StrictResultMapping(raw).value;
            && UniqueKeys(v) && HasKeys(v, SealedFields()) && CanonicalResultBytes(s, v) == Ok(raw)
            && UniqueKeys(Restricted(v, BASE_FIELDS)) && Same(Restricted(v, BASE_FIELDS), base)
  {
    var d := SealResult(s, base).value;
    SealedResultIsAccepted(s, base);
    TextReads(d, raw, TextOf(s.nfc));
    var v := SortKeys(d);
    SealerIsValid(s);
    AcceptedSame(SealerOf(s), d, v);
    RestrictedIsBase(SealerOf(s), v);
    AcceptedExactlyWhenSealed(SealerOf(s), d);
  }

  lemma HashMakesSealed(names: seq<string>, v: Json)
    requires Distinct(names + [EVALUATION] + [HASH]) && v.Obj? && HASH in KeySet(v.members)
    requires HasKeys(v, names) || HasKeys(v, names + [EVALUATION]) || HasKeys(v, names + [EVALUATION] + [HASH])
    ensures HasKeys(v, names + [EVALUATION] + [HASH])
  {
    var n, all := |names|, names + [EVALUATION] + [HASH];
    assert all[..n] == names && all[..n + 1] == names + [EVALUATION] && all[n + 1] == HASH;
  }

  lemma AcceptedHasKeys(s: Scripts, v: Json)
    requires s.Valid() && v.Obj? && CanonicalResultBytes(s, v).Ok? && HASH in KeySet(v.members)
    ensures HasKeys(v, SealedFields())
  {
    SealedNames(BASE_FIELDS);
    HashMakesSealed(BASE_FIELDS, v);
  }

  /** Bytes that are read and accepted with a hash are the text of the sealed base. */
  lemma AcceptedIsText(s: Scripts, raw: seq<Byte>)
    requires s.Valid() && StrictResultMapping(raw).Some?
    requires var v := StrictResultMapping(raw).value;
             v.Obj? && CanonicalResultBytes(s, v) == Ok(raw) && HASH in KeySet(v.members)
    ensures IsText(s, Restricted(StrictResultMapping(raw).value, BASE_FIELDS), raw)
  {
    var v := StrictResultMapping(raw).value;
    StrictIsUnique(raw);
    AcceptedHasKeys(s, v);
    AcceptedIsSealed(s, v);
    SealerIsValid(s);
    AcceptedExactlyWhenSealed(SealerOf(s), v);
    RestrictedIsBase(SealerOf(s), v);
    SameBytes(v, SealResult(s, Restricted(v, BASE_FIELDS)).value, TextOf(s.nfc));
  }

  /** The text determines the base, and the base the text. */
  lemma TextDeterminesBase(s: Scripts, a: Json, b: Json, raw: seq<Byte>)
    requires s.Valid() && IsText(s, a, raw) && UniqueKeys(b)
    ensures IsText(s, b, raw) ==> Same(a, b)
  {
    TextIsAccepted(s, a, raw);
    if IsText(s, b, raw) {
      TextIsAccepted(s, b, raw);
    }
  }

  // ---------- Verification ----------

  /** `_strict_result_mapping`, `canonical_result_bytes` and the test for a hash. */
  predicate AcceptedText(s: Scripts, raw: seq<Byte>) {
    match StrictResultMapping(raw)
    case None => false
    case Some(v) => v.Obj? && CanonicalResultBytes(s, v) == Ok(raw) && HASH in KeySet(v.members)
  }

  lemma WrittenTextIsAccepted(s: Scripts, base: Json, raw: seq<Byte>)
    requires s.Valid()
    ensures IsText(s, base, raw) ==> AcceptedText(s, raw)
  {
    if IsText(s, base, raw) {
      TextIsAccepted(s, base, raw);
      LastFieldIsHash(BASE_FIELDS, StrictResultMapping(raw).value);
    }
  }

  lemma LastFieldIsHash(names: seq<string>, v: Json)
    requires HasKeys(v, names + [EVALUATION] + [HASH])
    ensures HASH in KeySet(v.members)
  {
    assert (names + [EVALUATION] + [HASH])[|names| + 1] == HASH;
  }

  lemma RefusedIsNoText(s: Scripts, raw: seq<Byte>)
    requires s.Valid() && !AcceptedText(s, raw)
    ensures NoText(s, raw)
  {
    forall base
      ensures !IsText(s, base, raw)
    {
      WrittenTextIsAccepted(s, base, raw);
    }
  }

  /** The base of what is accepted. */
  method ReadResult(s: Scripts, raw: seq<Byte>) returns (base: Option<Json>)
    requires s.Valid()
    ensures base.Some? ==> IsText(s, base.value, raw)
    ensures base.None? ==> NoText(s, raw)
  {
    if AcceptedText(s, raw) {
      AcceptedIsText(s, raw);
      return Some(Restricted(StrictResultMapping(raw).value, BASE_FIELDS));
    }
    RefusedIsNoText(s, raw);
    return None;
  }

  /** The text determines the base, so that one base speaks for all. */
  lemma OneBase(k: Kit, base: Json, other: Json, r: Returned)
    requires k.scripts.Valid() && IsText(k.scripts, base, r.result)
    ensures IsWritten(k, other, r) ==>
              IsWritten(k, base, r) && EvaluateBase(k.scripts, other) == EvaluateBase(k.scripts, base)
  {
    if IsWritten(k, other, r) {
      TextDeterminesBase(k.scripts, base, other, r.result);
      WrittenSame(k, other, base);
    }
  }

  lemma GenuineIsOne(k: Kit, base: Json, r: Returned)
    requires k.scripts.Valid() && IsText(k.scripts, base, r.result)
    ensures Genuine(k, r) <==> IsWritten(k, base, r)
  {
    forall other
      ensures IsWritten(k, other, r) ==> IsWritten(k, base, r)
    {
      OneBase(k, base, other, r);
    }
  }

  lemma TextEvaluates(s: Scripts, base: Json, raw: seq<Byte>)
    requires IsText(s, base, raw)
    ensures EvaluateBase(s, base).Ok? && ReadBase(s.tests, base).Some?
    ensures var r := ReadBase(s.tests, base).value;
            var e := EvaluateBase(s, base).value;
            e.disposition == Pass <==> AllPassed(e.rows) && ValidExecution(r.execution) && r.errors == []
  {
    PassMeans(s.c, ReadBase(s.tests, base).value);
  }

  /** The status of a base that was evaluated. */
  ghost predicate StatusOf(k: Kit, base: Json, v: ReturnedRun) {
    var e, r := EvaluateBase(k.scripts, base), ReadBase(k.scripts.tests, base);
    && e.Ok? && r.Some? && !v.Invalid? && v.evaluation == e.value
    && (v.ValidPass? <==> AllPassed(e.value.rows) && r.value.errors == [])
  }

  /** A refusal gives the reason of the first test that fails. */
  ghost predicate ReasonFits(k: Kit, r: Returned, v: ReturnedRun) {
    var ours := r.sidecar == Sidecar(k.scripts.sha, r.result, r.jsonName);
    && (v == Invalid(SidecarInvalid) <==> IsPlainName(r.jsonName) && !ours)
    && (v == Invalid(ContractInvalid) <==> IsPlainName(r.jsonName) && ours && NoText(k.scripts, r.result))
    && (v.Invalid? && v.reason !in {SidecarInvalid, ContractInvalid} ==>
          !IsPlainName(r.jsonName) || exists base :: WrongFor(k, base, r, v.reason))
  }

  /** `verify_returned_result_bytes`: files are genuine exactly when a run of this kit on a valid machine writes them
      for some base, and then the status is recomputed from the raw observations of that base. */
  method VerifyReturnedResultBytes(k: Kit, r: Returned) returns (v: ReturnedRun)
    requires k.scripts.Valid()
    ensures v.Invalid? <==> !Genuine(k, r)
    ensures !v.Invalid? ==> exists base :: IsWritten(k, base, r) && StatusOf(k, base, v)
    ensures ReasonFits(k, r, v)
  {
    if !IsPlainName(r.jsonName) {
      GenuineNameIsPlain(k, r);
      return Invalid(FileSetInvalid);
    }
    if r.sidecar != Sidecar(k.scripts.sha, r.result, r.jsonName) {
      return Invalid(SidecarInvalid);
    }
    var result := ReadResult(k.scripts, r.result);
    if result.None? {
      return Invalid(ContractInvalid);
    }
    v := CheckBase(k, result.value, r);
  }

  lemma GenuineNameIsPlain(k: Kit, r: Returned)
    requires k.scripts.Valid()
    ensures Genuine(k, r) ==> IsPlainName(r.jsonName)
  {
    forall base | IsWritten(k, base, r)
      ensures IsPlainName(r.jsonName)
    {
      FilenameIsPlain(k.scripts, base, r.result);
    }
  }

  /** The tests on an accepted result. */
  method CheckBase(k: Kit, base: Json, r: Returned) returns (v: ReturnedRun)
    requires k.scripts.Valid() && IsText(k.scripts, base, r.result)
    requires r.sidecar == Sidecar(k.scripts.sha, r.result, r.jsonName)
    ensures v.Invalid? <==> !Genuine(k, r)
    ensures !v.Invalid? ==> IsWritten(k, base, r) && StatusOf(k, base, v)
    ensures v.Invalid? ==> WrongFor(k, base, r, v.reason)
  {
    TextEvaluates(k.scripts, base, r.result);
    GenuineIsOne(k, base, r);
    if ResultFilename(base) != r.jsonName {
      return Invalid(FileSetInvalid);
    }
    if !BoundTo(k.identity, base) {
      return Invalid(KitBindingInvalid);
    }
    if !ExecutionIsValid(k.scripts, base) {
      return Invalid(ExecutionInvalid);
    }
    var e := EvaluateBase(k.scripts, base).value;
    if r.summary != SummaryBytes(k, base, e) {
      return Invalid(SummaryInvalid);
    }
    return if e.disposition == Pass then ValidPass(e) else ValidStop(e);
  }

  // ---------- What verification is worth ----------

  lemma AppendedPlain(a: string, b: string)
    requires IsPlainName(a) && IsPlainName(b)
    ensures IsPlainName(a + b)
  {
  }

  lemma AffixesArePlain(front: string, end: string)
    requires front == NAME_FRONT && end == NAME_END
    ensures IsPlainName(front) && IsPlainName(end)
  {
  }

  lemma RunIdIsPlain(id: string)
    requires IsRunId(id)
    ensures IsPlainName(id)
  {
  }

  lemma RunIdPlace(names: seq<string>)
    requires names == BASE_FIELDS
    ensures |names| == 14 && names[9] == RUN_ID
  {
  }

  lemma RunIdAt(names: seq<string>, key: string, base: Json, vs: seq<Json>)
    requires |names| == 14 && names[9] == key && ReadRecord(names, base) == Some(vs)
    ensures |vs| == 14 && Field(base, key) == vs[9]
  {
  }

  lemma RunIdOf(s: Scripts, base: Json)
    requires EvaluateBase(s, base).Ok?
    ensures IsRunId(TextField(base, RUN_ID))
  {
    RunIdPlace(BASE_FIELDS);
    RunIdAt(BASE_FIELDS, RUN_ID, base, ReadRecord(BASE_FIELDS, base).value);
    RunIdRead(s.tests, base, ReadRecord(BASE_FIELDS, base).value);
  }

  lemma RunIdRead(tests: Json -> bool, v: Json, vs: seq<Json>)
    requires |vs| == 14 && BaseOf(tests, v, vs).Some? && BaseOf(tests, v, vs).value.restOk
    ensures vs[9].Str? && IsRunId(vs[9].s)
  {
  }

  lemma FilenameIsPlain(s: Scripts, base: Json, raw: seq<Byte>)
    requires IsText(s, base, raw)
    ensures IsPlainName(ResultFilename(base))
  {
    TextEvaluates(s, base, raw);
    RunIdOf(s, base);
    RunIdIsPlain(TextField(base, RUN_ID));
    AffixesArePlain(NAME_FRONT, NAME_END);
    AppendedPlain(NAME_FRONT, TextField(base, RUN_ID));
    AppendedPlain(NAME_FRONT + TextField(base, RUN_ID), NAME_END);
  }

  /** Nothing in the files can be altered: two genuine sets are the same exactly when their bases are, up to key
      order. */
  lemma GenuineIsDetermined(k: Kit, a: Json, b: Json, q: Returned, r: Returned)
    requires k.scripts.Valid() && IsWritten(k, a, q) && IsWritten(k, b, r)
    ensures q == r <==> Same(a, b)
  {
    if q == r {
      TextDeterminesBase(k.scripts, a, b, r.result);
    }
    if Same(a, b) {
      SameBaseSameText(k.scripts, a, b, q.result, r.result);
      SameBaseSameFiles(k, a, b, q, r);
    }
  }

  lemma SameBaseSameText(s: Scripts, a: Json, b: Json, x: seq<Byte>, y: seq<Byte>)
    requires s.Valid() && IsText(s, a, x) && IsText(s, b, y) && Same(a, b)
    ensures x == y
  {
    SealedSame(s, a, b);
    SameBytes(SealResult(s, a).value, SealResult(s, b).value, TextOf(s.nfc));
  }

  lemma SameBaseSameFiles(k: Kit, a: Json, b: Json, q: Returned, r: Returned)
    requires k.scripts.Valid() && IsWritten(k, a, q) && IsWritten(k, b, r) && Same(a, b) && q.result == r.result
    ensures q == r
  {
    WrittenSame(k, a, b);
  }

  /** Bases that differ in the order of keys are sealed with the same text. */
  lemma SealedSame(s: Scripts, a: Json, b: Json)
    requires s.Valid() && UniqueKeys(a) && UniqueKeys(b) && Same(a, b)
    requires SealResult(s, a).Ok?
    ensures SealResult(s, b).Ok? && Same(SealResult(s, a).value, SealResult(s, b).value)
  {
    SealerIsValid(s);
    SealSame(SealerOf(s), a, b);
  }

  // ---------- Writing and verifying ----------

  /** The three payloads `write_benchmark_outputs` derives from a sealed result. */
  function OutputFiles(k: Kit, d: Json): Result<Returned> {
    match CanonicalResultBytes(k.scripts, d)
    case Fail => Fail
    case Ok(raw) =>
      if !d.Obj? || HASH !in KeySet(d.members) then Fail
      else
        match ReadEvaluation(Field(d, EVALUATION))
        case None => Fail
        case Some(e) =>
          var name := ResultFilename(d);
          Ok(Returned(name, raw, Sidecar(k.scripts.sha, raw, name), SummaryBytes(k, d, e)))
  }

  /** Sealing keeps the fields of the base. */
  lemma SealedKeeps(s: Scripts, base: Json, key: string)
    requires SealResult(s, base).Ok? && key != EVALUATION && key != HASH
    ensures Field(SealResult(s, base).value, key) == Field(base, key)
  {
    var e := EvaluationJson(EvaluateBase(s, base).value);
    LookupAppended(base.members, Member(EVALUATION, e), key);
    var hashed := With(base, EVALUATION, e);
    var hash := Str(s.sha(CanonicalBytes(hashed, TextOf(s.nfc)).value));
    LookupAppended(hashed.members, Member(HASH, hash), key);
  }

  lemma OtherKeys(id: string, commit: string, digest: string)
    requires id == RUN_ID && commit == SOURCE_COMMIT && digest == PROTOCOL_DIGEST
    ensures id != EVALUATION && id != HASH && commit != EVALUATION && commit != HASH
    ensures digest != EVALUATION && digest != HASH
  {
    assert |id| == 6 && |commit| == 13 && |digest| == 15 && |EVALUATION| == 10 && |HASH| == 11;
  }

  lemma SealedTexts(k: Kit, base: Json, e: Evaluation)
    requires SealResult(k.scripts, base).Ok?
    ensures var d := SealResult(k.scripts, base).value;
            ResultFilename(d) == ResultFilename(base) && SummaryBytes(k, d, e) == SummaryBytes(k, base, e)
  {
    SealedKeepsTexts(k.scripts, base, RUN_ID, SOURCE_COMMIT, PROTOCOL_DIGEST);
    SameTexts(k, SealResult(k.scripts, base).value, base, e);
  }

  lemma SealedKeepsTexts(s: Scripts, base: Json, id: string, commit: string, digest: string)
    requires SealResult(s, base).Ok? && id == RUN_ID && commit == SOURCE_COMMIT && digest == PROTOCOL_DIGEST
    ensures var d := SealResult(s, base).value;
            && Field(d, id) == Field(base, id) && Field(d, commit) == Field(base, commit)
            && Field(d, digest) == Field(base, digest)
  {
    OtherKeys(id, commit, digest);
    SealedKeeps(s, base, id);
    SealedKeeps(s, base, commit);
    SealedKeeps(s, base, digest);
  }

  lemma SameTexts(k: Kit, v: Json, w: Json, e: Evaluation)
    requires Field(v, RUN_ID) == Field(w, RUN_ID) && Field(v, SOURCE_COMMIT) == Field(w, SOURCE_COMMIT)
    requires Field(v, PROTOCOL_DIGEST) == Field(w, PROTOCOL_DIGEST)
    ensures ResultFilename(v) == ResultFilename(w) && SummaryBytes(k, v, e) == SummaryBytes(k, w, e)
  {
  }

  /** The evaluation in a sealed result is that of its base. */
  lemma SealedEvaluation(s: Scripts, base: Json)
    requires s.Valid() && UniqueKeys(base) && SealResult(s, base).Ok?
    ensures var d := SealResult(s, base).value;
            && d.Obj? && HASH in KeySet(d.members) && EvaluateBase(s, base).Ok?
            && ReadEvaluation(Field(d, EVALUATION)) == Some(EvaluateBase(s, base).value)
  {
    var d := SealResult(s, base).value;
    SealedResultIsAccepted(s, base);
    EvaluationIsKey(d);
    AcceptedStored(s, d);
    EvaluateSame(s, base, Restricted(d, BASE_FIELDS));
    LastFieldIsHash(BASE_FIELDS, d);
  }

  lemma SealedBytes(s: Scripts, base: Json)
    requires s.Valid() && UniqueKeys(base) && SealResult(s, base).Ok?
    ensures var d := SealResult(s, base).value;
            && CanonicalResultBytes(s, d).Ok? && CanonicalResultBytes(s, d) == CanonicalBytes(d, TextOf(s.nfc))
  {
    SealedResultIsAccepted(s, base);
    SealerIsValid(s);
    AcceptedExactlyWhenSealed(SealerOf(s), SealResult(s, base).value);
  }

  lemma FilesOfSealed(k: Kit, base: Json)
    requires k.scripts.Valid() && UniqueKeys(base) && SealResult(k.scripts, base).Ok?
    ensures var d, e := SealResult(k.scripts, base).value, EvaluateBase(k.scripts, base);
            && e.Ok? && OutputFiles(k, d).Ok? && AreFilesOf(k, base, OutputFiles(k, d).value)
  {
    SealedEvaluation(k.scripts, base);
    SealedBytes(k.scripts, base);
    var d, e := SealResult(k.scripts, base).value, EvaluateBase(k.scripts, base).value;
    SealedTexts(k, base, e);
    FilesGiven(k, d, CanonicalResultBytes(k.scripts, d).value, e);
  }

  lemma FilesGiven(k: Kit, d: Json, raw: seq<Byte>, e: Evaluation)
    requires CanonicalResultBytes(k.scripts, d) == Ok(raw) && d.Obj? && HASH in KeySet(d.members)
    requires ReadEvaluation(Field(d, EVALUATION)) == Some(e)
    ensures OutputFiles(k, d) ==
            Ok(Returned(ResultFilename(d), raw, Sidecar(k.scripts.sha, raw, ResultFilename(d)), SummaryBytes(k, d, e)))
  {
  }

  /** Every sealed result can be written, and verification accepts what is written exactly when the result names this
      kit, its machine was valid, and its text is at most 16 MiB long. */
  lemma WrittenIsGenuine(k: Kit, base: Json)
    requires k.scripts.Valid() && UniqueKeys(base) && SealResult(k.scripts, base).Ok?
    ensures var files := OutputFiles(k, SealResult(k.scripts, base).value);
            && files.Ok?
            && (Genuine(k, files.value) <==>
                && BoundTo(k.identity, base) && ExecutionIsValid(k.scripts, base)
                && |files.value.result| <= MAX_JSON_BYTES)
            && (Genuine(k, files.value) ==> IsWritten(k, base, files.value))
  {
    FilesOfSealed(k, base);
    FilesAreGenuine(k, base, OutputFiles(k, SealResult(k.scripts, base).value).value);
  }

  /** The files have the contents that a run gives them. */
  ghost predicate AreFilesOf(k: Kit, base: Json, r: Returned) {
    && UniqueKeys(base) && SealResult(k.scripts, base).Ok?
    && CanonicalBytes(SealResult(k.scripts, base).value, TextOf(k.scripts.nfc)) == Ok(r.result)
    && r.jsonName == ResultFilename(base) && r.sidecar == Sidecar(k.scripts.sha, r.result, r.jsonName)
    && EvaluateBase(k.scripts, base).Ok? && r.summary == SummaryBytes(k, base, EvaluateBase(k.scripts, base).value)
  }

  lemma FilesAreGenuine(k: Kit, base: Json, r: Returned)
    requires k.scripts.Valid() && AreFilesOf(k, base, r)
    ensures Genuine(k, r) <==>
            && BoundTo(k.identity, base) && ExecutionIsValid(k.scripts, base) && |r.result| <= MAX_JSON_BYTES
    ensures Genuine(k, r) ==> IsWritten(k, base, r)
  {
    GenuineIsSmall(k, r);
    if |r.result| <= MAX_JSON_BYTES {
      GenuineIsOne(k, base, r);
    }
  }

  lemma GenuineIsSmall(k: Kit, r: Returned)
    ensures Genuine(k, r) ==> |r.result| <= MAX_JSON_BYTES
  {
  }
}
