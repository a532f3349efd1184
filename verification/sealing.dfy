/** Sealing a benchmark result with its evaluation and hash, and verifying a sealed one, down to the bytes. */
module Sealing {
  import opened Wrappers
  import opened Sorting
  import opened Utf8
  import opened Json
  import opened JsonTheorems
  import opened Records
  import opened ResultJson
  import opened SealedRecords
  import BenchmarkContract
  import opened Evaluations
  import opened EvaluationTheorems
  import opened Verdicts

  type Contract = BenchmarkContract.Contract

  /** What the scripts take as given: the contract, normalisation form C, SHA-256, and the tests on the values of a
      result that the evaluation does not use. */
  datatype Scripts = Scripts(c: Contract, nfc: string -> bool, sha: seq<Byte> -> string, tests: Json -> bool)
  {
    ghost predicate Valid() {
      c.Valid() && AsciiIsNormal(nfc) && OrderFree(tests) && forall raw :: IsHexDigest(sha(raw))
    }
  }

  /** The texts of benchmark JSON are never empty. */
  function TextOf(nfc: string -> bool): string -> bool {
    (s: string) => s != [] && nfc(s)
  }

  // ---------- The evaluation of a result ----------

  /** `evaluate_result` of a base. */
  function EvaluateBase(s: Scripts, base: Json): Result<Evaluation> {
    match ReadBase(s.tests, base)
    case None => Fail
    case Some(r) => EvaluateResult(s.c, r)
  }

  function Evaluating(s: Scripts): Json -> Result<Evaluation> {
    base => EvaluateBase(s, base)
  }

  /** `_evaluation_from_mapping`: the typed reading, and then the tests of the two constructors. */
  function StoredEvaluation(c: Contract, v: Json): Result<Evaluation> {
    match ReadEvaluation(v)
    case None => Fail
    case Some(e) => if (forall i | 0 <= i < |e.rows| :: RowOk(c, e.rows[i])) && EvaluationOk(e) then Ok(e) else Fail
  }

  function Storing(c: Contract): Json -> Result<Evaluation> {
    v => StoredEvaluation(c, v)
  }

  function SealerOf(s: Scripts): Sealer<Evaluation> {
    Sealer(BASE_FIELDS, TextOf(s.nfc), s.sha, Evaluating(s), EvaluationJson, Storing(s.c))
  }

  /** `seal_result`. */
  function SealResult(s: Scripts, base: Json): Result<Json> {
    Seal(SealerOf(s), base)
  }

  /** `canonical_result_bytes`. */
  function CanonicalResultBytes(s: Scripts, v: Json): Result<seq<Byte>> {
    AcceptedBytes(SealerOf(s), v)
  }

  function SealedFields(): seq<string> { BASE_FIELDS + [EVALUATION] + [HASH] }

  // ---------- Stored evaluations ----------

  lemma RowsAreOk(c: Contract, questions: seq<Question>)
    requires AllRows(questions, RowOf(c)).Ok?
    ensures var rows := AllRows(questions, RowOf(c)).value; forall i | 0 <= i < |rows| :: RowOk(c, rows[i])
  {
    RowsInOrder(questions, RowOf(c));
    var rows := AllRows(questions, RowOf(c)).value;
    forall i | 0 <= i < |rows|
      ensures RowOk(c, rows[i])
    {
      assert RowOf(c)(questions[i]) == Ok(rows[i]);
    }
  }

  lemma EvaluatedIsOk(c: Contract, r: RawResult, e: Evaluation)
    requires EvaluateResult(c, r) == Ok(e)
    ensures EvaluationOk(e)
  {
  }

  lemma EvaluatedRowsAreOk(c: Contract, r: RawResult, e: Evaluation)
    requires EvaluateResult(c, r) == Ok(e)
    ensures forall i | 0 <= i < |e.rows| :: RowOk(c, e.rows[i])
  {
    EvaluationAnswers(c, r);
    RowsAreOk(c, Questions(c, r, BenchmarkContract.CACHES));
  }

  /** What is stored reads as the recomputed evaluation exactly when it is its writing, up to key order. */
  lemma StoredExactlyWhenWritten(c: Contract, r: RawResult, e: Evaluation, v: Json)
    requires EvaluateResult(c, r) == Ok(e) && UniqueKeys(v)
    ensures StoredEvaluation(c, v) == Ok(e) <==> Same(v, EvaluationJson(e))
  {
    EvaluatedIsOk(c, r, e);
    EvaluatedRowsAreOk(c, r, e);
    StoredIsWriting(c, e, v);
  }

  lemma StoredIsWriting(c: Contract, e: Evaluation, v: Json)
    requires UniqueKeys(v) && EvaluationOk(e) && forall i | 0 <= i < |e.rows| :: RowOk(c, e.rows[i])
    ensures StoredEvaluation(c, v) == Ok(e) <==> Same(v, EvaluationJson(e))
  {
    ReadExactlyWhenWritten(e, v);
  }

  lemma ReadExactlyWhenWritten(e: Evaluation, v: Json)
    requires UniqueKeys(v)
    ensures ReadEvaluation(v) == Some(e) <==> Same(v, EvaluationJson(e))
  {
    EvaluationFaithful();
    assert ReadsBack(EvaluationJson, ReadEvaluation, e);
    assert FaithfulAt(EvaluationJson, ReadEvaluation, v)
           && FaithfulAt(EvaluationJson, ReadEvaluation, EvaluationJson(e));
  }

  // ---------- The scripts meet what sealing needs ----------

  lemma SealedNames(names: seq<string>)
    requires names == BASE_FIELDS
    ensures Distinct(names + [EVALUATION] + [HASH])
  {
    BaseNames(names);
    assert EVALUATION[0] == 'e' && HASH[0] == 'r';
  }

  lemma HashIsKey(nfc: string -> bool)
    requires AsciiIsNormal(nfc)
    ensures IsClosedKey(HASH) && TextOf(nfc)(HASH)
  {
    assert IsAscii(HASH);
  }

  lemma DigestIsText(nfc: string -> bool, digest: string)
    requires AsciiIsNormal(nfc) && IsHexDigest(digest)
    ensures TextOf(nfc)(digest)
  {
    assert IsAscii(digest);
  }

  lemma EvaluateSame(s: Scripts, v: Json, w: Json)
    requires s.Valid()
    ensures SealerOf(s).EvaluatesSame(v, w)
  {
    if UniqueKeys(v) && UniqueKeys(w) && Same(v, w) {
      BaseSorted(BASE_FIELDS, s.tests, v);
      BaseSorted(BASE_FIELDS, s.tests, w);
    }
  }

  lemma StoreWriting(s: Scripts, base: Json, v: Json)
    requires s.Valid()
    ensures SealerOf(s).StoresWriting(base, v)
  {
    if EvaluateBase(s, base).Ok? {
      var e := EvaluateBase(s, base).value;
      EvaluationFaithful();
      assert ReadsBack(EvaluationJson, ReadEvaluation, e);
      if UniqueKeys(v) {
        StoredExactlyWhenWritten(s.c, ReadBase(s.tests, base).value, e, v);
      }
    }
  }

  lemma SealerIsValid(s: Scripts)
    requires s.Valid()
    ensures SealerOf(s).Valid()
  {
    SealedNames(BASE_FIELDS);
    HashIsKey(s.nfc);
    forall raw
      ensures SealerOf(s).Digests(raw)
    {
      DigestIsText(s.nfc, s.sha(raw));
    }
    forall v, w
      ensures SealerOf(s).EvaluatesSame(v, w)
    {
      EvaluateSame(s, v, w);
    }
    forall base, v
      ensures SealerOf(s).StoresWriting(base, v)
    {
      StoreWriting(s, base, v);
    }
  }

  // ---------- Main results ----------

  /** A result with all fields is accepted exactly when it is, up to key order, what sealing its base gives: nothing
      in its stored evaluation or its hash can be altered. */
  lemma AcceptedIsSealed(s: Scripts, v: Json)
    requires s.Valid() && UniqueKeys(v) && HasKeys(v, SealedFields())
    ensures var sealed := SealResult(s, Restricted(v, BASE_FIELDS));
            CanonicalResultBytes(s, v).Ok? <==> sealed.Ok? && Same(v, sealed.value)
  {
    SealerIsValid(s);
    AcceptedExactlyWhenSealed(SealerOf(s), v);
  }

  /** Every sealed result is accepted. */
  lemma SealedResultIsAccepted(s: Scripts, base: Json)
    requires s.Valid() && UniqueKeys(base) && SealResult(s, base).Ok?
    ensures var d := SealResult(s, base).value;
            UniqueKeys(d) && HasKeys(d, SealedFields()) && CanonicalResultBytes(s, d).Ok?
            && UniqueKeys(Restricted(d, BASE_FIELDS)) && Same(Restricted(d, BASE_FIELDS), base)
  {
    SealerIsValid(s);
    SealedIsAccepted(SealerOf(s), base);
  }

  /** The verdict stored in an accepted result is the recomputed one: pass exactly when every row is within its limit,
      the execution conditions hold, and no error is recorded. */
  lemma AcceptedVerdict(s: Scripts, v: Json)
    requires s.Valid() && UniqueKeys(v) && HasKeys(v, SealedFields()) && CanonicalResultBytes(s, v).Ok?
    ensures var stored := ReadEvaluation(FieldOf(v.members)(EVALUATION));
            var r := ReadBase(s.tests, Restricted(v, BASE_FIELDS));
            && stored.Some? && r.Some? && EvaluateResult(s.c, r.value) == Ok(stored.value)
            && (stored.value.disposition == Pass <==>
                AllPassed(stored.value.rows) && ValidExecution(r.value.execution) && r.value.errors == [])
  {
    EvaluationIsKey(v);
    AcceptedStored(s, v);
    PassMeans(s.c, ReadBase(s.tests, Restricted(v, BASE_FIELDS)).value);
  }

  lemma EvaluationIsKey(v: Json)
    requires HasKeys(v, SealedFields())
    ensures EVALUATION in KeySet(v.members)
  {
    EvaluationIsField(BASE_FIELDS, v);
  }

  lemma EvaluationIsField(names: seq<string>, v: Json)
    requires HasKeys(v, names + [EVALUATION] + [HASH])
    ensures EVALUATION in KeySet(v.members)
  {
    assert (names + [EVALUATION] + [HASH])[|names|] == EVALUATION;
  }

  lemma AcceptedStored(s: Scripts, v: Json)
    requires v.Obj? && EVALUATION in KeySet(v.members) && CanonicalResultBytes(s, v).Ok?
    ensures EvaluateBase(s, Restricted(v, BASE_FIELDS)).Ok?
    ensures StoredEvaluation(s.c, FieldOf(v.members)(EVALUATION)) == EvaluateBase(s, Restricted(v, BASE_FIELDS))
  {
  }
}
