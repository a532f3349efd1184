/** What the rows of an evaluation mean, how aggregates relate to their strata, and when a run passes. */
module EvaluationTheorems {
  import opened Wrappers
  import opened Sorting
  import opened Sequences
  import opened BenchmarkContract
  import opened Observations
  import opened ObservationValidators
  import opened Percentiles
  import opened Evaluations

  // ---------- One row ----------

  /** A row answers its question: the percentile, the maximum, the count, and whether the limit was met. */
  ghost predicate Answers(row: Row, q: Question) {
    && row.stage == q.stage && row.cacheState == q.cacheState && row.profile == q.profile && row.round == q.round
    && row.limit == q.limit && row.sampleCount == |q.samples|
    && IsP95(q.samples, row.p95)
    && row.maximum in q.samples && (forall x | x in q.samples :: x <= row.maximum)
    && (row.passed <==> row.p95 <= q.limit)
  }

  lemma RowAnswers(c: Contract, q: Question)
    requires EvaluationRow(c, q).Ok?
    ensures Answers(EvaluationRow(c, q).value, q)
  {
    var s := Sort(q.samples, IntLe);
    SortedInts(q.samples);
    assert s != [];
    assert q.samples != [];
    NearestRankIsP95(q.samples);
    LastIsLargest(q.samples);
  }

  lemma LastIsLargest(samples: seq<int>)
    requires samples != []
    ensures var s := Sort(samples, IntLe);
            s != [] && s[|s| - 1] in samples && forall x | x in samples :: x <= s[|s| - 1]
  {
    var s := Sort(samples, IntLe);
    SortedInts(samples);
    var last := s[|s| - 1];
    SameMembers(s, samples, last);
    forall x | x in samples
      ensures x <= last
    {
      SameMembers(s, samples, x);
      var i :| 0 <= i < |s| && s[i] == x;
      if i < |s| - 1 {
        assert IntLe(s[i], s[|s| - 1]);
      }
    }
  }

  predicate SamplesInRange(samples: seq<int>) {
    forall i | 0 <= i < |samples| :: IsDuration(samples[i])
  }

  predicate TagsOk(c: Contract, q: Question) {
    && IsClosedId(q.stage) && q.cacheState in CACHES && (q.profile.Some? ==> q.profile.value in c.profiles)
    && (q.round.Some? ==> 1 <= q.round.value <= MAX_SAFE_INTEGER)
  }

  /** There is something to rank, and the numbers fit into the result format. */
  predicate Answerable(q: Question) {
    1 <= |q.samples| <= MAX_SAFE_INTEGER && 1 <= q.limit <= MAX_SAFE_INTEGER
  }

  lemma SortedInRange(samples: seq<int>)
    requires SamplesInRange(samples)
    ensures var s := Sort(samples, IntLe); |s| == |samples| && (samples != [] ==> SamplesOk(s))
  {
    var s := Sort(samples, IntLe);
    SortedInts(samples);
    forall i | 0 <= i < |s|
      ensures 1 <= s[i] <= MAX_SAFE_INTEGER
    {
      SameMembers(s, samples, s[i]);
      var j :| 0 <= j < |samples| && samples[j] == s[i];
      assert IsDuration(samples[j]);
    }
    SortOfSorted(s, IntLe);
  }

  /** A question over validated samples has a row exactly when it is answerable. */
  lemma RowExists(c: Contract, q: Question)
    requires TagsOk(c, q) && SamplesInRange(q.samples)
    ensures EvaluationRow(c, q).Ok? <==> Answerable(q)
  {
    var s := Sort(q.samples, IntLe);
    SortedInRange(q.samples);
    if s != [] {
      RankedBelowLast(q.samples);
    }
  }

  lemma RankedBelowLast(samples: seq<int>)
    requires samples != []
    ensures var s := Sort(samples, IntLe); 1 <= Rank(|s|) <= |s| && s[Rank(|s|) - 1] <= s[|s| - 1]
  {
    var s := Sort(samples, IntLe);
    SortedInts(samples);
    RankBounds(|s|);
    if Rank(|s|) < |s| {
      assert IntLe(s[Rank(|s|) - 1], s[|s| - 1]);
    }
  }

  // ---------- All rows ----------

  lemma {:induction false} RowsInOrder(questions: seq<Question>, row: Question -> Result<Row>)
    ensures AllRows(questions, row).Ok? <==> forall i | 0 <= i < |questions| :: row(questions[i]).Ok?
    ensures AllRows(questions, row).Ok? ==>
              && |AllRows(questions, row).value| == |questions|
              && forall i | 0 <= i < |questions| :: row(questions[i]) == Ok(AllRows(questions, row).value[i])
  {
    if questions != [] {
      var n := |questions| - 1;
      RowsInOrder(questions[..n], row);
      assert forall i | 0 <= i < n :: questions[..n][i] == questions[i];
    }
  }

  /** Among the rows is the one that answers `q`. */
  ghost predicate Answered(rows: seq<Row>, q: Question) {
    exists row :: row in rows && Answers(row, q)
  }

  ghost function TheRow(rows: seq<Row>, q: Question): (row: Row)
    requires Answered(rows, q)
    ensures row in rows && Answers(row, q)
  {
    var row :| row in rows && Answers(row, q);
    row
  }

  ghost predicate AllAnswered(rows: seq<Row>, questions: seq<Question>) {
    forall q | q in questions :: Answered(rows, q)
  }

  lemma RowsAnswer(c: Contract, questions: seq<Question>)
    requires AllRows(questions, RowOf(c)).Ok?
    ensures AllAnswered(AllRows(questions, RowOf(c)).value, questions)
    ensures |AllRows(questions, RowOf(c)).value| == |questions|
    ensures forall i | 0 <= i < |questions| :: Answers(AllRows(questions, RowOf(c)).value[i], questions[i])
  {
    RowsInOrder(questions, RowOf(c));
    var rows := AllRows(questions, RowOf(c)).value;
    forall i | 0 <= i < |questions|
      ensures rows[i] in rows && Answers(rows[i], questions[i])
    {
      RowAnswers(c, questions[i]);
    }
    forall q | q in questions
      ensures Answered(rows, q)
    {
      var i :| 0 <= i < |questions| && questions[i] == q;
      assert rows[i] in rows && Answers(rows[i], q);
    }
  }

  /** The rows of an evaluation answer the questions, one by one. */
  lemma EvaluationAnswers(c: Contract, r: RawResult)
    requires EvaluateResult(c, r).Ok?
    ensures BaseOk(c, r)
    ensures AllRows(Questions(c, r, CACHES), RowOf(c)) == Ok(EvaluateResult(c, r).value.rows)
    ensures AllAnswered(EvaluateResult(c, r).value.rows, Questions(c, r, CACHES))
  {
    RowsAnswer(c, Questions(c, r, CACHES));
  }

  // ---------- Which questions are asked ----------

  lemma FlatAt<U>(f: string -> seq<U>, s: seq<string>, x: string, u: U)
    requires x in s && u in f(x)
    ensures u in Flat(f, s)
  {
    var i :| 0 <= i < |s| && s[i] == x;
    FlatHas(f, s, i, u);
  }

  lemma AllAsked(c: Contract, r: RawResult, cache: string, stage: Stage, caches: seq<string>)
    requires cache in caches
    ensures AllQuestion(r, cache, stage) in Questions(c, r, caches)
  {
    var q := AllQuestion(r, cache, stage);
    if stage == InitialDecision {
      assert InitialQuestions(c, r)(cache)[0] == q;
      FlatAt(InitialQuestions(c, r), caches, cache, q);
    } else {
      assert LaterQuestions(c, r)(cache)[0] == q;
      FlatAt(LaterQuestions(c, r), caches, cache, q);
    }
  }

  lemma ProfileAsked(c: Contract, r: RawResult, cache: string, stage: Stage, profile: string, caches: seq<string>)
    requires cache in caches && profile in c.profiles
    ensures ProfileQuestion(r, cache, stage)(profile) in Questions(c, r, caches)
  {
    var q := ProfileQuestion(r, cache, stage)(profile);
    if stage == InitialDecision {
      MapHas(ProfileQuestion(r, cache, stage), c.profiles, q);
      FlatAt(InitialQuestions(c, r), caches, cache, q);
    } else {
      assert ProfileLaterQuestions(c, r, cache)(profile)[0] == q;
      FlatAt(ProfileLaterQuestions(c, r, cache), c.profiles, profile, q);
      FlatAt(LaterQuestions(c, r), caches, cache, q);
    }
  }

  lemma RoundAsked(c: Contract, r: RawResult, cache: string, profile: string, round: Option<int>, caches: seq<string>)
    requires cache in caches && profile in c.profiles && round in Rounds(c, profile)
    ensures RoundQuestion(r, cache, profile)(round) in Questions(c, r, caches)
  {
    var q := RoundQuestion(r, cache, profile)(round);
    MapHas(RoundQuestion(r, cache, profile), Rounds(c, profile), q);
    FlatAt(ProfileLaterQuestions(c, r, cache), c.profiles, profile, q);
    FlatAt(LaterQuestions(c, r), caches, cache, q);
  }

  // ---------- Aggregates and their strata ----------

  lemma FilteredPass<T>(test: T -> bool, s: seq<T>, i: nat)
    requires i < |Filter(test, s)|
    ensures test(Filter(test, s)[i]) && Filter(test, s)[i] in s
  {
    FilterMembers(test, s);
    assert Filter(test, s)[i] in Filter(test, s);
  }

  /** Every decision wait has one of the contract's profiles, and a later one has one of its rounds. */
  ghost predicate Tagged(c: Contract, waits: seq<DecisionWait>) {
    forall w | w in waits :: w.profile in c.profiles && RoundOk(c, w)
  }

  lemma TestedAreTagged(c: Contract, waits: seq<DecisionWait>)
    requires AllPass(waits, DecisionWaitTest(c))
    ensures Tagged(c, waits)
  {
    forall w | w in waits
      ensures w.profile in c.profiles && RoundOk(c, w)
    {
      AllPassMeans(waits, DecisionWaitTest(c), w);
    }
  }

  lemma ValidatedAreTagged(c: Contract, r: RawResult)
    requires BaseOk(c, r)
    ensures Tagged(c, r.observations.decisionWaits)
  {
    assert AllPass(r.observations.decisionWaits, DecisionWaitTest(c));
    TestedAreTagged(c, r.observations.decisionWaits);
  }

  /** The question about all items, and one question for each stratum, under one limit. */
  ghost predicate Divides<K(!new)>(items: seq<DecisionWait>, key: DecisionWait -> K, keys: seq<K>,
                                   whole: Question, part: K -> Question)
  {
    && Distinct(keys) && (forall n | 0 <= n < |items| :: key(items[n]) in keys)
    && whole.samples == Map(DecisionDuration, items)
    && (forall k | k in keys :: part(k).samples == Map(DecisionDuration, Stratum(items, key, k)))
    && (forall k | k in keys :: part(k).limit == whole.limit)
  }

  /** The row answers the question about one of the parts. */
  ghost predicate AnswersPart<K(!new)>(row: Row, keys: seq<K>, part: K -> Question) {
    exists k | k in keys :: Answers(row, part(k))
  }

  ghost predicate PartsAnswered<K(!new)>(rows: seq<Row>, keys: seq<K>, part: K -> Question) {
    forall k | k in keys :: Answered(rows, part(k))
  }

  /** The row of the whole lies between two rows of parts, and fails only if one of the parts fails. */
  lemma RowBetween<K(!new)>(rows: seq<Row>, items: seq<DecisionWait>, key: DecisionWait -> K, keys: seq<K>,
                            whole: Question, part: K -> Question)
    returns (all: Row, lo: Row, hi: Row)
    requires Divides(items, key, keys, whole, part) && Answered(rows, whole)
    requires PartsAnswered(rows, keys, part)
    ensures all in rows && lo in rows && hi in rows && Answers(all, whole)
    ensures AnswersPart(lo, keys, part) && AnswersPart(hi, keys, part)
    ensures lo.p95 <= all.p95 <= hi.p95
    ensures !all.passed ==> !hi.passed
  {
    all := TheRow(rows, whole);
    var ps := seq(|keys|, n requires 0 <= n < |keys| => PartP95(rows, part(keys[n])));
    forall n | 0 <= n < |keys|
      ensures IsP95(Map(DecisionDuration, Stratum(items, key, keys[n])), ps[n])
    {
      assert keys[n] in keys;
      PartIsP95(rows, part(keys[n]));
    }
    assert items != [] && key(items[0]) in keys;
    MergeLaw(items, DecisionDuration, key, keys, ps, all.p95);
    var i, j :| 0 <= i < |ps| && 0 <= j < |ps| && ps[i] <= all.p95 <= ps[j];
    assert keys[i] in keys && keys[j] in keys;
    lo, hi := TheRow(rows, part(keys[i])), TheRow(rows, part(keys[j]));
  }

  ghost function PartP95(rows: seq<Row>, q: Question): int {
    if Answered(rows, q) then TheRow(rows, q).p95 else 0
  }

  lemma PartIsP95(rows: seq<Row>, q: Question)
    requires Answered(rows, q)
    ensures IsP95(q.samples, PartP95(rows, q))
  {
  }

  lemma ProfilesDivide(c: Contract, r: RawResult, cache: string, stage: Stage)
    requires c.Valid() && Tagged(c, r.observations.decisionWaits)
    ensures Divides(DecisionsOf(r, cache, stage), ProfileKey, c.profiles,
                    AllQuestion(r, cache, stage), ProfileQuestion(r, cache, stage))
  {
    var items := DecisionsOf(r, cache, stage);
    forall i | 0 <= i < |items|
      ensures ProfileKey(items[i]) in c.profiles
    {
      FilteredPass(DecisionIn(cache, stage), r.observations.decisionWaits, i);
    }
  }

  lemma ProfilesAnswered(c: Contract, r: RawResult, rows: seq<Row>, caches: seq<string>, cache: string, stage: Stage)
    requires AllAnswered(rows, Questions(c, r, caches)) && cache in caches
    ensures PartsAnswered(rows, c.profiles, ProfileQuestion(r, cache, stage))
  {
    forall p | p in c.profiles
      ensures Answered(rows, ProfileQuestion(r, cache, stage)(p))
    {
      ProfileAsked(c, r, cache, stage, p, caches);
    }
  }

  lemma RoundsAnswered(c: Contract, r: RawResult, rows: seq<Row>, caches: seq<string>, cache: string, profile: string)
    requires AllAnswered(rows, Questions(c, r, caches)) && cache in caches && profile in c.profiles
    ensures PartsAnswered(rows, Rounds(c, profile), RoundQuestion(r, cache, profile))
  {
    forall k | k in Rounds(c, profile)
      ensures Answered(rows, RoundQuestion(r, cache, profile)(k))
    {
      RoundAsked(c, r, cache, profile, k, caches);
    }
  }

  /** The row over all profiles lies between two profile rows, and fails only if a profile row fails. */
  lemma AggregateBetweenProfiles(c: Contract, r: RawResult, rows: seq<Row>, caches: seq<string>, cache: string,
                                 stage: Stage)
    returns (all: Row, lo: Row, hi: Row)
    requires c.Valid() && AllAnswered(rows, Questions(c, r, caches)) && Tagged(c, r.observations.decisionWaits)
    requires cache in caches
    ensures all in rows && lo in rows && hi in rows && Answers(all, AllQuestion(r, cache, stage))
    ensures AnswersPart(lo, c.profiles, ProfileQuestion(r, cache, stage))
    ensures AnswersPart(hi, c.profiles, ProfileQuestion(r, cache, stage))
    ensures lo.p95 <= all.p95 <= hi.p95
    ensures !all.passed ==> !hi.passed
  {
    AllAsked(c, r, cache, stage, caches);
    ProfilesAnswered(c, r, rows, caches, cache, stage);
    ProfilesDivide(c, r, cache, stage);
    all, lo, hi := RowBetween(rows, DecisionsOf(r, cache, stage), ProfileKey, c.profiles,
                              AllQuestion(r, cache, stage), ProfileQuestion(r, cache, stage));
  }

  lemma RoundsDivide(c: Contract, r: RawResult, cache: string, profile: string)
    requires Tagged(c, r.observations.decisionWaits)
    ensures Divides(ProfileDecisions(r, cache, LaterDecision, profile), RoundKey, Rounds(c, profile),
                    ProfileQuestion(r, cache, LaterDecision)(profile), RoundQuestion(r, cache, profile))
  {
    var items := ProfileDecisions(r, cache, LaterDecision, profile);
    forall i | 0 <= i < |items|
      ensures RoundKey(items[i]) in Rounds(c, profile)
    {
      RoundTags(c, r, cache, profile, i);
    }
  }

  lemma RoundTags(c: Contract, r: RawResult, cache: string, profile: string, i: nat)
    requires Tagged(c, r.observations.decisionWaits)
    requires i < |ProfileDecisions(r, cache, LaterDecision, profile)|
    ensures RoundKey(ProfileDecisions(r, cache, LaterDecision, profile)[i]) in Rounds(c, profile)
  {
    var items := ProfileDecisions(r, cache, LaterDecision, profile);
    var later := DecisionsOf(r, cache, LaterDecision);
    FilteredPass(IsKey(ProfileKey, profile), later, i);
    var j :| 0 <= j < |later| && later[j] == items[i];
    FilteredPass(DecisionIn(cache, LaterDecision), r.observations.decisionWaits, j);
    MapIn(RoundAt, Range(c.rounds(profile)), items[i].round.value - 1);
  }

  /** The row of a profile's later decisions lies between two of its round rows, and fails only if one of them fails. */
  lemma ProfileBetweenRounds(c: Contract, r: RawResult, rows: seq<Row>, caches: seq<string>, cache: string,
                             profile: string)
    returns (all: Row, lo: Row, hi: Row)
    requires c.Valid() && AllAnswered(rows, Questions(c, r, caches)) && Tagged(c, r.observations.decisionWaits)
    requires cache in caches && profile in c.profiles
    ensures all in rows && lo in rows && hi in rows && Answers(all, ProfileQuestion(r, cache, LaterDecision)(profile))
    ensures AnswersPart(lo, Rounds(c, profile), RoundQuestion(r, cache, profile))
    ensures AnswersPart(hi, Rounds(c, profile), RoundQuestion(r, cache, profile))
    ensures lo.p95 <= all.p95 <= hi.p95
    ensures !all.passed ==> !hi.passed
  {
    ProfileAsked(c, r, cache, LaterDecision, profile, caches);
    RoundsAnswered(c, r, rows, caches, cache, profile);
    RoundsDivide(c, r, cache, profile);
    all, lo, hi := RowBetween(rows, ProfileDecisions(r, cache, LaterDecision, profile), RoundKey, Rounds(c, profile),
                              ProfileQuestion(r, cache, LaterDecision)(profile), RoundQuestion(r, cache, profile));
  }

  /** Whenever a result is evaluated, its rows answer all questions and its waits are tagged, so that the two
      results above apply to it. */
  lemma EvaluatedResult(c: Contract, r: RawResult, caches: seq<string>)
    requires EvaluateResult(c, r).Ok? && caches == CACHES
    ensures Tagged(c, r.observations.decisionWaits)
            && AllAnswered(EvaluateResult(c, r).value.rows, Questions(c, r, caches))
  {
    EvaluationAnswers(c, r);
    ValidatedAreTagged(c, r);
  }
}
