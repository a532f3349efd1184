/** When an evaluation returns, and when it says pass. */
module Verdicts {
  import opened Wrappers
  import opened Text
  import opened Sorting
  import opened Paths
  import opened Sequences
  import opened BenchmarkContract
  import opened ObservationIds
  import opened Observations
  import opened ObservationValidators
  import opened Percentiles
  import opened Evaluations
  import opened EvaluationTheorems

  // ---------- The reasons ----------

  lemma ReasonsAreApart()
    ensures Distinct(REASONS)
  {
  }

  lemma ReasonsAreWords()
    ensures Words(REASONS)
  {
    FirstReasonsAreWords();
    LastReasonsAreWords();
  }

  lemma FirstReasonsAreWords()
    ensures IsWord(REASONS[0]) && IsWord(REASONS[1]) && IsWord(REASONS[2])
  {
  }

  lemma LastReasonsAreWords()
    ensures IsWord(REASONS[3]) && IsWord(REASONS[4]) && IsWord(REASONS[5])
  {
  }

  lemma LastIsNew(names: seq<string>)
    requires Distinct(names) && names != []
    ensures Distinct(names[..|names| - 1]) && names[|names| - 1] !in names[..|names| - 1]
  {
  }

  lemma {:induction false} PickedAre(flags: seq<bool>, names: seq<string>)
    requires |flags| == |names| && Distinct(names)
    ensures Distinct(Picked(flags, names)) && forall x | x in Picked(flags, names) :: x in names
    ensures Picked(flags, names) == [] <==> forall i | 0 <= i < |flags| :: !flags[i]
  {
    if names != [] {
      var n := |names| - 1;
      var picked := Picked(flags[..n], names[..n]);
      LastIsNew(names);
      PickedAre(flags[..n], names[..n]);
      DistinctConcat(picked, If(flags[n], names[n]));
      assert Picked(flags, names) == picked + If(flags[n], names[n]);
      assert names == names[..n] + [names[n]] && flags == flags[..n] + [flags[n]];
    }
  }

  /** The picked names, sorted: without repeats, closed, and none exactly when no flag is set. */
  lemma SortedPicks(flags: seq<bool>, names: seq<string>)
    requires |flags| == |names| && Distinct(names) && Words(names)
    ensures var reasons := Sort(Picked(flags, names), TextLe);
            && Distinct(reasons) && Sort(reasons, TextLe) == reasons
            && (forall i | 0 <= i < |reasons| :: IsClosedId(reasons[i]))
            && (reasons == [] <==> forall i | 0 <= i < |flags| :: !flags[i])
  {
    var raw := Picked(flags, names);
    var reasons := Sort(raw, TextLe);
    PickedAre(flags, names);
    TextLeIsTotalOrder();
    SortSorted(raw, TextLe);
    SortPermutes(raw, TextLe);
    SortOfSorted(reasons, TextLe);
    DistinctPermutation(raw, reasons);
    forall i | 0 <= i < |reasons|
      ensures IsClosedId(reasons[i])
    {
      assert reasons[i] in multiset(reasons);
      assert reasons[i] in raw;
      NamesAreWords(names, reasons[i]);
      WordIsPlain(reasons[i]);
    }
  }

  // ---------- Every row belongs to one of the four stages ----------

  predicate KnownStage(stage: string) {
    stage == IDENTITY_STAGE || stage == INITIAL_STAGE || stage == LATER_STAGE || ACK_STAGE <= stage
  }

  predicate HasKnownStage(q: Question) { KnownStage(q.stage) }

  lemma CacheStagesAreKnown(c: Contract, r: RawResult, cache: string)
    ensures AllPass(IdentityQuestions(r)(cache), HasKnownStage)
    ensures AllPass(InitialQuestions(c, r)(cache), HasKnownStage)
    ensures AllPass(AckQuestions(c, r)(cache), HasKnownStage)
  {
    assert KnownStage(IDENTITY_STAGE) && KnownStage(INITIAL_STAGE);
    assert IdentityQuestions(r)(cache) == [IdentityQuestion(r)(cache)];
    var acks := AckQuestions(c, r)(cache);
    forall i | 0 <= i < |acks|
      ensures KnownStage(acks[i].stage)
    {
      assert acks[i].stage == ACK_STAGE + c.actions[i];
    }
  }

  lemma LaterQuestionsAre(c: Contract, r: RawResult, cache: string, profile: string)
    ensures var qs := ProfileLaterQuestions(c, r, cache)(profile);
            var rounds := Rounds(c, profile);
            && |qs| == 1 + |rounds| && qs[0] == ProfileQuestion(r, cache, LaterDecision)(profile)
            && (forall i | 1 <= i < |qs| :: qs[i] == RoundQuestion(r, cache, profile)(rounds[i - 1]))
  {
    var later := Map(RoundQuestion(r, cache, profile), Rounds(c, profile));
    assert ProfileLaterQuestions(c, r, cache)(profile) == [ProfileQuestion(r, cache, LaterDecision)(profile)] + later;
  }

  lemma LaterStagesKnown(c: Contract, r: RawResult, cache: string, profile: string)
    ensures AllPass(ProfileLaterQuestions(c, r, cache)(profile), HasKnownStage)
  {
    LaterQuestionsAre(c, r, cache, profile);
    assert KnownStage(LATER_STAGE);
  }

  lemma LaterStagesAreKnown(c: Contract, r: RawResult, cache: string)
    ensures AllPass(LaterQuestions(c, r)(cache), HasKnownStage)
  {
    assert KnownStage(LATER_STAGE);
    forall n | 0 <= n < |c.profiles|
      ensures AllPass(ProfileLaterQuestions(c, r, cache)(c.profiles[n]), HasKnownStage)
    {
      LaterStagesKnown(c, r, cache, c.profiles[n]);
    }
    FlatAllPass(ProfileLaterQuestions(c, r, cache), c.profiles, HasKnownStage);
  }

  lemma StagesAreKnown(c: Contract, r: RawResult, caches: seq<string>)
    ensures AllPass(Questions(c, r, caches), HasKnownStage)
  {
    forall n | 0 <= n < |caches|
      ensures AllPass(IdentityQuestions(r)(caches[n]), HasKnownStage)
      ensures AllPass(InitialQuestions(c, r)(caches[n]), HasKnownStage)
      ensures AllPass(LaterQuestions(c, r)(caches[n]), HasKnownStage)
      ensures AllPass(AckQuestions(c, r)(caches[n]), HasKnownStage)
    {
      CacheStagesAreKnown(c, r, caches[n]);
      LaterStagesAreKnown(c, r, caches[n]);
    }
    StagesPass(c, r, caches, HasKnownStage);
  }

  ghost predicate StagesKnown(rows: seq<Row>) {
    forall i | 0 <= i < |rows| :: KnownStage(rows[i].stage)
  }

  /** With known stages, no stage has a failed row exactly when all rows passed. */
  lemma NoFailedStage(rows: seq<Row>)
    requires StagesKnown(rows)
    ensures AllPassed(rows) <==>
            !AnyFailed(rows, IsIdentityRow) && !AnyFailed(rows, IsInitialRow) && !AnyFailed(rows, IsLaterRow)
            && !AnyFailed(rows, IsAckRow)
  {
    forall i | 0 <= i < |rows|
      ensures IsIdentityRow(rows[i]) || IsInitialRow(rows[i]) || IsLaterRow(rows[i]) || IsAckRow(rows[i])
    {
      assert KnownStage(rows[i].stage);
    }
  }

  lemma FlagsClear(rows: seq<Row>, e: Execution, errors: seq<string>)
    requires StagesKnown(rows)
    ensures |Flags(rows, e, errors)| == 6
    ensures (forall i | 0 <= i < 6 :: !Flags(rows, e, errors)[i]) <==>
              AllPassed(rows) && ValidExecution(e) && errors == []
  {
    NoFailedStage(rows);
    var f := Flags(rows, e, errors);
    assert (forall i | 0 <= i < 6 :: !f[i]) <==> !f[0] && !f[1] && !f[2] && !f[3] && !f[4] && !f[5];
  }

  /** The constructor of the evaluation accepts what `evaluate_result` gives it, and its disposition says what it
      should. */
  lemma ConcludeMeans(r: RawResult, rows: seq<Row>)
    requires rows != [] && StagesKnown(rows)
    ensures Conclude(r, rows).Ok? && Conclude(r, rows).value.rows == rows
    ensures Conclude(r, rows).value.disposition == Pass <==>
            AllPassed(rows) && ValidExecution(r.execution) && r.errors == []
  {
    ReasonsAreApart();
    ReasonsAreWords();
    FlagsClear(rows, r.execution, r.errors);
    SortedPicks(Flags(rows, r.execution, r.errors), REASONS);
  }

  lemma RowStages(c: Contract, r: RawResult, caches: seq<string>)
    requires AllRows(Questions(c, r, caches), RowOf(c)).Ok? && caches != []
    ensures var rows := AllRows(Questions(c, r, caches), RowOf(c)).value; rows != [] && StagesKnown(rows)
  {
    var questions := Questions(c, r, caches);
    RowsAnswer(c, questions);
    StagesAreKnown(c, r, caches);
    SomethingAsked(c, r, caches);
    var rows := AllRows(questions, RowOf(c)).value;
    forall i | 0 <= i < |rows|
      ensures KnownStage(rows[i].stage)
    {
      assert HasKnownStage(questions[i]);
    }
  }

  lemma SomethingAsked(c: Contract, r: RawResult, caches: seq<string>)
    requires caches != []
    ensures Questions(c, r, caches) != []
  {
    FlatHas(IdentityQuestions(r), caches, 0, IdentityQuestion(r)(caches[0]));
  }

  /** An evaluation that returns says pass exactly when every row is within its limit, the execution conditions
      hold and there are no error codes. */
  lemma PassMeans(c: Contract, r: RawResult)
    requires EvaluateResult(c, r).Ok?
    ensures var e := EvaluateResult(c, r).value;
            e.disposition == Pass <==> AllPassed(e.rows) && ValidExecution(r.execution) && r.errors == []
  {
    RowStages(c, r, CACHES);
    ConcludeMeans(r, AllRows(Questions(c, r, CACHES), RowOf(c)).value);
  }

  // ---------- When an evaluation returns ----------

  /** Good samples under a good tag. */
  function WellPosed(c: Contract): Question -> bool {
    (q: Question) => TagsOk(c, q) && SamplesInRange(q.samples)
  }

  lemma AllRowsExist(c: Contract, questions: seq<Question>)
    requires AllPass(questions, WellPosed(c))
    ensures AllRows(questions, RowOf(c)).Ok? <==> AllPass(questions, Answerable)
  {
    RowsInOrder(questions, RowOf(c));
    forall i | 0 <= i < |questions|
      ensures RowOf(c)(questions[i]).Ok? <==> Answerable(questions[i])
    {
      assert WellPosed(c)(questions[i]);
      RowExists(c, questions[i]);
    }
  }

  lemma FilteredInRange<W>(items: seq<W>, duration: W -> int, test: W -> bool)
    requires forall w | w in items :: IsDuration(duration(w))
    ensures SamplesInRange(Map(duration, Filter(test, items))) && forall w | w in Filter(test, items) :: w in items
  {
    FilterMembers(test, items);
    var kept := Filter(test, items);
    forall i | 0 <= i < |kept|
      ensures IsDuration(duration(kept[i]))
    {
      FilteredPass(test, items, i);
    }
  }

  /** All durations of a validated result are in range. */
  ghost predicate InRange(r: RawResult) {
    && (forall w | w in r.observations.identityWaits :: IsDuration(IdentityDuration(w)))
    && (forall w | w in r.observations.decisionWaits :: IsDuration(DecisionDuration(w)))
    && (forall a | a in r.observations.acknowledgements :: IsDuration(AckDuration(a)))
  }

  lemma TestedInRange(c: Contract, r: RawResult)
    requires AllPass(r.observations.identityWaits, IdentityWaitOk)
    requires AllPass(r.observations.decisionWaits, DecisionWaitTest(c))
    requires AllPass(r.observations.acknowledgements, AckTest(c))
    ensures InRange(r)
  {
    forall w | w in r.observations.identityWaits
      ensures IsDuration(IdentityDuration(w))
    {
      AllPassMeans(r.observations.identityWaits, IdentityWaitOk, w);
    }
    forall w | w in r.observations.decisionWaits
      ensures IsDuration(DecisionDuration(w))
    {
      AllPassMeans(r.observations.decisionWaits, DecisionWaitTest(c), w);
    }
    forall a | a in r.observations.acknowledgements
      ensures IsDuration(AckDuration(a))
    {
      AllPassMeans(r.observations.acknowledgements, AckTest(c), a);
    }
  }

  lemma ValidatedInRange(c: Contract, r: RawResult)
    requires BaseOk(c, r)
    ensures InRange(r)
  {
    assert AllPass(r.observations.identityWaits, IdentityWaitOk);
    assert AllPass(r.observations.decisionWaits, DecisionWaitTest(c));
    assert AllPass(r.observations.acknowledgements, AckTest(c));
    TestedInRange(c, r);
  }

  lemma DecisionsInRange(r: RawResult, cache: string, stage: Stage, profile: string, round: Option<int>)
    requires InRange(r)
    ensures SamplesInRange(AllQuestion(r, cache, stage).samples)
    ensures SamplesInRange(ProfileQuestion(r, cache, stage)(profile).samples)
    ensures SamplesInRange(RoundQuestion(r, cache, profile)(round).samples)
  {
    FilteredInRange(r.observations.decisionWaits, DecisionDuration, DecisionIn(cache, stage));
    FilteredInRange(DecisionsOf(r, cache, stage), DecisionDuration, IsKey(ProfileKey, profile));
    FilteredInRange(r.observations.decisionWaits, DecisionDuration, DecisionIn(cache, LaterDecision));
    FilteredInRange(DecisionsOf(r, cache, LaterDecision), DecisionDuration, IsKey(ProfileKey, profile));
    FilteredInRange(ProfileDecisions(r, cache, LaterDecision, profile), DecisionDuration, IsKey(RoundKey, round));
  }

  lemma StagesAreClosed()
    ensures IsClosedId(IDENTITY_STAGE) && IsClosedId(INITIAL_STAGE) && IsClosedId(LATER_STAGE)
    ensures IsClosedId(ACK_STAGE)
  {
  }

  lemma IdentityPosed(c: Contract, r: RawResult, cache: string)
    requires InRange(r) && cache in CACHES
    ensures AllPass(IdentityQuestions(r)(cache), WellPosed(c))
  {
    StagesAreClosed();
    FilteredInRange(r.observations.identityWaits, IdentityDuration, IdentityIn(cache));
    assert WellPosed(c)(IdentityQuestion(r)(cache));
    assert IdentityQuestions(r)(cache) == [IdentityQuestion(r)(cache)];
  }

  lemma ProfilePosed(c: Contract, r: RawResult, cache: string, profile: string)
    requires InRange(r) && cache in CACHES && profile in c.profiles
    ensures WellPosed(c)(ProfileQuestion(r, cache, InitialDecision)(profile))
  {
    StagesAreClosed();
    DecisionsInRange(r, cache, InitialDecision, profile, None);
  }

  lemma InitialPosed(c: Contract, r: RawResult, cache: string)
    requires InRange(r) && cache in CACHES
    ensures AllPass(InitialQuestions(c, r)(cache), WellPosed(c))
  {
    forall n | 0 <= n < |c.profiles|
      ensures WellPosed(c)(ProfileQuestion(r, cache, InitialDecision)(c.profiles[n]))
    {
      ProfilePosed(c, r, cache, c.profiles[n]);
    }
    AllQuestionPosed(c, r, cache, InitialDecision);
    AllPassFront(AllQuestion(r, cache, InitialDecision), Map(ProfileQuestion(r, cache, InitialDecision), c.profiles),
                 WellPosed(c));
  }

  lemma AcksPosed(c: Contract, r: RawResult, cache: string)
    requires c.Valid() && InRange(r) && cache in CACHES
    ensures AllPass(AckQuestions(c, r)(cache), WellPosed(c))
  {
    StagesAreClosed();
    forall n: nat | n < |c.actions|
      ensures WellPosed(c)(AckQuestion(r, cache)(c.actions[n]))
    {
      FilteredInRange(r.observations.acknowledgements, AckDuration, AckIn(cache, c.actions[n]));
      WordIsPlain(c.actions[n]);
      ClosedAppend(ACK_STAGE, c.actions[n]);
    }
  }

  lemma ClosedAppend(a: string, b: string)
    requires IsClosedId(a) && IsClosedId(b)
    ensures IsClosedId(a + b)
  {
  }

  lemma LaterPosed(c: Contract, r: RawResult, cache: string)
    requires c.Valid() && InRange(r) && cache in CACHES
    ensures AllPass(LaterQuestions(c, r)(cache), WellPosed(c))
  {
    forall n | 0 <= n < |c.profiles|
      ensures AllPass(ProfileLaterQuestions(c, r, cache)(c.profiles[n]), WellPosed(c))
    {
      ProfileLaterPosed(c, r, cache, c.profiles[n]);
    }
    FlatAllPass(ProfileLaterQuestions(c, r, cache), c.profiles, WellPosed(c));
    AllQuestionPosed(c, r, cache, LaterDecision);
    AllPassFront(AllQuestion(r, cache, LaterDecision), Flat(ProfileLaterQuestions(c, r, cache), c.profiles),
                 WellPosed(c));
  }

  lemma AllQuestionPosed(c: Contract, r: RawResult, cache: string, stage: Stage)
    requires InRange(r) && cache in CACHES
    ensures WellPosed(c)(AllQuestion(r, cache, stage))
  {
    StagesAreClosed();
    DecisionsInRange(r, cache, stage, "", None);
  }

  lemma ProfileLaterPosed(c: Contract, r: RawResult, cache: string, profile: string)
    requires c.Valid() && InRange(r) && cache in CACHES && profile in c.profiles
    ensures AllPass(ProfileLaterQuestions(c, r, cache)(profile), WellPosed(c))
  {
    StagesAreClosed();
    LaterQuestionsAre(c, r, cache, profile);
    var qs := ProfileLaterQuestions(c, r, cache)(profile);
    var rounds := Rounds(c, profile);
    DecisionsInRange(r, cache, LaterDecision, profile, None);
    forall i | 0 <= i < |qs|
      ensures WellPosed(c)(qs[i])
    {
      if i > 0 {
        DecisionsInRange(r, cache, LaterDecision, profile, rounds[i - 1]);
      }
    }
  }

  lemma QuestionsPosed(c: Contract, r: RawResult, caches: seq<string>)
    requires c.Valid() && InRange(r) && forall n | 0 <= n < |caches| :: caches[n] in CACHES
    ensures AllPass(Questions(c, r, caches), WellPosed(c))
  {
    forall n | 0 <= n < |caches|
      ensures AllPass(IdentityQuestions(r)(caches[n]), WellPosed(c))
      ensures AllPass(InitialQuestions(c, r)(caches[n]), WellPosed(c))
      ensures AllPass(LaterQuestions(c, r)(caches[n]), WellPosed(c))
      ensures AllPass(AckQuestions(c, r)(caches[n]), WellPosed(c))
    {
      IdentityPosed(c, r, caches[n]);
      InitialPosed(c, r, caches[n]);
      LaterPosed(c, r, caches[n]);
      AcksPosed(c, r, caches[n]);
    }
    StagesPass(c, r, caches, WellPosed(c));
  }

  /** A test that holds of every stage's questions holds of all. */
  lemma StagesPass(c: Contract, r: RawResult, caches: seq<string>, test: Question -> bool)
    requires forall n | 0 <= n < |caches| :: AllPass(IdentityQuestions(r)(caches[n]), test)
    requires forall n | 0 <= n < |caches| :: AllPass(InitialQuestions(c, r)(caches[n]), test)
    requires forall n | 0 <= n < |caches| :: AllPass(LaterQuestions(c, r)(caches[n]), test)
    requires forall n | 0 <= n < |caches| :: AllPass(AckQuestions(c, r)(caches[n]), test)
    ensures AllPass(Questions(c, r, caches), test)
  {
    FlatAllPass(IdentityQuestions(r), caches, test);
    FlatAllPass(InitialQuestions(c, r), caches, test);
    FlatAllPass(LaterQuestions(c, r), caches, test);
    FlatAllPass(AckQuestions(c, r), caches, test);
    var q1 := Flat(IdentityQuestions(r), caches);
    var q2 := Flat(InitialQuestions(c, r), caches);
    var q3 := Flat(LaterQuestions(c, r), caches);
    AllPassConcat(q1, q2, test);
    AllPassConcat(q1 + q2, q3, test);
    AllPassConcat(q1 + q2 + q3, Flat(AckQuestions(c, r), caches), test);
  }

  /** The rows of a validated result can all be computed exactly when every row has samples and numbers in range. */
  lemma ValidatedRows(c: Contract, r: RawResult, caches: seq<string>)
    requires c.Valid() && BaseOk(c, r) && caches == CACHES
    ensures AllRows(Questions(c, r, caches), RowOf(c)).Ok? <==> AllPass(Questions(c, r, caches), Answerable)
    ensures AllRows(Questions(c, r, caches), RowOf(c)).Ok? ==>
              Conclude(r, AllRows(Questions(c, r, caches), RowOf(c)).value).Ok?
  {
    ValidatedInRange(c, r);
    QuestionsPosed(c, r, caches);
    AllRowsExist(c, Questions(c, r, caches));
    if AllRows(Questions(c, r, caches), RowOf(c)).Ok? {
      RowStages(c, r, caches);
      ConcludeMeans(r, AllRows(Questions(c, r, caches), RowOf(c)).value);
    }
  }

  /** An evaluation returns exactly when the result is validated and every row is answerable. */
  lemma ReturnsExactlyWhen(c: Contract, r: RawResult)
    requires c.Valid()
    ensures EvaluateResult(c, r).Ok? <==> BaseOk(c, r) && AllPass(Questions(c, r, CACHES), Answerable)
  {
    if BaseOk(c, r) {
      ValidatedRows(c, r, CACHES);
    }
  }
}
