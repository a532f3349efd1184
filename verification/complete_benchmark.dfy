/** `run_complete_benchmark`: from the first child process to the sealed result. */
module CompleteBenchmarks {
  import opened Wrappers
  import opened Json
  import opened ResultJson
  import opened BenchmarkContract
  import opened ChildObservations
  import opened Observations
  import opened ProducerTheorems
  import opened Evaluations
  import opened ProducedResults
  import opened Sealing
  import opened EncodableResults
  import RunTasks
  import RunLifecycle

  /** The measurements of every measured child are within the numbers of the result format. */
  ghost predicate InNumbers(c: Contract, p: Protocol, runner: RunLifecycle.Runner)
    requires p.Valid()
  {
    forall t | RunTasks.Measured(c, p, t) :: Capped(RunLifecycle.Observed(runner)(t))
  }

  /** The dictionaries hold what was observed. */
  ghost predicate Gathered(c: Contract, p: Protocol, runner: RunLifecycle.Runner, ids: Identities, scs: Scenarios)
    requires p.Valid()
  {
    && Total(c, p, ids, scs)
    && forall t | RunTasks.Measured(c, p, t) :: RunLifecycle.Filed(RunLifecycle.Observed(runner), ids, scs, t)
  }

  lemma MemberOfTask(c: Contract, p: Protocol, runner: RunLifecycle.Runner, ids: Identities, scs: Scenarios,
                     t: RunTasks.Task)
    requires c.Valid() && p.Valid() && RunLifecycle.GoodRun(c, p, RunLifecycle.CollectTest(c), runner)
    requires InNumbers(c, p, runner) && Gathered(c, p, runner, ids, scs) && RunTasks.Measured(c, p, t)
    ensures match t.profile
            case None => IdentityMember(c, Identity(ids, t.cache, t.iteration))
            case Some(profile) => ScenarioMember(c, Scenario(scs, t.cache, profile, t.iteration), profile)
  {
    RunLifecycle.GoodObservation(c, p, runner, t);
    assert RunLifecycle.Filed(RunLifecycle.Observed(runner), ids, scs, t);
    assert Capped(RunLifecycle.Observed(runner)(t));
  }

  /** What a good run files is a full family of valid observations. */
  lemma RunGivesFamily(c: Contract, p: Protocol, runner: RunLifecycle.Runner, ids: Identities, scs: Scenarios)
    requires c.Valid() && p.Valid() && RunLifecycle.GoodRun(c, p, RunLifecycle.CollectTest(c), runner)
    requires InNumbers(c, p, runner) && Gathered(c, p, runner, ids, scs)
    ensures Family(c, p, ids, scs)
  {
    forall cache, i: nat | cache in CACHES && i < p.Repetitions(cache)
      ensures (cache, i) in ids && IdentityMember(c, Identity(ids, cache, i))
    {
      MemberOfTask(c, p, runner, ids, scs, RunTasks.Task(cache, None, i));
    }
    forall cache, profile, i: nat | cache in CACHES && profile in c.profiles && i < p.Repetitions(cache)
      ensures (cache, profile, i) in scs && ScenarioMember(c, Scenario(scs, cache, profile, i), profile)
    {
      MemberOfTask(c, p, runner, ids, scs, RunTasks.Task(cache, Some(profile), i));
    }
  }

  /** What `base_result` puts together, apart from the values that the evaluation does not use. */
  function ResultOf(p: Protocol, o: Observations, conditions: Execution): RawResult {
    RawResult(p, o, conditions.(releaseProtocol := p == RELEASE_PROTOCOL), [], true)
  }

  /** The conditions are measured as closed identifiers. */
  predicate ClosedConditions(e: Execution) {
    IsClosedId(e.driveType) && IsClosedId(e.workingRootClass)
  }

  /** A full family gives valid lists, and a result that can be evaluated if its numbers fit the result format. */
  lemma FamilyIsEvaluated(c: Contract, p: Protocol, ids: Identities, scs: Scenarios, conditions: Execution)
    requires c.Valid() && p.Valid() && Family(c, p, ids, scs) && ClosedConditions(conditions)
    requires forall profile | profile in c.profiles :: c.rounds(profile) >= 1
    ensures var r := ResultOf(p, Flattened(c, p, ids, scs), conditions);
            BaseOk(c, r) && (Sized(r) ==> EvaluateResult(c, r).Ok?)
  {
    var r := ResultOf(p, Flattened(c, p, ids, scs), conditions);
    ProducedBase(c, p, ids, scs, r);
    if Sized(r) {
      ProducedEvaluates(c, p, ids, scs, r);
    }
  }

  // ---------- Sealing ----------

  /** The result can be sealed. */
  ghost predicate Sealable(s: Scripts, r: RawResult, x: Others) {
    && EvaluateResult(s.c, r).Ok? && IsRunId(x.runId) && s.tests(BaseJson(r, x))
    && OthersPrint(x, TextOf(s.nfc))
  }

  lemma SealableIsSealed(s: Scripts, r: RawResult, x: Others)
    requires s.Valid() && UniqueOthers(x) && r.restOk
    ensures UniqueKeys(BaseJson(r, x)) && (SealResult(s, BaseJson(r, x)).Ok? <==> Sealable(s, r, x))
  {
    WrittenEvaluates(s, r, x);
    SealsExactlyWhen(s, r, x);
    assert r.(restOk := true) == r;
  }

  /** The values that the evaluation does not use: before the cleanup, after it, and at the end. They differ in the
      overheads, which hold the durations measured so far. */
  datatype Stages = Stages(provisional: Others, cleaned: Others, final: Others)
  {
    ghost predicate Unique() {
      UniqueOthers(provisional) && UniqueOthers(cleaned) && UniqueOthers(final)
    }
  }

  type Seal = (RawResult, Others) -> Result<Json>

  /** Sealing a result with the remaining values. */
  function SealWith(s: Scripts): Seal {
    (r: RawResult, x: Others) => SealResult(s, BaseJson(r, x))
  }

  lemma SealWithMeans(s: Scripts, r: RawResult, x: Others)
    requires s.Valid() && UniqueOthers(x) && r.restOk
    ensures SealWith(s)(r, x).Ok? <==> Sealable(s, r, x)
    ensures SealWith(s)(r, x).Ok? ==> CanonicalResultBytes(s, SealWith(s)(r, x).value).Ok?
  {
    SealableIsSealed(s, r, x);
    if SealWith(s)(r, x).Ok? {
      SealedResultIsAccepted(s, BaseJson(r, x));
    }
  }

  // ---------- The run ----------

  /** Every child reports well, and no authority is reused. */
  ghost predicate RunsToEnd(c: Contract, p: Protocol, runner: RunLifecycle.Runner)
    requires p.Valid()
  {
    && RunLifecycle.GoodRun(c, p, RunLifecycle.CollectTest(c), runner)
    && RunLifecycle.FreshRun(c, p, RunLifecycle.Observed(runner))
  }

  /** What the children's own tests leave open. */
  ghost predicate MayPass(c: Contract, p: Protocol, runner: RunLifecycle.Runner, conditions: Execution)
    requires p.Valid()
  {
    && InNumbers(c, p, runner) && ClosedConditions(conditions)
    && forall profile | profile in c.profiles :: c.rounds(profile) >= 1
  }

  lemma GoodIsEvaluated(c: Contract, p: Protocol, runner: RunLifecycle.Runner, ids: Identities, scs: Scenarios,
                        conditions: Execution)
    requires c.Valid() && p.Valid() && RunsToEnd(c, p, runner) && Gathered(c, p, runner, ids, scs)
    ensures var r := ResultOf(p, Flattened(c, p, ids, scs), conditions);
            MayPass(c, p, runner, conditions) ==> BaseOk(c, r) && (Sized(r) ==> EvaluateResult(c, r).Ok?)
  {
    if MayPass(c, p, runner, conditions) {
      RunGivesFamily(c, p, runner, ids, scs);
      FamilyIsEvaluated(c, p, ids, scs, conditions);
    }
  }

  /** All three times the result is sealed, it can be. */
  ghost predicate SealsThrough(seal: Seal, r: RawResult, x: Stages) {
    seal(r, x.provisional).Ok? && seal(r, x.cleaned).Ok? && seal(r, x.final).Ok?
  }

  /** The run root: whether it is there, and its child roots. */
  datatype RunRoot = RunRoot(present: bool, children: set<string>)

  /** What is left on disk: every child root if there was no provisional result, and nothing otherwise. */
  predicate LeftOnDisk(sealable: bool, roots: set<string>, left: RunRoot) {
    if sealable then left.children == {} && !left.present
    else left.children == roots && (roots != {} ==> left.present)
  }

  /** The end of a run whose children have reported well. */
  ghost predicate SealedFrom(seal: Seal, r: RawResult, x: Stages, roots: set<string>, left: RunRoot,
                             sealed: Result<Json>)
  {
    && (sealed.Ok? <==> SealsThrough(seal, r, x)) && (sealed.Ok? ==> sealed == seal(r, x.final))
    && LeftOnDisk(seal(r, x.provisional).Ok?, roots, left)
  }

  /** Sealing before and after the cleanup. */
  method SealAround(run: RunLifecycle.CompleteRun, seal: Seal, r: RawResult, x: Stages)
    returns (sealed: Result<Json>)
    requires RunLifecycle.ListedOnDisk(run.cleanup, run.children, run.present)
    modifies run`present, run`children
    ensures SealedFrom(seal, r, x, old(run.children), RunRoot(run.present, run.children), sealed)
  {
    sealed := seal(r, x.provisional);
    if sealed.Fail? {
      return;
    }
    var cleaned := run.Cleanup();
    if !cleaned {
      return Fail;
    }
    sealed := seal(r, x.cleaned);
    if sealed.Ok? {
      sealed := seal(r, x.final);
    }
  }

  /** The result is flattened out of dictionaries that hold what was observed. */
  ghost predicate GatheredAs(c: Contract, p: Protocol, runner: RunLifecycle.Runner, conditions: Execution,
                             r: RawResult)
    requires p.Valid()
  {
    exists ids, scs :: Gathered(c, p, runner, ids, scs) && r == ResultOf(p, Flattened(c, p, ids, scs), conditions)
  }

  /** The children, and flattening what they report. */
  method GatherResult(c: Contract, p: Protocol, runner: RunLifecycle.Runner, conditions: Execution)
    returns (ended: bool, run: RunLifecycle.CompleteRun, r: RawResult)
    requires c.Valid() && p.Valid() && RunTasks.ShortNames(c)
    ensures fresh(run)
    ensures ended <==> RunsToEnd(c, p, runner)
    ensures ended ==> GatheredAs(c, p, runner, conditions, r)
    ensures ended ==> run.children == RunTasks.RunRoots(c, p)
    ensures ended ==> RunLifecycle.ListedOnDisk(run.cleanup, run.children, run.present)
  {
    run := new RunLifecycle.CompleteRun(c, p, runner, RunLifecycle.CollectTest(c));
    ended := run.Gather();
    r := RawResult(p, Observations([], [], [], [], []), conditions, [], false);
    if ended {
      r := FlattenResult(c, p, runner, conditions, run.ids, run.scs);
    }
  }

  method FlattenResult(c: Contract, p: Protocol, ghost runner: RunLifecycle.Runner, conditions: Execution,
                       ids: Identities, scs: Scenarios)
    returns (r: RawResult)
    requires p.Valid() && Gathered(c, p, runner, ids, scs)
    ensures GatheredAs(c, p, runner, conditions, r)
  {
    var o := FlattenObservations(c, p, ids, scs);
    r := ResultOf(p, o, conditions);
    assert Gathered(c, p, runner, ids, scs) && r == ResultOf(p, Flattened(c, p, ids, scs), conditions);
  }

  /** A run that may pass has a valid result, which can be evaluated if its numbers fit the result format. */
  lemma GatheredIsEvaluated(c: Contract, p: Protocol, runner: RunLifecycle.Runner, conditions: Execution, r: RawResult)
    requires c.Valid() && p.Valid() && RunsToEnd(c, p, runner) && GatheredAs(c, p, runner, conditions, r)
    ensures MayPass(c, p, runner, conditions) ==> BaseOk(c, r) && (Sized(r) ==> EvaluateResult(c, r).Ok?)
  {
    var ids, scs :| Gathered(c, p, runner, ids, scs) && r == ResultOf(p, Flattened(c, p, ids, scs), conditions);
    GoodIsEvaluated(c, p, runner, ids, scs, conditions);
  }

  /** The children's part of a run: what was observed, and the child roots that were created. What may pass is valid,
      and can be evaluated if its numbers fit the result format. */
  ghost predicate RunEnds(c: Contract, p: Protocol, runner: RunLifecycle.Runner, conditions: Execution, ended: bool,
                          r: RawResult, roots: set<string>)
    requires p.Valid()
  {
    && (ended <==> RunsToEnd(c, p, runner))
    && (ended ==> roots == RunTasks.RunRoots(c, p) && GatheredAs(c, p, runner, conditions, r))
    && (ended && MayPass(c, p, runner, conditions) ==> BaseOk(c, r) && (Sized(r) ==> EvaluateResult(c, r).Ok?))
  }

  lemma GatheredIsClean(c: Contract, p: Protocol, runner: RunLifecycle.Runner, conditions: Execution, r: RawResult)
    requires p.Valid() && GatheredAs(c, p, runner, conditions, r)
    ensures r.restOk && r.errors == []
  {
  }

  /** The rest of a run, if its children have reported well. */
  ghost predicate RunSealed(seal: Seal, ended: bool, r: RawResult, x: Stages, roots: set<string>, left: RunRoot,
                            sealed: Result<Json>)
  {
    if ended then SealedFrom(seal, r, x, roots, left, sealed) && r.restOk && r.errors == [] else sealed.Fail?
  }

  /** `run_complete_benchmark`; `seal` is `seal_result` of what `base_result` makes of an observed result. It returns
      exactly when every child reports well, no authority is reused, and the result can be sealed each time. If the
      provisional result cannot be sealed, all child roots stay on disk; otherwise they are gone, whatever comes
      after. */
  method RunAndSeal(c: Contract, p: Protocol, runner: RunLifecycle.Runner, conditions: Execution, seal: Seal, x: Stages)
    returns (ended: bool, r: RawResult, roots: set<string>, left: RunRoot, sealed: Result<Json>)
    requires c.Valid() && p.Valid() && RunTasks.ShortNames(c)
    ensures RunEnds(c, p, runner, conditions, ended, r, roots)
    ensures RunSealed(seal, ended, r, x, roots, left, sealed)
  {
    var run;
    ended, run, r := GatherResult(c, p, runner, conditions);
    sealed, roots := Fail, run.children;
    if ended {
      GatheredIsClean(c, p, runner, conditions, r);
      GatheredIsEvaluated(c, p, runner, conditions, r);
      sealed := SealAround(run, seal, r, x);
    }
    left := RunRoot(run.present, run.children);
  }
}
