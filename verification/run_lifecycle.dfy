/** The life cycle of child roots in a complete run, and the dictionaries it fills. */
module RunLifecycle {
  import opened Wrappers
  import opened Sorting
  import opened BenchmarkContract
  import opened ChildObservations
  import opened Observations
  import opened RunTasks
  import opened RunAuthority

  /** An observation with the child ID it carries; `overheads` says that it carries the overheads of a child process,
      and `intended` that it ended in the capability and step intended for its profile. */
  datatype Report = Report(childId: string, overheads: bool, intended: bool, child: Child)

  /** What the child processes and the warm runner return. */
  datatype Runner = Runner(cold: Task -> Report, warm: nat -> seq<Report>)

  /** A test on a report: for which child ID, cache state and profile it is collected. */
  type Test = (Report, string, string, Option<string>) -> bool

  /** `_validate_collected_observation`. */
  predicate Collectable(c: Contract, r: Report, id: string, cache: string, profile: Option<string>) {
    && ObservationOk(r.child, c)
    && r.childId == id && r.child.cacheState == cache && r.child.profile == profile
    && (r.overheads <==> cache == "cold")
    && if profile.None? then Map(SpanName, r.child.acknowledgements) == c.actions
       else r.child.acknowledgements == [] && r.intended
  }

  function CollectTest(c: Contract): Test {
    (r: Report, id: string, cache: string, profile: Option<string>) => Collectable(c, r, id, cache, profile)
  }

  function ReportKey(r: Report): (string, Option<string>) { (r.childId, r.child.profile) }

  function TaskKey(t: Task): (string, Option<string>) { (ChildId(t), t.profile) }

  /** `_validate_warm_inventory`. */
  predicate WarmInventoryOk(c: Contract, i: nat, reports: seq<Report>) {
    Map(ReportKey, reports) == Map(TaskKey, WarmList(c.profiles, i))
  }

  /** One warm report is collected for what it says of itself. */
  predicate WarmReportOk(test: Test, r: Report) {
    test(r, r.childId, "warm", r.child.profile)
  }

  /** The reports of one warm iteration are complete, in order, and each passes. */
  predicate WarmReportsOk(c: Contract, test: Test, i: nat, reports: seq<Report>) {
    |reports| == 1 + |c.profiles| && WarmInventoryOk(c, i, reports) && ReportsOk(test, reports)
  }

  predicate ColdReportOk(test: Test, runner: Runner, t: Task) {
    test(runner.cold(t), ChildId(t), t.cache, t.profile)
  }

  /** Every cold child and every warm iteration, the warm-up among them, reports well. */
  ghost predicate GoodRun(c: Contract, p: Protocol, test: Test, runner: Runner)
    requires p.Valid()
  {
    && (forall t | Planned(c, p, t) && t.cache == "cold" :: ColdReportOk(test, runner, t))
    && IterationsOk(c, test, runner, p.warm + 1)
  }

  /** No digest of a measured scenario occurs twice. */
  ghost predicate FreshRun(c: Contract, p: Protocol, observe: Task -> Child)
    requires p.Valid()
  {
    && (forall t | Measured(c, p, t) && t.profile.Some? :: Distinct(observe(t).authority))
    && (forall t, u | Measured(c, p, t) && Measured(c, p, u) && t.profile.Some? && u.profile.Some? && t != u ::
          NoneShared(observe(t).authority, observe(u).authority))
  }

  /** The observation that carries the child ID. */
  function ChildNamed(reports: seq<Report>, id: string): Child {
    if reports == [] then MISSING
    else if reports[|reports| - 1].childId == id then reports[|reports| - 1].child
    else ChildNamed(reports[..|reports| - 1], id)
  }

  /** The observation of a task. */
  function Observed(runner: Runner): Task -> Child {
    (t: Task) => if t.cache == "cold" then runner.cold(t).child else ChildNamed(runner.warm(t.iteration), ChildId(t))
  }

  lemma {:induction false} ChildIsNamed(reports: seq<Report>, j: nat)
    requires j < |reports| && forall i | 0 <= i < |reports| && i != j :: reports[i].childId != reports[j].childId
    ensures ChildNamed(reports, reports[j].childId) == reports[j].child
  {
    var n := |reports| - 1;
    if j < n {
      assert forall i | 0 <= i < n :: reports[..n][i] == reports[i];
      ChildIsNamed(reports[..n], j);
    }
  }

  /** Under the inventory test every report belongs to its task, and is the observation of that task. */
  lemma WarmReportIs(c: Contract, p: Protocol, runner: Runner, i: nat, j: nat)
    requires c.Valid() && p.Valid() && i <= p.warm && WarmInventoryOk(c, i, runner.warm(i))
    requires j < |WarmList(c.profiles, i)|
    ensures j < |runner.warm(i)|
    ensures var t := WarmList(c.profiles, i)[j];
            && Planned(c, p, t) && t == Task("warm", runner.warm(i)[j].child.profile, i)
            && runner.warm(i)[j].childId == ChildId(t) && Observed(runner)(t) == runner.warm(i)[j].child
  {
    var reports, tasks := runner.warm(i), WarmList(c.profiles, i);
    WarmListIs(c.profiles, i);
    assert |reports| == |Map(ReportKey, reports)| == |tasks|;
    forall k | 0 <= k < |tasks|
      ensures reports[k].childId == ChildId(tasks[k]) && reports[k].child.profile == tasks[k].profile
      ensures tasks[k] == Task("warm", tasks[k].profile, i) && Planned(c, p, tasks[k])
    {
      assert Map(ReportKey, reports)[k] == Map(TaskKey, tasks)[k];
      assert tasks[k] in Elements(tasks);
    }
    forall k | 0 <= k < |tasks| && k != j
      ensures reports[k].childId != reports[j].childId
    {
      if ChildId(tasks[k]) == ChildId(tasks[j]) {
        ChildIdIsUnique(c, p, tasks[k], tasks[j]);
      }
    }
    ChildIsNamed(reports, j);
  }

  /** The observation of every collected task is under its key. */
  ghost predicate Recorded(collected: set<Task>, observe: Task -> Child, ids: Identities, scs: Scenarios) {
    && (forall t | t in collected && t.profile.None? ::
          (t.cache, t.iteration) in ids && ids[(t.cache, t.iteration)] == observe(t))
    && (forall t | t in collected && t.profile.Some? ::
          (t.cache, t.profile.value, t.iteration) in scs && scs[(t.cache, t.profile.value, t.iteration)] == observe(t))
    && (forall key | key in scs :: Task(key.0, Some(key.1), key.2) in collected)
  }

  // ---------- The run ----------

  /** The list for cleanup holds the child roots on disk, each once. */
  ghost predicate ListedOnDisk(cleanup: seq<string>, children: set<string>, present: bool) {
    Distinct(cleanup) && Elements(cleanup) == children && (children != {} ==> present)
  }

  /** The state of `run_complete_benchmark`: the run root on disk, and what the loops accumulate. */
  class CompleteRun {
    const c: Contract
    const p: Protocol
    const runner: Runner
    const test: Test
    const observe: Task -> Child
    var present: bool
    var children: set<string>
    var cleanup: seq<string>
    var seen: set<string>
    var ids: Identities
    var scs: Scenarios
    ghost var created: set<Task>
    ghost var listed: set<Task>
    ghost var collected: set<Task>

    constructor (c: Contract, p: Protocol, runner: Runner, test: Test)
      requires c.Valid() && p.Valid() && ShortNames(c)
      ensures this.c == c && this.p == p && this.runner == runner && this.test == test && observe == Observed(runner)
      ensures Valid() && created == listed == collected == {} && children == {} && !present
    {
      this.c, this.p, this.runner, this.test, this.observe := c, p, runner, test, Observed(runner);
      present, children, cleanup, seen := false, {}, [], {};
      ids, scs, created, listed, collected := map[], map[], {}, {}, {};
    }

    /** On disk are the roots of the created tasks, on the list those of the listed ones, each once; the dictionaries
        hold the collected observations. Nothing here ties the list to the disk. */
    ghost predicate Valid()
      reads this
    {
      && c.Valid() && p.Valid() && ShortNames(c) && observe == Observed(runner)
      && (forall t | t in created + listed + collected :: Planned(c, p, t))
      && children == Ids(created) && (children != {} ==> present)
      && Distinct(cleanup) && Elements(cleanup) == Ids(listed)
      && seen == Ids(collected) && Recorded(collected, observe, ids, scs)
    }

    /** `prepare_isolated_child_root`. */
    method Prepare(id: string) returns (ok: bool)
      modifies this`present, this`children
      ensures ok <==> IsChildId(id) && id !in old(children)
      ensures children == if ok then old(children) + {id} else old(children)
      ensures old(present) ==> present
      ensures ok ==> present
    {
      present := true;
      ok := IsChildId(id) && id !in children;
      if ok {
        children := children + {id};
      }
    }

    /** Creates the root of a new task on disk. */
    method Create(t: Task)
      requires Valid() && Planned(c, p, t) && t !in created
      modifies this`present, this`children, this`created
      ensures Valid() && created == old(created) + {t}
    {
      ChildIdIsAccepted(c, p, t);
      FreshTaskFreshId(c, p, created, t);
      var ok := Prepare(ChildId(t));
      assert ok;
      created := created + {t};
    }

    /** `cleanup_child_ids.append`. */
    method ListForCleanup(id: string, ghost t: Task)
      requires Valid() && Planned(c, p, t) && t !in listed && id == ChildId(t)
      modifies this`cleanup, this`listed
      ensures Valid() && listed == old(listed) + {t}
    {
      FreshTaskFreshId(c, p, listed, t);
      assert id !in Elements(cleanup);
      assert Elements(cleanup + [id]) == Elements(cleanup) + {id};
      cleanup := cleanup + [id];
      listed := listed + {t};
    }

    /** The root of a report is listed if its child has a profile. */
    method ListRoot(r: Report, ghost t: Task)
      requires Valid() && Planned(c, p, t) && t !in listed && r.childId == ChildId(t) && r.child.profile == t.profile
      modifies this`cleanup, this`listed
      ensures Valid() && listed == if t.profile.Some? then old(listed) + {t} else old(listed)
    {
      if r.child.profile.Some? {
        ListForCleanup(r.childId, t);
      }
    }

    /** `collect`, and filing the observation under its key. */
    method Collect(r: Report, id: string, cache: string, profile: Option<string>, i: nat) returns (ok: bool)
      requires Valid()
      requires var t := Task(cache, profile, i);
               Planned(c, p, t) && t !in collected && id == ChildId(t) && r.child == observe(t)
      modifies this`seen, this`ids, this`scs, this`collected
      ensures Valid() && (ok <==> test(r, id, cache, profile))
      ensures collected == if ok then old(collected) + {Task(cache, profile, i)} else old(collected)
    {
      ghost var t := Task(cache, profile, i);
      FreshTaskFreshId(c, p, collected, t);
      ok := test(r, id, cache, profile);
      if !ok || id in seen {
        return false;
      }
      seen := seen + {id};
      match profile {
        case None => ids := ids[(cache, i) := r.child];
        case Some(name) => scs := scs[(cache, name, i) := r.child];
      }
      collected := collected + {t};
    }

    // ---------- The cold loops ----------

    /** One cold child: its root is created and listed, and what it reports is collected. */
    method RunCold(profile: Option<string>, i: nat) returns (ok: bool)
      requires Valid()
      requires var t := Task("cold", profile, i); Planned(c, p, t) && t !in created + listed + collected
      modifies this
      ensures Valid() && (ok <==> ColdReportOk(test, runner, Task("cold", profile, i)))
      ensures ok ==> && created == old(created) + {Task("cold", profile, i)}
                     && listed == old(listed) + {Task("cold", profile, i)}
                     && collected == old(collected) + {Task("cold", profile, i)}
    {
      var t := Task("cold", profile, i);
      Create(t);
      ListForCleanup(ChildId(t), t);
      ok := Collect(runner.cold(t), ChildId(t), "cold", profile, i);
    }

    /** The three sets of tasks are this one. */
    ghost predicate AllAt(tasks: set<Task>)
      reads this`created, this`listed, this`collected
    {
      created == tasks && listed == tasks && collected == tasks
    }

    ghost predicate ColdOk(tasks: set<Task>) {
      forall t | t in tasks :: ColdReportOk(test, runner, t)
    }

    method RunColdIdentities() returns (ok: bool)
      requires Valid() && AllAt({})
      modifies this
      ensures Valid()
      ensures ok ==> AllAt(ColdIdentities(p.cold)) && ColdOk(ColdIdentities(p.cold))
      ensures !ok ==> exists t :: Planned(c, p, t) && t.cache == "cold" && !ColdReportOk(test, runner, t)
    {
      MoreColdIdentities(0);
      for i := 0 to p.cold
        invariant Valid() && AllAt(ColdIdentities(i)) && ColdOk(ColdIdentities(i))
      {
        ghost var t := Task("cold", None, i);
        assert Planned(c, p, t);
        MoreColdIdentities(i);
        var good := RunCold(None, i);
        if !good {
          return false;
        }
      }
      return true;
    }

    /** These tasks have been added to the ones before. */
    ghost predicate AddedTo(before: set<Task>, tasks: set<Task>)
      reads this`created, this`listed, this`collected
    {
      AllAt(before + tasks)
    }

    /** One cold scenario. */
    method RunColdScenario(profile: string, i: nat, ghost before: set<Task>) returns (ok: bool)
      requires Valid() && profile in c.profiles && i < p.cold && AddedTo(before, ScenarioTasks("cold", profile, i))
      requires forall t | t in before :: t.profile != Some(profile)
      modifies this
      ensures Valid() && (ok <==> ColdReportOk(test, runner, Task("cold", Some(profile), i)))
      ensures ok ==> AddedTo(before, ScenarioTasks("cold", profile, i + 1))
    {
      ghost var t := Task("cold", Some(profile), i);
      assert Planned(c, p, t);
      MoreScenarioTasks("cold", profile, i);
      ok := RunCold(Some(profile), i);
      assert before + (ScenarioTasks("cold", profile, i) + {t}) == before + ScenarioTasks("cold", profile, i) + {t};
    }

    method RunColdProfile(profile: string, ghost before: set<Task>) returns (ok: bool)
      requires Valid() && profile in c.profiles && AllAt(before)
      requires forall t | t in before :: t.profile != Some(profile)
      modifies this
      ensures Valid()
      ensures ok ==> AddedTo(before, ScenarioTasks("cold", profile, p.cold))
      ensures ok ==> ColdOk(ScenarioTasks("cold", profile, p.cold))
      ensures !ok ==> exists t :: Planned(c, p, t) && t.cache == "cold" && !ColdReportOk(test, runner, t)
    {
      MoreScenarioTasks("cold", profile, 0);
      assert before + {} == before;
      for i := 0 to p.cold
        invariant Valid() && AddedTo(before, ScenarioTasks("cold", profile, i))
        invariant ColdOk(ScenarioTasks("cold", profile, i))
      {
        assert Planned(c, p, Task("cold", Some(profile), i));
        MoreScenarioTasks("cold", profile, i);
        var good := RunColdScenario(profile, i, before);
        if !good {
          return false;
        }
      }
      return true;
    }

    method RunColdScenarios() returns (ok: bool)
      requires Valid() && AllAt(ColdIdentities(p.cold)) && ColdOk(ColdIdentities(p.cold))
      modifies this
      ensures Valid()
      ensures ok ==> AllAt(ColdTasks(c.profiles, p.cold)) && ColdOk(ColdTasks(c.profiles, p.cold))
      ensures !ok ==> exists t :: Planned(c, p, t) && t.cache == "cold" && !ColdReportOk(test, runner, t)
    {
      assert c.profiles[..0] == [] && ColdTasks([], p.cold) == ColdIdentities(p.cold);
      for m := 0 to |c.profiles|
        invariant Valid() && AllAt(ColdTasks(c.profiles[..m], p.cold)) && ColdOk(ColdTasks(c.profiles[..m], p.cold))
      {
        MoreColdTasks(c.profiles, p.cold, m);
        var good := RunColdProfile(c.profiles[m], ColdTasks(c.profiles[..m], p.cold));
        if !good {
          return false;
        }
      }
      assert c.profiles[..|c.profiles|] == c.profiles;
      return true;
    }

    // ---------- The warm loops ----------

    /** The disk side of `run_warm_iteration`: the roots of its scenarios. */
    method CreateWarm(i: nat)
      requires Valid() && i <= p.warm
      requires forall t | t in created :: t.cache == "warm" && t.profile.Some? ==> t.iteration != i
      modifies this`present, this`children, this`created
      ensures Valid() && created == old(created) + WarmTasks(c.profiles, i)
    {
      ghost var before := created;
      assert c.profiles[..0] == [];
      for m := 0 to |c.profiles|
        invariant Valid() && created == before + WarmTasks(c.profiles[..m], i)
      {
        MoreWarmTasks(c.profiles, i, m);
        Create(Task("warm", Some(c.profiles[m]), i));
      }
      assert c.profiles[..|c.profiles|] == c.profiles;
    }

    /** The length and inventory tests on what the warm runner returns. */
    method CheckInventory(i: nat, reports: seq<Report>) returns (ok: bool)
      ensures ok <==> |reports| == 1 + |c.profiles| && WarmInventoryOk(c, i, reports)
    {
      ok := |reports| == 1 + |c.profiles| && WarmInventoryOk(c, i, reports);
    }

    /** The warm-up: its reports are checked and their roots listed, but nothing is collected. */
    method WarmUp() returns (ok: bool)
      requires Valid() && AllAt(ColdTasks(c.profiles, p.cold))
      modifies this`present, this`children, this`cleanup, this`created, this`listed
      ensures Valid() && created == ColdTasks(c.profiles, p.cold) + WarmTasks(c.profiles, p.warm)
      ensures ok <==> WarmReportsOk(c, test, p.warm, runner.warm(p.warm))
      ensures ok ==> listed == ColdTasks(c.profiles, p.cold) + WarmTasks(c.profiles, p.warm)
    {
      CreateWarm(p.warm);
      NotAmongCold(c, p.cold, p.warm);
      ok := ListWarmUp(runner.warm(p.warm));
    }

    /** The loop over the reports of the warm-up. */
    method ListWarmUp(reports: seq<Report>) returns (ok: bool)
      requires Valid() && reports == runner.warm(p.warm) && NothingOf(listed, p.warm)
      modifies this`cleanup, this`listed
      ensures Valid() && (ok <==> WarmReportsOk(c, test, p.warm, reports))
      ensures ok ==> listed == old(listed) + WarmTasks(c.profiles, p.warm)
    {
      ok := CheckInventory(p.warm, reports);
      if !ok {
        return;
      }
      ghost var tasks, before := WarmList(c.profiles, p.warm), listed;
      WarmListIs(c.profiles, p.warm);
      assert tasks[..0] == [];
      for j := 0 to |reports|
        invariant Valid() && listed == before + RootsAmong(tasks[..j]) && ReportsOk(test, reports[..j])
      {
        var good := ListReport(reports, j, tasks, before);
        MoreReports(test, reports, j);
        if !good {
          return false;
        }
      }
      Whole(tasks);
      Whole(reports);
    }

    /** One report of the warm-up: its root is listed. */
    method ListReport(reports: seq<Report>, j: nat, ghost tasks: seq<Task>, ghost before: set<Task>) returns (ok: bool)
      requires Valid() && reports == runner.warm(p.warm) && WarmInventoryOk(c, p.warm, reports)
      requires tasks == WarmList(c.profiles, p.warm) && j < |reports| == |tasks| && Distinct(tasks)
      requires NothingOf(before, p.warm) && listed == before + RootsAmong(tasks[..j])
      modifies this`cleanup, this`listed
      ensures Valid() && (ok <==> WarmReportOk(test, reports[j]))
      ensures ok ==> listed == before + RootsAmong(tasks[..j + 1])
    {
      ok := WarmReportOk(test, reports[j]);
      WarmReportIs(c, p, runner, p.warm, j);
      NextRoot(tasks, j, p.warm, before, listed);
      if ok {
        ListRoot(reports[j], tasks[j]);
      }
    }

    /** One report of a measured warm iteration: collected, and its root listed. */
    method CollectReport(i: nat, r: Report, ghost j: nat, ghost tasks: seq<Task>, ghost gathered: set<Task>,
                         ghost before: set<Task>)
      returns (ok: bool)
      requires Valid() && j < |tasks| && Distinct(tasks) && NothingOf(gathered, i) && NothingOf(before, i)
      requires tasks[j] == Task("warm", r.child.profile, i) && Planned(c, p, tasks[j])
      requires r.childId == ChildId(tasks[j]) && r.child == observe(tasks[j])
      requires collected == gathered + Elements(tasks[..j]) && listed == before + RootsAmong(tasks[..j])
      modifies this`seen, this`ids, this`scs, this`collected, this`cleanup, this`listed
      ensures Valid() && (ok <==> WarmReportOk(test, r))
      ensures ok ==> collected == gathered + Elements(tasks[..j + 1]) && listed == before + RootsAmong(tasks[..j + 1])
    {
      NextCollected(tasks, j, i, gathered, collected);
      ok := Collect(r, r.childId, "warm", r.child.profile, i);
      if ok {
        NextRoot(tasks, j, i, before, listed);
        ListRoot(r, tasks[j]);
      }
    }

    /** What has been collected and listed before warm iteration `i`. */
    ghost predicate Before(i: nat)
      requires p.Valid()
      reads this`created, this`listed, this`collected
    {
      && created == ColdTasks(c.profiles, p.cold) + WarmTasks(c.profiles, p.warm) + WarmRoots(c.profiles, i)
      && listed == ColdTasks(c.profiles, p.cold) + WarmTasks(c.profiles, p.warm) + WarmRoots(c.profiles, i)
      && collected == ColdTasks(c.profiles, p.cold) + WarmInventories(c.profiles, i)
    }

    /** The reports of a measured warm iteration. */
    method CollectWarm(i: nat) returns (ok: bool)
      requires Valid() && i < p.warm && NothingOf(collected, i) && NothingOf(listed, i)
      modifies this`seen, this`ids, this`scs, this`collected, this`cleanup, this`listed
      ensures Valid() && (ok <==> WarmReportsOk(c, test, i, runner.warm(i)))
      ensures ok ==> collected == old(collected) + WarmInventory(c.profiles, i)
      ensures ok ==> listed == old(listed) + WarmTasks(c.profiles, i)
    {
      var reports := runner.warm(i);
      ok := CheckInventory(i, reports);
      if ok {
        ok := CollectReports(i, reports);
      }
    }

    method CollectReports(i: nat, reports: seq<Report>) returns (ok: bool)
      requires Valid() && i < p.warm && NothingOf(collected, i) && NothingOf(listed, i)
      requires reports == runner.warm(i) && |reports| == 1 + |c.profiles| && WarmInventoryOk(c, i, reports)
      modifies this`seen, this`ids, this`scs, this`collected, this`cleanup, this`listed
      ensures Valid() && (ok <==> ReportsOk(test, reports))
      ensures ok ==> collected == old(collected) + WarmInventory(c.profiles, i)
      ensures ok ==> listed == old(listed) + WarmTasks(c.profiles, i)
    {
      ghost var tasks, gathered, before := WarmList(c.profiles, i), collected, listed;
      WarmListIs(c.profiles, i);
      assert tasks[..0] == [];
      for j := 0 to |reports|
        invariant Valid() && ReportsOk(test, reports[..j])
        invariant collected == gathered + Elements(tasks[..j]) && listed == before + RootsAmong(tasks[..j])
      {
        WarmReportIs(c, p, runner, i, j);
        var good := CollectReport(i, reports[j], j, tasks, gathered, before);
        MoreReports(test, reports, j);
        if !good {
          return false;
        }
      }
      Whole(tasks);
      Whole(reports);
      return true;
    }

    /** One round of the measured warm loop. */
    method WarmIteration(i: nat) returns (ok: bool)
      requires Valid() && i < p.warm && Before(i)
      modifies this
      ensures Valid() && (ok <==> WarmReportsOk(c, test, i, runner.warm(i)))
      ensures ok ==> Before(i + 1)
    {
      ghost var roots, list, inventories := created, listed, collected;
      NotYetCreated(c.profiles, p.cold, p.warm, i);
      NotYetCollected(c.profiles, p.cold, i);
      CreateWarm(i);
      ok := CollectWarm(i);
      if ok {
        MoreWarmRoots(c.profiles, p.cold, p.warm, i, roots, created);
        MoreWarmRoots(c.profiles, p.cold, p.warm, i, list, listed);
        MoreCollected(c.profiles, p.cold, i, inventories);
      }
    }

    /** The first `i` warm iterations are done. */
    ghost predicate Round(i: nat)
      requires p.Valid()
      reads this`created, this`listed, this`collected
    {
      Before(i) && IterationsOk(c, test, runner, i)
    }

    method WarmRound(i: nat) returns (ok: bool)
      requires Valid() && i < p.warm && Round(i)
      modifies this
      ensures Valid()
      ensures ok ==> Round(i + 1)
      ensures !ok ==> !IterationsOk(c, test, runner, p.warm)
    {
      MoreIterations(c, test, runner, i, p.warm);
      ok := WarmIteration(i);
    }

    method RunWarm() returns (ok: bool)
      requires Valid() && Before(0)
      modifies this
      ensures Valid()
      ensures ok <==> IterationsOk(c, test, runner, p.warm)
      ensures ok ==> Before(p.warm)
    {
      for i := 0 to p.warm
        invariant Valid() && Round(i)
      {
        var good := WarmRound(i);
        if !good {
          return false;
        }
      }
      return true;
    }

    // ---------- Cleaning up ----------

    /** `_cleanup_run_children`: every listed root must still be there, and nothing else may be left. It succeeds
        exactly when the list holds the roots on disk, each once. */
    method Cleanup() returns (ok: bool)
      requires children != {} ==> present
      modifies this`present, this`children
      ensures ok <==> ListedOnDisk(cleanup, old(children), old(present))
      ensures ok ==> children == {} && !present
      ensures children <= old(children)
    {
      ghost var before := children;
      assert cleanup[..0] == [];
      for n := 0 to |cleanup|
        invariant Distinct(cleanup[..n]) && Elements(cleanup[..n]) <= before
        invariant children == before - Elements(cleanup[..n]) && present == old(present)
      {
        RemovesOne(cleanup, n, before);
        if cleanup[n] !in children {
          return false;
        }
        children := children - {cleanup[n]};
      }
      assert cleanup[..|cleanup|] == cleanup;
      assert before == children + Elements(cleanup);
      if present {
        if children != {} {
          return false;
        }
        present := false;
      }
      return true;
    }

    /** The cold loops. */
    method RunColdTasks() returns (ok: bool)
      requires Valid() && AllAt({})
      modifies this
      ensures Valid()
      ensures ok ==> AllAt(ColdTasks(c.profiles, p.cold))
      ensures ok ==> (GoodRun(c, p, test, runner) <==> IterationsOk(c, test, runner, p.warm + 1))
      ensures !ok ==> !GoodRun(c, p, test, runner)
    {
      ok := RunColdIdentities();
      if ok {
        ok := RunColdScenarios();
      }
      if ok {
        ColdIsGood(c, p, test, runner);
      } else {
        ghost var t :| Planned(c, p, t) && t.cache == "cold" && !ColdReportOk(test, runner, t);
        assert !GoodRun(c, p, test, runner);
      }
    }

    /** All loops over children, up to the flattening. */
    method RunChildren() returns (ok: bool)
      requires Valid() && AllAt({})
      modifies this
      ensures Valid() && (ok <==> GoodRun(c, p, test, runner))
      ensures ok ==> Before(p.warm)
    {
      MoreIterations(c, test, runner, p.warm, p.warm + 1);
      ok := RunColdTasks();
      if ok {
        ok := WarmUp();
      }
      if ok {
        NothingBefore(c.profiles);
        ok := RunWarm();
      }
    }

    /** `run_complete_benchmark` up to the flattening: it gets there exactly when every child and every warm iteration
        reports well and no authority is reused. Then the roots on disk are those of the planned tasks, the list holds
        each of them once, and both dictionaries are total. */
    method Gather() returns (ok: bool)
      requires Valid() && AllAt({})
      modifies this
      ensures ok <==> GoodRun(c, p, test, runner) && FreshRun(c, p, observe)
      ensures ok ==> children == RunRoots(c, p) && ListedOnDisk(cleanup, children, present)
      ensures ok ==> Total(c, p, ids, scs) && forall t | Measured(c, p, t) :: Filed(observe, ids, scs, t)
    {
      ok := RunChildren();
      if ok {
        AllMeasured(c, p, collected, observe, ids, scs);
        FreshMeansFresh(c, p, collected, observe, ids, scs);
        ok := FreshAuthority(scs);
      }
    }
  }

  lemma Whole<T>(s: seq<T>)
    ensures s[..|s|] == s
  {
  }

  lemma NothingBefore(profiles: seq<string>)
    ensures WarmInventories(profiles, 0) == {} && WarmRoots(profiles, 0) == {}
  {
  }

  lemma NextCollected(tasks: seq<Task>, j: nat, i: nat, before: set<Task>, now: set<Task>)
    requires Distinct(tasks) && j < |tasks| && NothingOf(before, i) && now == before + Elements(tasks[..j])
    requires tasks[j].cache == "warm" && tasks[j].iteration == i
    ensures tasks[j] !in now && now + {tasks[j]} == before + Elements(tasks[..j + 1])
  {
    NextElement(tasks, j);
  }

  lemma NextRoot(tasks: seq<Task>, j: nat, i: nat, before: set<Task>, now: set<Task>)
    requires Distinct(tasks) && j < |tasks| && NothingOf(before, i) && now == before + RootsAmong(tasks[..j])
    requires tasks[j].cache == "warm" && tasks[j].iteration == i
    ensures tasks[j] !in now
    ensures (if tasks[j].profile.Some? then now + {tasks[j]} else now) == before + RootsAmong(tasks[..j + 1])
  {
    NextElement(tasks, j);
  }

  /** When all cold tasks report well, the rest depends on the warm ones. */
  lemma ColdIsGood(c: Contract, p: Protocol, test: Test, runner: Runner)
    requires p.Valid() && c.Valid() && forall t | t in ColdTasks(c.profiles, p.cold) :: ColdReportOk(test, runner, t)
    ensures GoodRun(c, p, test, runner) <==> IterationsOk(c, test, runner, p.warm + 1)
  {
    forall t | Planned(c, p, t) && t.cache == "cold"
      ensures ColdReportOk(test, runner, t)
    {
      InTasks(c.profiles, p.cold, 0, t);
    }
  }

  /** No task of the warm iteration is among these. */
  ghost predicate NothingOf(tasks: set<Task>, i: nat) {
    forall t | t in tasks :: !(t.cache == "warm" && t.iteration == i)
  }

  lemma NotAmongCold(c: Contract, cold: nat, i: nat)
    ensures NothingOf(ColdTasks(c.profiles, cold), i)
  {
  }

  lemma NotYetCollected(profiles: seq<string>, cold: nat, i: nat)
    ensures NothingOf(ColdTasks(profiles, cold) + WarmInventories(profiles, i), i)
  {
    MoreInventories(profiles, i);
  }

  predicate ReportsOk(test: Test, reports: seq<Report>) {
    forall j | 0 <= j < |reports| :: WarmReportOk(test, reports[j])
  }

  lemma MoreReports(test: Test, reports: seq<Report>, j: nat)
    requires j < |reports|
    ensures ReportsOk(test, reports[..j + 1]) <==> ReportsOk(test, reports[..j]) && WarmReportOk(test, reports[j])
    ensures ReportsOk(test, reports) ==> WarmReportOk(test, reports[j])
  {
    assert reports[..j + 1] == reports[..j] + [reports[j]];
  }

  ghost predicate IterationsOk(c: Contract, test: Test, runner: Runner, n: nat) {
    forall i: nat | i < n :: WarmReportsOk(c, test, i, runner.warm(i))
  }

  lemma MoreIterations(c: Contract, test: Test, runner: Runner, i: nat, n: nat)
    requires i < n
    ensures IterationsOk(c, test, runner, i + 1) <==>
            IterationsOk(c, test, runner, i) && WarmReportsOk(c, test, i, runner.warm(i))
    ensures IterationsOk(c, test, runner, n) ==> WarmReportsOk(c, test, i, runner.warm(i))
  {
  }

  /** Removing the next listed root. */
  lemma RemovesOne(ids: seq<string>, n: nat, children: set<string>)
    requires n < |ids| && Distinct(ids[..n]) && Elements(ids[..n]) <= children
    ensures Elements(ids[..n + 1]) == Elements(ids[..n]) + {ids[n]}
    ensures ids[n] in children - Elements(ids[..n]) <==> Distinct(ids[..n + 1]) && Elements(ids[..n + 1]) <= children
    ensures Distinct(ids) && Elements(ids) == children ==> Distinct(ids[..n + 1]) && Elements(ids[..n + 1]) <= children
  {
    assert ids[..n + 1] == ids[..n] + [ids[n]];
    if ids[n] in ids[..n] {
      var k :| 0 <= k < n && ids[..n][k] == ids[n];
      assert ids[..n + 1][k] == ids[..n + 1][n];
    }
  }

  // ---------- What was filed ----------

  /** The observation of the task is under its key. */
  ghost predicate Filed(observe: Task -> Child, ids: Identities, scs: Scenarios, t: Task) {
    match t.profile
    case None => Identity(ids, t.cache, t.iteration) == observe(t)
    case Some(profile) => Scenario(scs, t.cache, profile, t.iteration) == observe(t)
  }

  lemma MeasuredIsFiled(c: Contract, p: Protocol, collected: set<Task>, observe: Task -> Child, ids: Identities,
                        scs: Scenarios, t: Task)
    requires p.Valid() && Recorded(collected, observe, ids, scs) && Measured(c, p, t)
    requires collected == ColdTasks(c.profiles, p.cold) + WarmInventories(c.profiles, p.warm)
    ensures t in collected && Filed(observe, ids, scs, t)
    ensures match t.profile
            case None => (t.cache, t.iteration) in ids
            case Some(profile) => (t.cache, profile, t.iteration) in scs
  {
    InTasks(c.profiles, p.cold, p.warm, t);
  }

  lemma AllMeasured(c: Contract, p: Protocol, collected: set<Task>, observe: Task -> Child, ids: Identities,
                    scs: Scenarios)
    requires c.Valid() && p.Valid() && Recorded(collected, observe, ids, scs)
    requires collected == ColdTasks(c.profiles, p.cold) + WarmInventories(c.profiles, p.warm)
    ensures Total(c, p, ids, scs) && forall t | Measured(c, p, t) :: Filed(observe, ids, scs, t)
  {
    forall t | Measured(c, p, t)
      ensures Filed(observe, ids, scs, t)
    {
      MeasuredIsFiled(c, p, collected, observe, ids, scs, t);
    }
    forall cache, i: nat | cache in CACHES && i < p.Repetitions(cache)
      ensures (cache, i) in ids
    {
      MeasuredIsFiled(c, p, collected, observe, ids, scs, Task(cache, None, i));
    }
    forall cache, profile, i: nat | cache in CACHES && profile in c.profiles && i < p.Repetitions(cache)
      ensures (cache, profile, i) in scs
    {
      MeasuredIsFiled(c, p, collected, observe, ids, scs, Task(cache, Some(profile), i));
    }
  }

  /** The dictionary of scenarios holds the measured ones and nothing else. */
  lemma FreshMeansFresh(c: Contract, p: Protocol, collected: set<Task>, observe: Task -> Child, ids: Identities,
                        scs: Scenarios)
    requires c.Valid() && p.Valid() && Recorded(collected, observe, ids, scs)
    requires collected == ColdTasks(c.profiles, p.cold) + WarmInventories(c.profiles, p.warm)
    ensures FreshOn(scs, scs.Keys) <==> FreshRun(c, p, observe)
  {
    forall t: Task | t.profile.Some?
      ensures Measured(c, p, t) <==> t in collected
    {
      InTasks(c.profiles, p.cold, p.warm, t);
    }
    if FreshOn(scs, scs.Keys) {
      forall t, u | Measured(c, p, t) && Measured(c, p, u) && t.profile.Some? && u.profile.Some?
        ensures Distinct(observe(t).authority) && (t != u ==> NoneShared(observe(t).authority, observe(u).authority))
      {
        var key := (t.cache, t.profile.value, t.iteration);
        var other := (u.cache, u.profile.value, u.iteration);
        assert scs[key] == observe(t) && scs[other] == observe(u);
        assert t != u ==> key != other;
      }
    }
    if FreshRun(c, p, observe) {
      forall key, other | key in scs.Keys && other in scs.Keys
        ensures Distinct(scs[key].authority) && (key != other ==> NoneShared(scs[key].authority, scs[other].authority))
      {
        var t, u := Task(key.0, Some(key.1), key.2), Task(other.0, Some(other.1), other.2);
        assert t in collected && u in collected && scs[key] == observe(t) && scs[other] == observe(u);
      }
    }
  }

  /** What a good run has observed for a planned task. */
  lemma GoodObservation(c: Contract, p: Protocol, runner: Runner, t: Task)
    requires c.Valid() && p.Valid() && GoodRun(c, p, CollectTest(c), runner) && Planned(c, p, t)
    ensures var o := Observed(runner)(t);
            && ObservationOk(o, c) && o.cacheState == t.cache && o.profile == t.profile
            && (t.profile.None? ==> Map(SpanName, o.acknowledgements) == c.actions)
  {
    if t.cache == "cold" {
      assert ColdReportOk(CollectTest(c), runner, t);
    } else {
      var reports, tasks := runner.warm(t.iteration), WarmList(c.profiles, t.iteration);
      assert WarmReportsOk(c, CollectTest(c), t.iteration, reports);
      WarmListIs(c.profiles, t.iteration);
      InTasks(c.profiles, 0, t.iteration, t);
      assert t in Elements(tasks);
      var j :| 0 <= j < |tasks| && tasks[j] == t;
      WarmReportIs(c, p, runner, t.iteration, j);
      assert WarmReportOk(CollectTest(c), reports[j]);
    }
  }
}
