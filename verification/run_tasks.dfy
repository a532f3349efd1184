/** The tasks of a complete run, their child IDs, and the sets of tasks its loops go through. */
module RunTasks {
  import opened Wrappers
  import opened Text
  import opened Sorting
  import opened Paths
  import opened BenchmarkContract
  import opened ObservationIds
  import opened ChildObservations

  /** One child: an identity sample or the scenario of a profile, in one iteration of one cache state. */
  datatype Task = Task(cache: string, profile: Option<string>, iteration: nat)

  function ChildId(t: Task): string {
    Join([t.cache, StratumName(t.profile), Pad2(t.iteration)], '-')
  }

  /** The pattern of child IDs, `[a-z0-9][a-z0-9_-]{0,127}`. */
  predicate IsChildId(s: string) {
    && StartsClosed(s) && |s| <= 128
    && forall i | 0 <= i < |s| :: IsWordChar(s[i]) || s[i] == '-'
  }

  const MAX_NAME: nat := 100

  /** The tasks of a run: every cold one, and the warm ones with the warm-up after the last iteration. */
  ghost predicate Planned(c: Contract, p: Protocol, t: Task)
    requires p.Valid()
  {
    && (t.profile.Some? ==> t.profile.value in c.profiles)
    && ((t.cache == "cold" && t.iteration < p.cold) || (t.cache == "warm" && t.iteration <= p.warm))
  }

  // ---------- Child IDs ----------

  function PowerOfTen(k: nat): nat {
    if k == 0 then 1 else 10 * PowerOfTen(k - 1)
  }

  lemma {:induction false} DecimalIsShort(n: nat, k: nat)
    requires k >= 1 && n < PowerOfTen(k)
    ensures |Decimal(n)| <= k
    decreases k
  {
    if n >= 10 {
      assert PowerOfTen(1) == 10;
      DecimalIsShort(n / 10, k - 1);
    }
  }

  lemma IterationIsShort(n: nat)
    requires n <= MAX_SAFE_INTEGER
    ensures |Pad2(n)| <= 16
  {
    assert PowerOfTen(4) == 10_000;
    assert PowerOfTen(8) == 100_000_000;
    assert PowerOfTen(12) == 1_000_000_000_000;
    assert PowerOfTen(16) == 10_000_000_000_000_000;
    DecimalIsShort(n, 16);
    if n < 10 {
      assert |Decimal(n)| == 1;
    }
  }

  lemma AvoidsDash(s: string)
    requires IsWord(s)
    ensures Avoids(s, '-')
  {
    assert !IsWordChar('-');
  }

  lemma PartsAreWords(c: Contract, p: Protocol, t: Task)
    requires c.Valid() && p.Valid() && Planned(c, p, t)
    ensures IsWord(t.cache) && IsWord(StratumName(t.profile)) && IsWord(Pad2(t.iteration))
    ensures t.profile.Some? ==> t.profile.value != "identity"
    ensures t.iteration <= MAX_SAFE_INTEGER
  {
    DigitsAreWord(Pad2(t.iteration));
    if t.profile.Some? {
      NamesAreWords(c.profiles, t.profile.value);
    }
    assert IsWord("cold") && IsWord("warm") && IsWord("identity");
  }

  lemma JoinedWith(a: string, b: string, d: string)
    ensures Join([a, b, d], '-') == a + "-" + b + "-" + d
  {
    assert [a, b, d][1..] == [b, d] && [b, d][1..] == [d];
    assert Join([d], '-') == d && Join([b, d], '-') == b + ['-'] + d;
  }

  /** Every planned task has an acceptable child ID. */
  lemma ChildIdIsAccepted(c: Contract, p: Protocol, t: Task)
    requires c.Valid() && p.Valid() && Planned(c, p, t) && ShortNames(c)
    ensures IsChildId(ChildId(t))
  {
    PartsAreWords(c, p, t);
    IterationIsShort(t.iteration);
    JoinedWith(t.cache, StratumName(t.profile), Pad2(t.iteration));
  }

  ghost predicate ShortNames(c: Contract) {
    forall profile | profile in c.profiles :: |profile| <= MAX_NAME
  }

  /** Different tasks have different child IDs. */
  lemma ChildIdIsUnique(c: Contract, p: Protocol, t: Task, u: Task)
    requires c.Valid() && p.Valid() && Planned(c, p, t) && Planned(c, p, u) && ChildId(t) == ChildId(u)
    ensures t == u
  {
    PartsAreWords(c, p, t);
    PartsAreWords(c, p, u);
    var a := [t.cache, StratumName(t.profile), Pad2(t.iteration)];
    var b := [u.cache, StratumName(u.profile), Pad2(u.iteration)];
    forall i | 0 <= i < 3
      ensures Avoids(a[i], '-') && Avoids(b[i], '-')
    {
      AvoidsDash(a[i]);
      AvoidsDash(b[i]);
    }
    SplitJoin(a, '-');
    SplitJoin(b, '-');
    assert a[0] == b[0] && a[1] == b[1] && a[2] == b[2];
    Pad2Injective(t.iteration, u.iteration);
  }

  function Ids(tasks: set<Task>): set<string> {
    set t | t in tasks :: ChildId(t)
  }

  lemma FreshTaskFreshId(c: Contract, p: Protocol, tasks: set<Task>, t: Task)
    requires c.Valid() && p.Valid() && Planned(c, p, t) && t !in tasks
    requires forall u | u in tasks :: Planned(c, p, u)
    ensures ChildId(t) !in Ids(tasks) && Ids(tasks + {t}) == Ids(tasks) + {ChildId(t)}
  {
    forall u | u in tasks
      ensures ChildId(u) != ChildId(t)
    {
      if ChildId(u) == ChildId(t) {
        ChildIdIsUnique(c, p, u, t);
      }
    }
  }

  // ---------- The tasks of one warm iteration, in order ----------

  function WarmScenario(i: nat): string -> Task {
    profile => Task("warm", Some(profile), i)
  }

  /** In the order of `run_warm_iteration`. */
  function WarmList(profiles: seq<string>, i: nat): seq<Task> {
    [Task("warm", None, i)] + Map(WarmScenario(i), profiles)
  }

  function Elements<T>(s: seq<T>): set<T> {
    set x | x in s
  }

  /** Those of them that have a child root. */
  function RootsAmong(tasks: seq<Task>): set<Task> {
    set t | t in tasks && t.profile.Some?
  }

  lemma WarmListIs(profiles: seq<string>, i: nat)
    requires Distinct(profiles)
    ensures |WarmList(profiles, i)| == |profiles| + 1 && Distinct(WarmList(profiles, i))
    ensures Elements(WarmList(profiles, i)) == WarmInventory(profiles, i)
    ensures RootsAmong(WarmList(profiles, i)) == WarmTasks(profiles, i)
  {
    var tasks := WarmList(profiles, i);
    assert tasks[0] == Task("warm", None, i);
    assert forall k | 1 <= k < |tasks| :: tasks[k] == Task("warm", Some(profiles[k - 1]), i);
    forall t
      ensures t in tasks <==> t in WarmInventory(profiles, i)
    {
      if t in WarmTasks(profiles, i) {
        var k :| 0 <= k < |profiles| && t == Task("warm", Some(profiles[k]), i);
        assert tasks[k + 1] == t;
      }
    }
    assert RootsAmong(tasks) == WarmTasks(profiles, i);
  }

  lemma NextElement(tasks: seq<Task>, j: nat)
    requires Distinct(tasks) && j < |tasks|
    ensures tasks[j] !in tasks[..j]
    ensures Elements(tasks[..j + 1]) == Elements(tasks[..j]) + {tasks[j]}
    ensures RootsAmong(tasks[..j + 1]) == RootsAmong(tasks[..j]) + if tasks[j].profile.Some? then {tasks[j]} else {}
  {
    assert tasks[..j + 1] == tasks[..j] + [tasks[j]];
  }

  // ---------- Sets of tasks ----------

  ghost function ColdIdentities(n: nat): set<Task> {
    set i: nat | i < n :: Task("cold", None, i)
  }

  ghost function ScenarioTasks(cache: string, profile: string, n: nat): set<Task> {
    set i: nat | i < n :: Task(cache, Some(profile), i)
  }

  lemma MoreScenarioTasks(cache: string, profile: string, i: nat)
    ensures ScenarioTasks(cache, profile, 0) == {}
    ensures ScenarioTasks(cache, profile, i + 1) == ScenarioTasks(cache, profile, i) + {Task(cache, Some(profile), i)}
  {
  }

  lemma MoreColdIdentities(i: nat)
    ensures ColdIdentities(0) == {} && ColdIdentities(i + 1) == ColdIdentities(i) + {Task("cold", None, i)}
  {
  }

  ghost function ColdTasks(profiles: seq<string>, n: nat): set<Task> {
    ColdIdentities(n) + set profile, i: nat | profile in profiles && i < n :: Task("cold", Some(profile), i)
  }

  lemma MoreColdTasks(profiles: seq<string>, n: nat, m: nat)
    requires Distinct(profiles) && m < |profiles|
    ensures ColdTasks(profiles[..m + 1], n) == ColdTasks(profiles[..m], n) + ScenarioTasks("cold", profiles[m], n)
    ensures forall t | t in ColdTasks(profiles[..m], n) :: t.profile != Some(profiles[m])
  {
    assert profiles[..m + 1] == profiles[..m] + [profiles[m]];
    assert profiles[m] !in profiles[..m];
  }

  /** The scenario tasks of one warm iteration, which have roots; with its identity task it is the inventory. */
  ghost function WarmTasks(profiles: seq<string>, i: nat): set<Task> {
    set profile | profile in profiles :: Task("warm", Some(profile), i)
  }

  ghost function WarmInventory(profiles: seq<string>, i: nat): set<Task> {
    {Task("warm", None, i)} + WarmTasks(profiles, i)
  }

  ghost function WarmInventories(profiles: seq<string>, n: nat): set<Task> {
    (set i: nat | i < n :: Task("warm", None, i))
    + set profile, i: nat | profile in profiles && i < n :: Task("warm", Some(profile), i)
  }

  lemma MoreWarmTasks(profiles: seq<string>, i: nat, m: nat)
    requires Distinct(profiles) && m < |profiles|
    ensures WarmTasks(profiles[..m + 1], i) == WarmTasks(profiles[..m], i) + {Task("warm", Some(profiles[m]), i)}
    ensures Task("warm", Some(profiles[m]), i) !in WarmTasks(profiles[..m], i)
    ensures profiles[m] in profiles
  {
    assert profiles[..m + 1] == profiles[..m] + [profiles[m]];
    assert profiles[m] !in profiles[..m];
  }

  lemma MoreInventories(profiles: seq<string>, i: nat)
    ensures WarmInventories(profiles, i + 1) == WarmInventories(profiles, i) + WarmInventory(profiles, i)
    ensures forall t | t in WarmInventories(profiles, i) :: t.cache == "warm" && t.iteration < i
  {
    forall t
      ensures t in WarmInventories(profiles, i + 1) <==>
                t in WarmInventories(profiles, i) || t in WarmInventory(profiles, i)
    {
      InTasks(profiles, 0, i + 1, t);
      InTasks(profiles, 0, i, t);
    }
  }

  /** The scenario tasks of the first `n` warm iterations. */
  ghost function WarmRoots(profiles: seq<string>, n: nat): set<Task> {
    set profile, i: nat | profile in profiles && i < n :: Task("warm", Some(profile), i)
  }

  lemma MoreWarmRoots(profiles: seq<string>, cold: nat, warm: nat, i: nat, before: set<Task>, now: set<Task>)
    requires before == ColdTasks(profiles, cold) + WarmTasks(profiles, warm) + WarmRoots(profiles, i)
    requires now == before + WarmTasks(profiles, i)
    ensures now == ColdTasks(profiles, cold) + WarmTasks(profiles, warm) + WarmRoots(profiles, i + 1)
  {
    assert WarmRoots(profiles, i + 1) == WarmRoots(profiles, i) + WarmTasks(profiles, i);
  }

  lemma MoreCollected(profiles: seq<string>, cold: nat, i: nat, before: set<Task>)
    requires before == ColdTasks(profiles, cold) + WarmInventories(profiles, i)
    ensures before + WarmInventory(profiles, i) == ColdTasks(profiles, cold) + WarmInventories(profiles, i + 1)
  {
    MoreInventories(profiles, i);
  }

  lemma NotYetCreated(profiles: seq<string>, cold: nat, warm: nat, i: nat)
    requires i < warm
    ensures forall t | t in ColdTasks(profiles, cold) + WarmTasks(profiles, warm) + WarmRoots(profiles, i) ::
              !(t.cache == "warm" && t.iteration == i)
  {
  }

  /** The tasks that get a child root: the identity tasks of warm iterations run in the parent process. */
  ghost predicate Rooted(c: Contract, p: Protocol, t: Task)
    requires p.Valid()
  {
    Planned(c, p, t) && (t.cache == "warm" ==> t.profile.Some?)
  }

  /** The child roots that a whole run creates. */
  ghost function RunRoots(c: Contract, p: Protocol): set<string>
    requires p.Valid()
  {
    Ids(ColdTasks(c.profiles, p.cold) + WarmTasks(c.profiles, p.warm) + WarmRoots(c.profiles, p.warm))
  }

  /** They are the roots of these tasks. */
  lemma RootsOfRun(c: Contract, p: Protocol, id: string)
    requires c.Valid() && p.Valid()
    ensures id in RunRoots(c, p) <==> exists t :: Rooted(c, p, t) && id == ChildId(t)
  {
    var tasks := ColdTasks(c.profiles, p.cold) + WarmTasks(c.profiles, p.warm) + WarmRoots(c.profiles, p.warm);
    forall t
      ensures t in tasks <==> Rooted(c, p, t)
    {
      InRoots(c, p, t);
    }
  }

  lemma InRoots(c: Contract, p: Protocol, t: Task)
    requires c.Valid() && p.Valid()
    ensures Rooted(c, p, t) <==>
            t in ColdTasks(c.profiles, p.cold) + WarmTasks(c.profiles, p.warm) + WarmRoots(c.profiles, p.warm)
  {
    InTasks(c.profiles, p.cold, p.warm, t);
    match t.profile {
      case None =>
      case Some(profile) => assert t == Task(t.cache, Some(profile), t.iteration);
    }
  }

  /** What is measured: everything planned but the warm-up. */
  ghost predicate Measured(c: Contract, p: Protocol, t: Task)
    requires p.Valid()
  {
    Planned(c, p, t) && (t.cache == "warm" ==> t.iteration < p.warm)
  }

  /** The tasks gone through, set by set. */
  lemma InTasks(profiles: seq<string>, cold: nat, warm: nat, t: Task)
    ensures t in ColdTasks(profiles, cold) <==>
            t.cache == "cold" && t.iteration < cold && (t.profile.Some? ==> t.profile.value in profiles)
    ensures t in WarmInventories(profiles, warm) <==>
            t.cache == "warm" && t.iteration < warm && (t.profile.Some? ==> t.profile.value in profiles)
    ensures t in WarmInventory(profiles, warm) <==>
            t.cache == "warm" && t.iteration == warm && (t.profile.Some? ==> t.profile.value in profiles)
  {
    match t.profile {
      case None => assert t == Task(t.cache, None, t.iteration);
      case Some(profile) => assert t == Task(t.cache, Some(profile), t.iteration);
    }
  }

  lemma OfficeNamesAreShort()
    ensures ShortNames(OFFICE)
  {
  }
}
