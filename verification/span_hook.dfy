/** The span hook as the object it is, and the scripts of a profile scenario. */
module SpanHook {
  import opened Wrappers
  import opened ChildObservations
  import opened Spans

  class ProductSpanHook {
    const clock: Clock
    const poison: Option<string>
    var tick: nat
    var prefix: string
    var started: map<Key, int>
    var components: seq<Span>

    constructor (clock: Clock, poison: Option<string>)
      ensures this.clock == clock && this.poison == poison
      ensures Now() == State(0, "initial", map[], [])
    {
      this.clock, this.poison := clock, poison;
      tick, prefix, started, components := 0, "initial", map[], [];
    }

    function Now(): State
      reads this
    {
      State(tick, prefix, started, components)
    }

    method Timer() returns (t: int)
      modifies this`tick
      ensures t == clock(old(tick)) && tick == old(tick) + 1
    {
      t := clock(tick);
      tick := tick + 1;
    }

    method SetPrefix(prefix: string)
      modifies this`prefix
      ensures this.prefix == prefix
    {
      this.prefix := prefix;
    }

    /** `__call__`. */
    method Call(stage: string) returns (ok: bool)
      modifies this
      ensures ok <==> Hook(clock, poison, old(Now()), stage).Some?
      ensures ok ==> Now() == Hook(clock, poison, old(Now()), stage).value
    {
      if poison == Some(stage) {
        return false;
      }
      var begin := BeginOf(stage);
      if begin.Some? {
        var key := (prefix, begin.value);
        if key in started {
          return false;
        }
        var now := Timer();
        started := started[key := now];
        return true;
      }
      var end := EndOf(stage);
      if end.None? {
        return true;
      }
      var key := (prefix, end.value);
      if key !in started {
        return false;
      }
      var begun := started[key];
      started := started - {key};
      var now := Timer();
      if now <= begun {
        return false;
      }
      components := components + [(Dotted(prefix, end.value), now - begun)];
      return true;
    }

    /** The product's hook stages and the nested calls of `_timed_component`. */
    method Run(script: Script) returns (ok: bool)
      modifies this
      ensures ok <==> Exec(clock, poison, old(Now()), script).Some?
      ensures ok ==> Now() == Exec(clock, poison, old(Now()), script).value
      decreases script
    {
      match script
      case Done => return true;
      case HookThen(stage, rest) =>
        ok := Call(stage);
        if ok {
          ok := Run(rest);
        }
      case TimedThen(component, body, rest) =>
        ghost var first := tick;
        var begun := Timer();
        ok := Run(body);
        if !ok {
          return;
        }
        ghost var ended := Now();
        var now := Timer();
        if now <= begun {
          return false;
        }
        if component.Some? {
          components := components + [(component.value, now - begun)];
        }
        assert ended.components + [] == ended.components;
        assert Close(clock, ended, component, first) == Some(Now());
        ok := Run(rest);
    }

    /** One measured wait. */
    method MeasureWait(prefix: string, script: Script) returns (r: Option<int>)
      modifies this
      ensures r.Some? <==> Wait(clock, poison, old(Now()), prefix, script).Some?
      ensures r.Some? ==> Wait(clock, poison, old(Now()), prefix, script) == Some((Now(), r.value))
    {
      var begun := Timer();
      SetPrefix(prefix);
      var ok := Run(script);
      if !ok {
        return None;
      }
      var now := Timer();
      return if now <= begun then None else Some(now - begun);
    }

    /** The waits of `run_profile_scenario`: the initial decision, then the later rounds. */
    method RunScenario(initial: Script, rounds: seq<Script>) returns (r: Option<(int, seq<(nat, int)>)>)
      modifies this
      ensures r.Some? <==> Scenario(clock, poison, old(Now()), initial, rounds).Some?
      ensures r.Some? ==>
                Scenario(clock, poison, old(Now()), initial, rounds) == Some(Waits(Now(), r.value.0, r.value.1))
    {
      var first := MeasureWait("initial", initial);
      if first.None? {
        return None;
      }
      ghost var begun := Now();
      var later: seq<(nat, int)> := [];
      for n := 0 to |rounds|
        invariant LaterWaits(clock, poison, begun, rounds[..n]) == Some((Now(), later))
      {
        RoundStep(clock, poison, begun, rounds, n);
        var duration := MeasureWait(LaterWait(n + 1), rounds[n]);
        if duration.None? {
          return None;
        }
        later := later + [(n + 1, duration.value)];
      }
      assert rounds[..|rounds|] == rounds;
      return Some((first.value, later));
    }
  }

  lemma {:induction false} RoundPrefixFails(clock: Clock, poison: Option<string>, s: State, rounds: seq<Script>, n: nat)
    requires n <= |rounds| && LaterWaits(clock, poison, s, rounds[..n]).None?
    ensures LaterWaits(clock, poison, s, rounds).None?
    decreases |rounds|
  {
    if n < |rounds| {
      var front := rounds[..|rounds| - 1];
      assert front[..n] == rounds[..n];
      RoundPrefixFails(clock, poison, s, front, n);
    } else {
      assert rounds[..n] == rounds;
    }
  }

  lemma RoundStep(clock: Clock, poison: Option<string>, s: State, rounds: seq<Script>, n: nat)
    requires n < |rounds| && LaterWaits(clock, poison, s, rounds[..n]).Some?
    ensures var (t, later) := LaterWaits(clock, poison, s, rounds[..n]).value;
            match Wait(clock, poison, t, LaterWait(n + 1), rounds[n])
            case None => LaterWaits(clock, poison, s, rounds).None?
            case Some((u, duration)) =>
              LaterWaits(clock, poison, s, rounds[..n + 1]) == Some((u, later + [(n + 1, duration)]))
  {
    var (t, later) := LaterWaits(clock, poison, s, rounds[..n]).value;
    assert rounds[..n + 1][..n] == rounds[..n] && rounds[..n + 1][n] == rounds[n];
    if Wait(clock, poison, t, LaterWait(n + 1), rounds[n]).None? {
      RoundPrefixFails(clock, poison, s, rounds, n + 1);
    }
  }

  // ---------- The scripts of `run_profile_scenario` ----------

  /** Hook stages and nothing else. */
  predicate HooksOnly(script: Script) {
    match script
    case Done => true
    case HookThen(_, rest) => HooksOnly(rest)
    case TimedThen(_, _, _) => false
  }

  /** `_project_record`: with a ready candidate, the handoff and the preflight run inside the projection. */
  function Projection(p: string, ready: bool): Script {
    TimedThen(Some(Dotted(p, "projection")),
              if ready then TimedThen(Some(Dotted(p, "handoff")), Done,
                                      TimedThen(Some(Dotted(p, "preflight")), Done, Done))
              else Done,
              Done)
  }

  function InitialScript(session: Script, commit: Script, ready: bool): Script {
    TimedThen(Some(Dotted("initial", "task_session")), session,
              TimedThen(Some(Dotted("initial", "request_build")), Done,
                        TimedThen(None, commit, Projection("initial", ready))))
  }

  function LaterScript(k: nat, commit: Script, ready: bool): Script {
    TimedThen(Some(Dotted(LaterWait(k), "answer_build")), Done,
              TimedThen(None, commit, Projection(LaterWait(k), ready)))
  }

  lemma {:induction false} HooksAreWellNamed(p: string, script: Script)
    requires HooksOnly(script)
    ensures WellNamed(p, script)
    decreases script
  {
    if script.HookThen? {
      HooksAreWellNamed(p, script.rest);
    }
  }

  lemma DottedPrefix(p: string, name: string)
    ensures Dotted(p, "") <= Dotted(p, name)
  {
    assert Dotted(p, name) == Dotted(p, "") + name;
  }

  lemma ProjectionIsWellNamed(p: string, ready: bool)
    ensures WellNamed(p, Projection(p, ready))
  {
    DottedPrefix(p, "projection");
    DottedPrefix(p, "handoff");
    DottedPrefix(p, "preflight");
  }

  /** The scripts a scenario runs are named for their waits, whatever stages the product fires. */
  lemma ScriptsAreWellNamed(session: Script, commit: Script, k: nat, ready: bool)
    requires HooksOnly(session) && HooksOnly(commit)
    ensures WellNamed("initial", InitialScript(session, commit, ready))
    ensures WellNamed(LaterWait(k), LaterScript(k, commit, ready))
  {
    HooksAreWellNamed("initial", session);
    HooksAreWellNamed("initial", commit);
    HooksAreWellNamed(LaterWait(k), commit);
    ProjectionIsWellNamed("initial", ready);
    ProjectionIsWellNamed(LaterWait(k), ready);
    DottedPrefix("initial", "task_session");
    DottedPrefix("initial", "request_build");
    DottedPrefix(LaterWait(k), "answer_build");
  }
}
