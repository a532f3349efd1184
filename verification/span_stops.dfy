/** When the hook stops a run: begins and ends of each span alternate, and no stage is the poisoned one. */
module SpanStops {
  import opened Wrappers
  import opened Sequences
  import opened ChildObservations
  import opened Spans

  /** The hook stages of a script in the order in which they fire. */
  function Stages(script: Script): seq<string> {
    match script
    case Done => []
    case HookThen(stage, rest) => [stage] + Stages(rest)
    case TimedThen(_, body, rest) => Stages(body) + Stages(rest)
  }

  /** What a stage does to the span `name`: begin it (true), end it (false), or nothing. */
  function Event(name: string, stage: string): seq<bool> {
    if BeginOf(stage) == Some(name) then [true] else if EndOf(stage) == Some(name) then [false] else []
  }

  function Events(name: string, stages: seq<string>): seq<bool> {
    Flat(EventOf(name), stages)
  }

  function EventOf(name: string): string -> seq<bool> {
    stage => Event(name, stage)
  }

  /** Begins and ends take turns, the first being a begin unless the span is open. */
  predicate Alternates(events: seq<bool>, open: bool) {
    forall i | 0 <= i < |events| :: events[i] == (open == (i % 2 == 1))
  }

  predicate OpenAfter(events: seq<bool>, open: bool) {
    open == (|events| % 2 == 0)
  }

  ghost predicate Increasing(clock: Clock) {
    forall i: nat, j: nat :: i < j ==> clock(i) < clock(j)
  }

  /** The open spans of the current prefix were begun before now. */
  ghost predicate BegunBefore(clock: Clock, s: State) {
    forall key | key in s.started && key.0 == s.prefix :: s.started[key] < clock(s.tick)
  }

  predicate IsOpen(s: State, name: string) {
    (s.prefix, name) in s.started
  }

  predicate MatchedAt(s: State, stages: seq<string>, name: string) {
    Alternates(Events(name, stages), IsOpen(s, name))
  }

  /** For every span the stages begin and end it in turn, from where it stands. */
  ghost predicate Matched(s: State, stages: seq<string>) {
    forall name :: MatchedAt(s, stages, name)
  }

  predicate Unpoisoned(poison: Option<string>, stages: seq<string>) {
    poison.Some? ==> poison.value !in stages
  }

  predicate MovedAt(s: State, stages: seq<string>, t: State, name: string) {
    IsOpen(t, name) == OpenAfter(Events(name, stages), IsOpen(s, name))
  }

  /** Which spans are open after the stages. */
  ghost predicate Moved(s: State, stages: seq<string>, t: State) {
    t.prefix == s.prefix && s.tick <= t.tick && forall name :: MovedAt(s, stages, t, name)
  }

  // ---------- Sequences of events ----------

  lemma AlternatesConcat(a: seq<bool>, b: seq<bool>, open: bool)
    ensures Alternates(a + b, open) <==> Alternates(a, open) && Alternates(b, OpenAfter(a, open))
    ensures OpenAfter(a + b, open) == OpenAfter(b, OpenAfter(a, open))
  {
    if Alternates(a + b, open) {
      forall i | 0 <= i < |a|
        ensures a[i] == (open == (i % 2 == 1))
      {
        assert (a + b)[i] == a[i];
      }
      forall i | 0 <= i < |b|
        ensures b[i] == (OpenAfter(a, open) == (i % 2 == 1))
      {
        assert (a + b)[|a| + i] == b[i];
        Parity(|a|, i);
      }
    }
    if Alternates(a, open) && Alternates(b, OpenAfter(a, open)) {
      forall i | 0 <= i < |a + b|
        ensures (a + b)[i] == (open == (i % 2 == 1))
      {
        if i >= |a| {
          assert (a + b)[i] == b[i - |a|];
          Parity(|a|, i - |a|);
        }
      }
    }
    Parity(|a|, |b|);
  }

  lemma Parity(m: nat, n: nat)
    ensures ((m + n) % 2 == 0) <==> ((m % 2 == 0) == (n % 2 == 0))
  {
  }

  lemma EventsConcat(name: string, a: seq<string>, b: seq<string>)
    ensures Events(name, a + b) == Events(name, a) + Events(name, b)
  {
    FlatConcat(EventOf(name), a, b);
  }

  lemma AlternatesOne(event: bool, open: bool)
    ensures Alternates([event], open) <==> event == !open
  {
    assert [event][0] == event;
  }

  lemma EventsOne(name: string, stage: string)
    ensures Events(name, [stage]) == Event(name, stage)
  {
    FlatSingle(EventOf(name), stage);
  }

  /** Stages matched in two parts are matched as a whole. */
  lemma MatchedConcat(s: State, a: seq<string>, t: State, b: seq<string>)
    requires Moved(s, a, t)
    ensures Matched(s, a + b) <==> Matched(s, a) && Matched(t, b)
  {
    forall name
      ensures MatchedAt(s, a + b, name) <==> MatchedAt(s, a, name) && MatchedAt(t, b, name)
    {
      assert MovedAt(s, a, t, name);
      EventsConcat(name, a, b);
      AlternatesConcat(Events(name, a), Events(name, b), IsOpen(s, name));
    }
    if Matched(s, a) && Matched(t, b) {
      forall name
        ensures MatchedAt(s, a + b, name)
      {
        assert MatchedAt(s, a, name) && MatchedAt(t, b, name);
      }
    }
    if Matched(s, a + b) {
      forall name
        ensures MatchedAt(s, a, name) && MatchedAt(t, b, name)
      {
        assert MatchedAt(s, a + b, name);
      }
    }
  }

  lemma MatchedFront(s: State, a: seq<string>, b: seq<string>)
    ensures Matched(s, a + b) ==> Matched(s, a)
  {
    if Matched(s, a + b) {
      forall name
        ensures MatchedAt(s, a, name)
      {
        assert MatchedAt(s, a + b, name);
        EventsConcat(name, a, b);
        AlternatesConcat(Events(name, a), Events(name, b), IsOpen(s, name));
      }
    }
  }

  /** The stages neither fire the poisoned one nor leave the turn of any span. */
  ghost predicate Passes(poison: Option<string>, s: State, stages: seq<string>) {
    Unpoisoned(poison, stages) && Matched(s, stages)
  }

  lemma FrontPasses(poison: Option<string>, s: State, a: seq<string>, b: seq<string>)
    ensures Passes(poison, s, a + b) ==> Passes(poison, s, a)
  {
    MatchedFront(s, a, b);
  }

  lemma MovedConcat(s: State, a: seq<string>, t: State, b: seq<string>, u: State)
    requires Moved(s, a, t) && Moved(t, b, u)
    ensures Moved(s, a + b, u)
  {
    forall name
      ensures MovedAt(s, a + b, u, name)
    {
      assert MovedAt(s, a, t, name) && MovedAt(t, b, u, name);
      EventsConcat(name, a, b);
      AlternatesConcat(Events(name, a), Events(name, b), IsOpen(s, name));
    }
  }

  // ---------- One stage ----------

  /** The only span a stage can begin or end. */
  function SpanOf(stage: string): Option<string> {
    if BeginOf(stage).Some? then BeginOf(stage) else EndOf(stage)
  }

  lemma StageMatched(s: State, stage: string)
    ensures Matched(s, [stage]) <==>
            && (BeginOf(stage).Some? ==> !IsOpen(s, BeginOf(stage).value))
            && (EndOf(stage).Some? ==> IsOpen(s, EndOf(stage).value))
  {
    NoStageIsBoth(stage);
    forall name
      ensures MatchedAt(s, [stage], name) <==>
              (BeginOf(stage) == Some(name) ==> !IsOpen(s, name)) && (EndOf(stage) == Some(name) ==> IsOpen(s, name))
    {
      EventsOne(name, stage);
      AlternatesOne(true, IsOpen(s, name));
      AlternatesOne(false, IsOpen(s, name));
    }
    if Matched(s, [stage]) && SpanOf(stage).Some? {
      assert MatchedAt(s, [stage], SpanOf(stage).value);
    }
  }

  lemma StageMoved(clock: Clock, poison: Option<string>, s: State, stage: string)
    requires Hook(clock, poison, s, stage).Some?
    ensures Moved(s, [stage], Hook(clock, poison, s, stage).value)
  {
    NoStageIsBoth(stage);
    var t := Hook(clock, poison, s, stage).value;
    forall name
      ensures MovedAt(s, [stage], t, name)
    {
      EventsOne(name, stage);
    }
  }

  lemma StageStops(clock: Clock, poison: Option<string>, s: State, stage: string)
    requires Increasing(clock) && BegunBefore(clock, s)
    ensures Outcome(clock, poison, s, [stage], Hook(clock, poison, s, stage))
  {
    if Hook(clock, poison, s, stage).Some? {
      StageMoved(clock, poison, s, stage);
    }
    StageMatched(s, stage);
    NoStageIsBoth(stage);
    assert clock(s.tick) < clock(s.tick + 1);
    assert EndOf(stage).Some? && IsOpen(s, EndOf(stage).value) ==>
             s.started[(s.prefix, EndOf(stage).value)] < clock(s.tick);
  }

  lemma BegunBeforeLater(clock: Clock, s: State, t: State)
    requires Increasing(clock) && BegunBefore(clock, s)
    requires t.started == s.started && t.prefix == s.prefix && s.tick <= t.tick
    ensures BegunBefore(clock, t)
  {
    assert s.tick < t.tick ==> clock(s.tick) < clock(t.tick);
  }

  lemma NothingRuns(clock: Clock, poison: Option<string>, s: State)
    requires BegunBefore(clock, s)
    ensures Outcome(clock, poison, s, [], Some(s))
  {
    forall name
      ensures MovedAt(s, [], s, name) && MatchedAt(s, [], name)
    {
    }
  }

  lemma LaterTick(clock: Clock, s: State, t: State)
    requires Increasing(clock) && BegunBefore(clock, s)
    requires t.started == s.started && t.prefix == s.prefix && s.tick <= t.tick
    ensures BegunBefore(clock, t) && Moved(s, [], t)
    ensures forall stages :: Matched(s, stages) <==> Matched(t, stages)
  {
    BegunBeforeLater(clock, s, t);
    forall name
      ensures MovedAt(s, [], t, name)
    {
    }
    forall stages
      ensures Matched(s, stages) <==> Matched(t, stages)
    {
      assert forall name :: MatchedAt(s, stages, name) == MatchedAt(t, stages, name);
    }
  }

  // ---------- Any script ----------

  /** `end` is how a run of the stages from `s` ends. */
  ghost predicate Outcome(clock: Clock, poison: Option<string>, s: State, stages: seq<string>, end: Option<State>) {
    && (end.Some? <==> Passes(poison, s, stages))
    && (end.Some? ==> Moved(s, stages, end.value) && BegunBefore(clock, end.value))
  }

  lemma HookThenStops(clock: Clock, poison: Option<string>, s: State, stage: string, rest: Script)
    requires Outcome(clock, poison, s, [stage], Hook(clock, poison, s, stage))
    requires var step := Hook(clock, poison, s, stage);
             step.Some? ==> Outcome(clock, poison, step.value, Stages(rest), Exec(clock, poison, step.value, rest))
    ensures var script := HookThen(stage, rest);
            Outcome(clock, poison, s, Stages(script), Exec(clock, poison, s, script))
  {
    var script := HookThen(stage, rest);
    Sequence(clock, poison, s, [stage], Hook(clock, poison, s, stage), Stages(rest), Exec(clock, poison, s, script));
  }

  lemma TimedThenStops(clock: Clock, poison: Option<string>, s: State, component: Option<string>, body: Script,
                       rest: Script)
    requires var step := Closed(clock, Exec(clock, poison, s.(tick := s.tick + 1), body), component, s.tick);
             && Outcome(clock, poison, s, Stages(body), step)
             && (step.Some? ==> Outcome(clock, poison, step.value, Stages(rest), Exec(clock, poison, step.value, rest)))
    ensures var script := TimedThen(component, body, rest);
            Outcome(clock, poison, s, Stages(script), Exec(clock, poison, s, script))
  {
    var script := TimedThen(component, body, rest);
    var step := Closed(clock, Exec(clock, poison, s.(tick := s.tick + 1), body), component, s.tick);
    Sequence(clock, poison, s, Stages(body), step, Stages(rest), Exec(clock, poison, s, script));
  }

  /** With a timer that always moves, a script runs to its end if and only if no stage is the poisoned one and every
      span is begun and ended in turn: a repeated begin or an unmatched end stops the run, and nothing else does. */
  lemma {:induction false} ExecStops(clock: Clock, poison: Option<string>, s: State, script: Script)
    requires Increasing(clock) && BegunBefore(clock, s)
    ensures Outcome(clock, poison, s, Stages(script), Exec(clock, poison, s, script))
    decreases script
  {
    match script
    case Done =>
      NothingRuns(clock, poison, s);
    case HookThen(stage, rest) =>
      var step := Hook(clock, poison, s, stage);
      StageStops(clock, poison, s, stage);
      if step.Some? {
        ExecStops(clock, poison, step.value, rest);
      }
      HookThenStops(clock, poison, s, stage, rest);
    case TimedThen(component, body, rest) =>
      var s1 := s.(tick := s.tick + 1);
      BegunBeforeLater(clock, s, s1);
      ExecStops(clock, poison, s1, body);
      var step := Closed(clock, Exec(clock, poison, s1, body), component, s.tick);
      TimedStops(clock, poison, s, Stages(body), Exec(clock, poison, s1, body), component);
      if step.Some? {
        ExecStops(clock, poison, step.value, rest);
      }
      TimedThenStops(clock, poison, s, component, body, rest);
  }

  /** The end of a timed component, if its body has come to its end. */
  function Closed(clock: Clock, ran: Option<State>, component: Option<string>, started: nat): Option<State> {
    match ran
    case None => None
    case Some(t) => Close(clock, t, component, started)
  }

  lemma TimedStops(clock: Clock, poison: Option<string>, s: State, stages: seq<string>, ran: Option<State>,
                   component: Option<string>)
    requires Increasing(clock) && BegunBefore(clock, s) && Outcome(clock, poison, s.(tick := s.tick + 1), stages, ran)
    ensures Outcome(clock, poison, s, stages, Closed(clock, ran, component, s.tick))
  {
    var s1 := s.(tick := s.tick + 1);
    LaterTick(clock, s, s1);
    assert Matched(s, stages) <==> Matched(s1, stages);
    if ran.Some? {
      Closes(clock, s, s1, stages, ran.value, component);
    }
  }

  /** With a timer that moves a timed component always comes to its end, and the spans stay as they are. */
  lemma Closes(clock: Clock, s: State, s1: State, stages: seq<string>, t: State, component: Option<string>)
    requires Increasing(clock) && s1 == s.(tick := s.tick + 1) && Moved(s1, stages, t) && BegunBefore(clock, t)
    ensures Close(clock, t, component, s.tick).Some?
    ensures var u := Close(clock, t, component, s.tick).value; BegunBefore(clock, u) && Moved(s, stages, u)
  {
    assert clock(s.tick) < clock(t.tick);
    var u := Close(clock, t, component, s.tick).value;
    LaterTick(clock, t, u);
    SameSpans(s, s1, stages, t, u);
  }

  lemma SameSpans(s: State, s1: State, stages: seq<string>, t: State, u: State)
    requires Moved(s1, stages, t) && s1.started == s.started && s1.prefix == s.prefix && s.tick <= s1.tick
    requires u.started == t.started && u.prefix == t.prefix && t.tick <= u.tick
    ensures Moved(s, stages, u)
  {
    forall name
      ensures MovedAt(s, stages, u, name)
    {
      assert MovedAt(s1, stages, t, name);
    }
  }

  /** Two parts of a run, one after the other. */
  lemma Sequence(clock: Clock, poison: Option<string>, s: State, a: seq<string>, step: Option<State>, b: seq<string>,
                 end: Option<State>)
    requires Outcome(clock, poison, s, a, step)
    requires step.None? ==> end.None?
    requires step.Some? ==> Outcome(clock, poison, step.value, b, end)
    ensures Outcome(clock, poison, s, a + b, end)
  {
    if step.None? {
      FrontPasses(poison, s, a, b);
    } else {
      MatchedConcat(s, a, step.value, b);
      if end.Some? {
        MovedConcat(s, a, step.value, b, end.value);
      }
    }
  }

  // ---------- Waits and scenarios ----------

  /** From nothing open, every span is begun and ended in turn, and no stage is the poisoned one. */
  ghost predicate RunsThrough(poison: Option<string>, script: Script) {
    Unpoisoned(poison, Stages(script)) && InTurn(Stages(script))
  }

  ghost predicate InTurn(stages: seq<string>) {
    forall name :: Alternates(Events(name, stages), false)
  }

  lemma WaitStops(clock: Clock, poison: Option<string>, s: State, p: string, script: Script)
    requires Increasing(clock) && NoneOpen(s, p)
    ensures Wait(clock, poison, s, p, script).Some? <==> RunsThrough(poison, script)
  {
    var s1 := s.(tick := s.tick + 1, prefix := p);
    ExecFromNothing(clock, poison, s1, script);
    if Exec(clock, poison, s1, script).Some? {
      assert clock(s.tick) < clock(Exec(clock, poison, s1, script).value.tick);
    }
  }

  lemma ExecFromNothing(clock: Clock, poison: Option<string>, s: State, script: Script)
    requires Increasing(clock) && NoneOpen(s, s.prefix)
    ensures Exec(clock, poison, s, script).Some? <==> RunsThrough(poison, script)
    ensures Exec(clock, poison, s, script).Some? ==> s.tick <= Exec(clock, poison, s, script).value.tick
  {
    ExecStops(clock, poison, s, script);
    MatchedFromNothing(s, Stages(script));
  }

  lemma MatchedFromNothing(s: State, stages: seq<string>)
    requires NoneOpen(s, s.prefix)
    ensures Matched(s, stages) <==> InTurn(stages)
  {
    forall name
      ensures MatchedAt(s, stages, name) == Alternates(Events(name, stages), false)
    {
      assert !IsOpen(s, name);
    }
    if InTurn(stages) {
      forall name
        ensures MatchedAt(s, stages, name)
      {
        assert Alternates(Events(name, stages), false);
      }
    }
    if Matched(s, stages) {
      forall name
        ensures Alternates(Events(name, stages), false)
      {
        assert MatchedAt(s, stages, name);
      }
    }
  }

  lemma {:induction false} LaterWaitsStop(clock: Clock, poison: Option<string>, s: State, rounds: seq<Script>)
    requires Increasing(clock) && OpenSpansKnown(s, 0)
    ensures LaterWaits(clock, poison, s, rounds).Some? <==> AllRunThrough(poison, rounds)
    ensures LaterWaits(clock, poison, s, rounds).Some? ==>
              OpenSpansKnown(LaterWaits(clock, poison, s, rounds).value.0, |rounds|)
  {
    if rounds != [] {
      var n := |rounds| - 1;
      LaterWaitsStop(clock, poison, s, rounds[..n]);
      LastRunsThrough(poison, rounds);
      if LaterWaits(clock, poison, s, rounds[..n]).Some? {
        NextWaitStops(clock, poison, LaterWaits(clock, poison, s, rounds[..n]).value.0, rounds[n], n);
      }
    }
  }

  ghost predicate AllRunThrough(poison: Option<string>, rounds: seq<Script>) {
    forall k | 0 <= k < |rounds| :: RunsThrough(poison, rounds[k])
  }

  lemma LastRunsThrough(poison: Option<string>, rounds: seq<Script>)
    requires rounds != []
    ensures AllRunThrough(poison, rounds) <==>
            AllRunThrough(poison, rounds[..|rounds| - 1]) && RunsThrough(poison, rounds[|rounds| - 1])
  {
    var front := rounds[..|rounds| - 1];
    assert forall k | 0 <= k < |front| :: front[k] == rounds[k];
  }

  lemma NextWaitStops(clock: Clock, poison: Option<string>, t: State, script: Script, n: nat)
    requires Increasing(clock) && OpenSpansKnown(t, n)
    ensures Wait(clock, poison, t, LaterWait(n + 1), script).Some? <==> RunsThrough(poison, script)
    ensures Wait(clock, poison, t, LaterWait(n + 1), script).Some? ==>
              OpenSpansKnown(Wait(clock, poison, t, LaterWait(n + 1), script).value.0, n + 1)
  {
    NextWaitIsNew(t, n);
    WaitStops(clock, poison, t, LaterWait(n + 1), script);
    if Wait(clock, poison, t, LaterWait(n + 1), script).Some? {
      OneMoreOpen(clock, poison, t, script, n + 1);
    }
  }

  /** A scenario that starts with no open span comes to its end if and only if, in each of its waits, every span is
      begun and ended in turn and no stage is the poisoned one. */
  lemma ScenarioStops(clock: Clock, poison: Option<string>, s: State, initial: Script, rounds: seq<Script>)
    requires Increasing(clock) && s.started == map[]
    ensures Scenario(clock, poison, s, initial, rounds).Some? <==>
            RunsThrough(poison, initial) && AllRunThrough(poison, rounds)
  {
    WaitStops(clock, poison, s, "initial", initial);
    if Wait(clock, poison, s, "initial", initial).Some? {
      var t := Wait(clock, poison, s, "initial", initial).value.0;
      ExecKeepsKeys(clock, poison, s.(tick := s.tick + 1, prefix := "initial"), initial, 0);
      LaterWaitsStop(clock, poison, t, rounds);
    }
  }
}
