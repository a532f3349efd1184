/** Timed components and product spans: what is recorded inside a wait, and why it fits into the wait. */
module Spans {
  import opened Wrappers
  import opened Text
  import opened Paths
  import opened ChildObservations

  /** What runs inside a wait: hook stages fired by the product, and timed components around more of the same. */
  datatype Script =
    | Done
    | HookThen(stage: string, rest: Script)
    | TimedThen(component: Option<string>, body: Script, rest: Script)

  type Clock = nat -> int

  type Key = (string, string)

  /** `tick` counts the readings of the timer; the rest are the fields of `_ProductSpanHook`. */
  datatype State = State(tick: nat, prefix: string, started: map<Key, int>, components: seq<Span>)

  function BeginOf(stage: string): Option<string> {
    if stage == "before_ledger_create" then Some("ledger_create_open")
    else if stage == "before_index_allocate" then Some("task_index_allocate")
    else if stage == "before_request_initialize" then Some("request_initialize_append")
    else if stage == "before_passport_commit" then Some("resolve_plan_passport_append")
    else if stage == "before_publication_readback" then Some("publication_readback_audit")
    else if stage == "before_answer_append" then Some("answer_append_transition")
    else None
  }

  function EndOf(stage: string): Option<string> {
    if stage == "after_ledger_create" then Some("ledger_create_open")
    else if stage == "after_index_allocate" then Some("task_index_allocate")
    else if stage == "after_request_initialize" then Some("request_initialize_append")
    else if stage == "after_passport_append" then Some("resolve_plan_passport_append")
    else if stage == "after_publication_readback" then Some("publication_readback_audit")
    else if stage == "after_answer_append" then Some("answer_append_transition")
    else None
  }

  function Dotted(prefix: string, name: string): string {
    prefix + "." + name
  }

  /** `_ProductSpanHook.__call__`; `None` is a raised error. */
  function Hook(clock: Clock, poison: Option<string>, s: State, stage: string): Option<State> {
    if poison == Some(stage) then None
    else
      match BeginOf(stage)
      case Some(name) =>
        if (s.prefix, name) in s.started then None
        else Some(s.(started := s.started[(s.prefix, name) := clock(s.tick)], tick := s.tick + 1))
      case None =>
        match EndOf(stage)
        case None => Some(s)
        case Some(name) =>
          var key := (s.prefix, name);
          if key !in s.started || clock(s.tick) <= s.started[key] then None
          else Some(State(s.tick + 1, s.prefix, s.started - {key},
                          s.components + [(Dotted(s.prefix, name), clock(s.tick) - s.started[key])]))
  }

  function Recorded(component: Option<string>, duration: int): seq<Span> {
    if component.Some? then [(component.value, duration)] else []
  }

  /** The end of a timed component that began at the reading `started`. */
  function Close(clock: Clock, t: State, component: Option<string>, started: nat): Option<State> {
    var duration := clock(t.tick) - clock(started);
    if duration <= 0 then None
    else Some(t.(tick := t.tick + 1, components := t.components + Recorded(component, duration)))
  }

  /** Runs a script; a timed component is `_timed_component` around its body. */
  function Exec(clock: Clock, poison: Option<string>, s: State, script: Script): Option<State>
    decreases script
  {
    match script
    case Done => Some(s)
    case HookThen(stage, rest) =>
      (match Hook(clock, poison, s, stage)
       case None => None
       case Some(t) => Exec(clock, poison, t, rest))
    case TimedThen(component, body, rest) =>
      match Exec(clock, poison, s.(tick := s.tick + 1), body)
      case None => None
      case Some(t) =>
        match Close(clock, t, component, s.tick)
        case None => None
        case Some(u) => Exec(clock, poison, u, rest)
  }

  /** One wait: read the timer, perhaps change the prefix, run, read the timer. */
  function Wait(clock: Clock, poison: Option<string>, s: State, prefix: string, script: Script): Option<(State, int)> {
    match Exec(clock, poison, s.(tick := s.tick + 1, prefix := prefix), script)
    case None => None
    case Some(t) =>
      var duration := clock(t.tick) - clock(s.tick);
      if duration <= 0 then None else Some((t.(tick := t.tick + 1), duration))
  }

  /** The later rounds, one wait each. */
  function LaterWaits(clock: Clock, poison: Option<string>, s: State, rounds: seq<Script>)
    : Option<(State, seq<(nat, int)>)>
  {
    if rounds == [] then Some((s, []))
    else
      match LaterWaits(clock, poison, s, rounds[..|rounds| - 1])
      case None => None
      case Some((t, later)) =>
        match Wait(clock, poison, t, LaterWait(|rounds|), rounds[|rounds| - 1])
        case None => None
        case Some((u, duration)) => Some((u, later + [(|rounds|, duration)]))
  }

  /** The waits of a scenario: its final state, the initial wait and the later ones. */
  datatype Waits = Waits(state: State, initial: int, later: seq<(nat, int)>)

  function Scenario(clock: Clock, poison: Option<string>, s: State, initial: Script,
                    rounds: seq<Script>): Option<Waits> {
    match Wait(clock, poison, s, "initial", initial)
    case None => None
    case Some((t, duration)) =>
      match LaterWaits(clock, poison, t, rounds)
      case None => None
      case Some((u, later)) => Some(Waits(u, duration, later))
  }

  // ---------- Stages ----------

  lemma NoStageIsBoth(stage: string)
    ensures BeginOf(stage).None? || EndOf(stage).None?
  {
  }

  // ---------- Counting ----------

  function Begins(script: Script): nat {
    match script
    case Done => 0
    case HookThen(stage, rest) => (if BeginOf(stage).Some? then 1 else 0) + Begins(rest)
    case TimedThen(_, body, rest) => Begins(body) + Begins(rest)
  }

  function Ends(script: Script): nat {
    match script
    case Done => 0
    case HookThen(stage, rest) => (if EndOf(stage).Some? then 1 else 0) + Ends(rest)
    case TimedThen(_, body, rest) => Ends(body) + Ends(rest)
  }

  function TimedComponents(script: Script): nat {
    match script
    case Done => 0
    case HookThen(_, rest) => TimedComponents(rest)
    case TimedThen(component, body, rest) =>
      (if component.Some? then 1 else 0) + TimedComponents(body) + TimedComponents(rest)
  }

  lemma HookIsCounted(clock: Clock, poison: Option<string>, s: State, stage: string)
    requires Hook(clock, poison, s, stage).Some?
    ensures var t := Hook(clock, poison, s, stage).value;
            var begins, ends := if BeginOf(stage).Some? then 1 else 0, if EndOf(stage).Some? then 1 else 0;
            && |t.started| == |s.started| + begins - ends && |t.components| == |s.components| + ends
            && t.prefix == s.prefix
  {
    NoStageIsBoth(stage);
  }

  /** Whatever ran to its end: the spans still open are the begins minus the ends, and every end and every named
      timed component has been recorded once. */
  lemma {:induction false} SpansAreCounted(clock: Clock, poison: Option<string>, s: State, script: Script)
    requires Exec(clock, poison, s, script).Some?
    ensures var t := Exec(clock, poison, s, script).value;
            && |t.started| == |s.started| + Begins(script) - Ends(script)
            && |t.components| == |s.components| + Ends(script) + TimedComponents(script)
            && t.prefix == s.prefix
    decreases script
  {
    match script
    case Done =>
    case HookThen(stage, rest) =>
      HookIsCounted(clock, poison, s, stage);
      SpansAreCounted(clock, poison, Hook(clock, poison, s, stage).value, rest);
    case TimedThen(component, body, rest) =>
      SpansAreCounted(clock, poison, s.(tick := s.tick + 1), body);
      var t := Exec(clock, poison, s.(tick := s.tick + 1), body).value;
      SpansAreCounted(clock, poison, Close(clock, t, component, s.tick).value, rest);
  }

  // ---------- Fitting into the wait ----------

  ghost predicate Nondecreasing(clock: Clock) {
    forall i: nat, j: nat :: i <= j ==> clock(i) <= clock(j)
  }

  /** The span was recorded for this wait and is not longer than `limit`. */
  predicate Fits(p: string, limit: int, span: Span) {
    Dotted(p, "") <= span.0 && 1 <= span.1 <= limit
  }

  /** Timed components carry the prefix of the wait they run in. */
  predicate WellNamed(p: string, script: Script) {
    match script
    case Done => true
    case HookThen(_, rest) => WellNamed(p, rest)
    case TimedThen(component, body, rest) =>
      (component.Some? ==> Dotted(p, "") <= component.value) && WellNamed(p, body) && WellNamed(p, rest)
  }

  /** The six spans that a product stage can end. */
  ghost predicate IsSpan(name: string) {
    exists stage :: EndOf(stage) == Some(name)
  }

  /** The open spans of the prefix were begun at `begun` or later. */
  ghost predicate OpenSince(s: State, p: string, begun: int) {
    forall key | key in s.started && key.0 == p && IsSpan(key.1) :: begun <= s.started[key]
  }

  /** Inside a wait with prefix `p` that began at `begun`: its open spans began later, what it recorded fits. */
  ghost predicate Inside(clock: Clock, s: State, p: string, begun: int, before: seq<Span>) {
    && s.prefix == p && begun <= clock(s.tick)
    && OpenSince(s, p, begun)
    && before <= s.components
    && forall i | |before| <= i < |s.components| :: Fits(p, clock(s.tick) - begun, s.components[i])
  }

  lemma TickOn(clock: Clock, s: State, p: string, begun: int, before: seq<Span>, t: State)
    requires Nondecreasing(clock) && Inside(clock, s, p, begun, before)
    requires s.tick <= t.tick && t == s.(tick := t.tick)
    ensures Inside(clock, t, p, begun, before)
  {
    assert clock(s.tick) <= clock(t.tick);
  }

  lemma RecordOne(clock: Clock, s: State, p: string, begun: int, before: seq<Span>, span: Span)
    requires Inside(clock, s, p, begun, before) && Fits(p, clock(s.tick) - begun, span)
    ensures Inside(clock, s.(components := s.components + [span]), p, begun, before)
  {
  }

  lemma HookInside(clock: Clock, poison: Option<string>, s: State, stage: string, p: string, begun: int,
                   before: seq<Span>)
    requires Nondecreasing(clock) && Inside(clock, s, p, begun, before) && Hook(clock, poison, s, stage).Some?
    ensures Inside(clock, Hook(clock, poison, s, stage).value, p, begun, before)
    ensures s.tick <= Hook(clock, poison, s, stage).value.tick
  {
    TickOn(clock, s, p, begun, before, s.(tick := s.tick + 1));
    if BeginOf(stage).None? && EndOf(stage).Some? {
      var name := EndOf(stage).value;
      var key := (s.prefix, name);
      assert Dotted(p, name) == Dotted(p, "") + name;
      assert IsSpan(name) && key in s.started;
      assert begun <= s.started[key];
      assert clock(s.tick) <= clock(s.tick + 1);
    }
  }

  lemma CloseInside(clock: Clock, t: State, p: string, begun: int, before: seq<Span>, component: Option<string>,
                    started: nat)
    requires Nondecreasing(clock) && Inside(clock, t, p, begun, before) && begun <= clock(started)
    requires Close(clock, t, component, started).Some? && (component.Some? ==> Dotted(p, "") <= component.value)
    ensures Inside(clock, Close(clock, t, component, started).value, p, begun, before)
    ensures t.tick <= Close(clock, t, component, started).value.tick
  {
    var duration := clock(t.tick) - clock(started);
    var t1 := t.(components := t.components + Recorded(component, duration));
    if component.Some? {
      RecordOne(clock, t, p, begun, before, (component.value, duration));
    } else {
      assert t1 == t;
    }
    TickOn(clock, t1, p, begun, before, t1.(tick := t.tick + 1));
  }

  lemma {:induction false} ExecInside(clock: Clock, poison: Option<string>, s: State, script: Script,
                                      p: string, begun: int, before: seq<Span>)
    requires Nondecreasing(clock) && Inside(clock, s, p, begun, before)
    requires WellNamed(p, script) && Exec(clock, poison, s, script).Some?
    ensures Inside(clock, Exec(clock, poison, s, script).value, p, begun, before)
    ensures s.tick <= Exec(clock, poison, s, script).value.tick
    decreases script
  {
    match script
    case Done =>
    case HookThen(stage, rest) =>
      HookInside(clock, poison, s, stage, p, begun, before);
      ExecInside(clock, poison, Hook(clock, poison, s, stage).value, rest, p, begun, before);
    case TimedThen(component, body, rest) =>
      var s1 := s.(tick := s.tick + 1);
      TickOn(clock, s, p, begun, before, s1);
      ExecInside(clock, poison, s1, body, p, begun, before);
      var t := Exec(clock, poison, s1, body).value;
      CloseInside(clock, t, p, begun, before, component, s.tick);
      ExecInside(clock, poison, Close(clock, t, component, s.tick).value, rest, p, begun, before);
  }

  ghost predicate NoneOpen(s: State, p: string) {
    forall key | key in s.started :: key.0 != p
  }

  lemma WaitStarts(clock: Clock, s: State, p: string, t: State)
    requires Nondecreasing(clock) && OpenSince(s, p, clock(s.tick)) && t == s.(tick := s.tick + 1, prefix := p)
    ensures Inside(clock, t, p, clock(s.tick), s.components)
  {
    assert clock(s.tick) <= clock(t.tick);
  }

  /** What a wait records fits into it, provided no span of its prefix had been begun before. */
  lemma WaitBounds(clock: Clock, poison: Option<string>, s: State, p: string, script: Script)
    requires Nondecreasing(clock) && OpenSince(s, p, clock(s.tick)) && WellNamed(p, script)
    requires Wait(clock, poison, s, p, script).Some?
    ensures var (t, duration) := Wait(clock, poison, s, p, script).value;
            && s.components <= t.components
            && (forall i | |s.components| <= i < |t.components| :: Fits(p, duration, t.components[i]))
            && t.prefix == p
  {
    var s1 := s.(tick := s.tick + 1, prefix := p);
    WaitStarts(clock, s, p, s1);
    ExecInside(clock, poison, s1, script, p, clock(s.tick), s.components);
  }

  // ---------- The whole scenario ----------

  lemma WaitOfInitial(name: string)
    requires Dotted("initial", "") <= name
    ensures WaitOf(name) == "initial"
  {
    assert name[0] == 'i' && "later."[0] == 'l';
  }

  lemma WaitOfLater(k: nat, name: string)
    requires Dotted(LaterWait(k), "") <= name
    ensures WaitOf(name) == LaterWait(k)
  {
    var number := Decimal(k);
    NumberAvoidsDots(k);
    var rest := name[|LaterWait(k)| + 1..];
    assert ["later", number][1..] == [number] && Join([number], '.') == number;
    assert LaterWait(k) == "later" + ['.'] + number;
    assert name == "later" + ['.'] + (number + ['.'] + rest);
    SplitPiece("later", number + ['.'] + rest, '.');
    SplitPiece(number, rest, '.');
    var parts := Split(name, '.');
    assert parts == ["later"] + ([number] + Split(rest, '.'));
    assert parts[..2] == ["later", number];
    assert "later." <= name;
  }

  lemma NumberAvoidsDots(k: nat)
    ensures Avoids(Decimal(k), '.')
  {
    var number := Decimal(k);
    forall i | 0 <= i < |number|
      ensures number[i] != '.'
    {
      assert IsDigit(number[i]) && !IsDigit('.');
    }
  }

  /** Every recorded span fits into the wait its name points to. */
  lemma FitsMeansWithin(spans: seq<Span>, waits: map<string, int>, p: string, limit: int, from: nat)
    requires p in waits && waits[p] == limit && (p == "initial" || exists k: nat :: p == LaterWait(k))
    requires forall i | from <= i < |spans| :: Fits(p, limit, spans[i])
    ensures forall i | from <= i < |spans| :: WaitOf(spans[i].0) in waits && spans[i].1 <= waits[WaitOf(spans[i].0)]
  {
    forall i | from <= i < |spans|
      ensures WaitOf(spans[i].0) == p
    {
      assert Fits(p, limit, spans[i]);
      if p == "initial" {
        WaitOfInitial(spans[i].0);
      } else {
        var k: nat :| p == LaterWait(k);
        WaitOfLater(k, spans[i].0);
      }
    }
  }

  /** The open spans belong to waits that have begun. */
  ghost predicate OpenSpansKnown(s: State, n: nat) {
    forall key | key in s.started :: key.0 == "initial" || exists k: nat | 1 <= k <= n :: key.0 == LaterWait(k)
  }

  lemma {:induction false} ExecKeepsKeys(clock: Clock, poison: Option<string>, s: State, script: Script, n: nat)
    requires Exec(clock, poison, s, script).Some? && OpenSpansKnown(s, n)
    requires s.prefix == "initial" || exists k: nat | 1 <= k <= n :: s.prefix == LaterWait(k)
    ensures OpenSpansKnown(Exec(clock, poison, s, script).value, n)
    ensures Exec(clock, poison, s, script).value.prefix == s.prefix
    decreases script
  {
    match script
    case Done =>
    case HookThen(stage, rest) =>
      ExecKeepsKeys(clock, poison, Hook(clock, poison, s, stage).value, rest, n);
    case TimedThen(component, body, rest) =>
      var s1 := s.(tick := s.tick + 1);
      ExecKeepsKeys(clock, poison, s1, body, n);
      var t := Exec(clock, poison, s1, body).value;
      ExecKeepsKeys(clock, poison, Close(clock, t, component, s.tick).value, rest, n);
  }

  lemma NextWaitIsNew(s: State, n: nat)
    requires OpenSpansKnown(s, n)
    ensures NoneOpen(s, LaterWait(n + 1))
  {
    forall key | key in s.started
      ensures key.0 != LaterWait(n + 1)
    {
      LaterWaitsDiffer(n + 1, n + 1);
      if key.0 != "initial" {
        var k: nat :| 1 <= k <= n && key.0 == LaterWait(k);
        LaterWaitsDiffer(n + 1, k);
      }
    }
  }

  /** What holds after the initial wait and `n` later ones. */
  ghost predicate BoundsSoFar(s: State, initial: int, later: seq<(nat, int)>) {
    && OpenSpansKnown(s, |later|)
    && (forall j | 0 <= j < |later| :: later[j].0 == j + 1)
    && WithinWaits(s.components, WaitDurations(initial, later))
  }

  /** One more wait leaves the durations of the earlier ones as they were. */
  lemma MoreWaits(initial: int, later: seq<(nat, int)>, duration: int)
    requires forall j | 0 <= j < |later| :: later[j].0 == j + 1
    ensures var now := WaitDurations(initial, later + [(|later| + 1, duration)]);
            && LaterWait(|later| + 1) in now && now[LaterWait(|later| + 1)] == duration
            && forall p | p in WaitDurations(initial, later) :: p in now && now[p] == WaitDurations(initial, later)[p]
  {
    var longer := later + [(|later| + 1, duration)];
    assert longer[..|longer| - 1] == later;
    OnlyKnownWaits(initial, later, |later| + 1);
  }

  lemma {:induction false} OnlyKnownWaits(initial: int, later: seq<(nat, int)>, k: nat)
    requires forall j | 0 <= j < |later| :: later[j].0 == j + 1
    requires k > |later|
    ensures LaterWait(k) !in WaitDurations(initial, later)
  {
    LaterWaitsDiffer(k, k);
    if later != [] {
      var n := |later| - 1;
      OnlyKnownWaits(initial, later[..n], k);
      LaterWaitsDiffer(k, later[n].0);
    }
  }

  lemma {:induction false} LaterBounds(clock: Clock, poison: Option<string>, s: State, rounds: seq<Script>,
                                       initial: int)
    requires Nondecreasing(clock) && BoundsSoFar(s, initial, [])
    requires forall k | 0 <= k < |rounds| :: WellNamed(LaterWait(k + 1), rounds[k])
    requires LaterWaits(clock, poison, s, rounds).Some?
    ensures var (t, later) := LaterWaits(clock, poison, s, rounds).value;
            |later| == |rounds| && BoundsSoFar(t, initial, later)
  {
    if rounds != [] {
      var n := |rounds| - 1;
      LaterBounds(clock, poison, s, rounds[..n], initial);
      var (t, later) := LaterWaits(clock, poison, s, rounds[..n]).value;
      OneMoreBound(clock, poison, t, rounds[n], initial, later);
    }
  }

  lemma OneMoreOpen(clock: Clock, poison: Option<string>, t: State, script: Script, n: nat)
    requires n >= 1 && OpenSpansKnown(t, n - 1) && Wait(clock, poison, t, LaterWait(n), script).Some?
    ensures OpenSpansKnown(Wait(clock, poison, t, LaterWait(n), script).value.0, n)
  {
    var t1 := t.(tick := t.tick + 1, prefix := LaterWait(n));
    assert OpenSpansKnown(t1, n);
    ExecKeepsKeys(clock, poison, t1, script, n);
  }

  lemma OneMoreBound(clock: Clock, poison: Option<string>, t: State, script: Script, initial: int,
                     later: seq<(nat, int)>)
    requires Nondecreasing(clock) && BoundsSoFar(t, initial, later)
    requires WellNamed(LaterWait(|later| + 1), script)
    requires Wait(clock, poison, t, LaterWait(|later| + 1), script).Some?
    ensures var (u, duration) := Wait(clock, poison, t, LaterWait(|later| + 1), script).value;
            BoundsSoFar(u, initial, later + [(|later| + 1, duration)])
  {
    var n := |later| + 1;
    var p := LaterWait(n);
    NextWaitIsNew(t, |later|);
    WaitBounds(clock, poison, t, p, script);
    OneMoreOpen(clock, poison, t, script, n);
    var (u, duration) := Wait(clock, poison, t, p, script).value;
    MoreWaits(initial, later, duration);
    var now := WaitDurations(initial, later + [(n, duration)]);
    FitsMeansWithin(u.components, now, p, duration, |t.components|);
    StillWithin(t.components, u.components, WaitDurations(initial, later), now);
  }

  lemma StillWithin(before: seq<Span>, after: seq<Span>, waits: map<string, int>, now: map<string, int>)
    requires before <= after && WithinWaits(before, waits)
    requires forall p | p in waits :: p in now && now[p] == waits[p]
    requires forall i | |before| <= i < |after| :: WaitOf(after[i].0) in now && after[i].1 <= now[WaitOf(after[i].0)]
    ensures WithinWaits(after, now)
  {
    forall i | 0 <= i < |before|
      ensures after[i] == before[i]
    {
    }
  }

  lemma InitialBound(clock: Clock, poison: Option<string>, s: State, initial: Script)
    requires Nondecreasing(clock) && s.started == map[] && s.components == []
    requires WellNamed("initial", initial) && Wait(clock, poison, s, "initial", initial).Some?
    ensures var (t, duration) := Wait(clock, poison, s, "initial", initial).value;
            BoundsSoFar(t, duration, [])
  {
    WaitBounds(clock, poison, s, "initial", initial);
    var (t, duration) := Wait(clock, poison, s, "initial", initial).value;
    ExecKeepsKeys(clock, poison, s.(tick := s.tick + 1, prefix := "initial"), initial, 0);
    FitsMeansWithin(t.components, WaitDurations(duration, []), "initial", duration, 0);
  }

  /** If no span is open and nothing is recorded when the first wait begins, every component recorded inside the
      waits of a scenario fits into its wait: the test on parents in the observation's constructor cannot fail. */
  lemma ScenarioWithinWaits(clock: Clock, poison: Option<string>, s: State, initial: Script, rounds: seq<Script>)
    requires Nondecreasing(clock) && s.started == map[] && s.components == []
    requires WellNamed("initial", initial) && forall k | 0 <= k < |rounds| :: WellNamed(LaterWait(k + 1), rounds[k])
    requires Scenario(clock, poison, s, initial, rounds).Some?
    ensures var w := Scenario(clock, poison, s, initial, rounds).value;
            WithinWaits(w.state.components, WaitDurations(w.initial, w.later))
  {
    InitialBound(clock, poison, s, initial);
    var (t, duration) := Wait(clock, poison, s, "initial", initial).value;
    LaterBounds(clock, poison, t, rounds, duration);
  }

  // ---------- Exactly when a wait bounds what it records ----------

  /** `later` is a way the timer may go on after reading `tick`. */
  ghost predicate Continues(clock: Clock, later: Clock, tick: nat) {
    Nondecreasing(later) && forall t: nat | t <= tick :: later(t) == clock(t)
  }

  /** What this script records in the wait fits, if the wait comes to its end. */
  ghost predicate FitsAt(later: Clock, s: State, p: string, script: Script) {
    WellNamed(p, script) && Wait(later, None, s, p, script).Some? ==>
      var (t, duration) := Wait(later, None, s, p, script).value;
      forall i | |s.components| <= i < |t.components| :: Fits(p, duration, t.components[i])
  }

  /** However the timer goes on, whatever runs in the wait. */
  ghost predicate AlwaysFits(clock: Clock, s: State, p: string) {
    forall later, script | Continues(clock, later, s.tick) :: FitsAt(later, s, p, script)
  }

  /** A wait bounds every component recorded in it, whatever runs and however the timer goes on, if and only if every
      span of its prefix that is open when it begins was begun no earlier than its first reading. */
  lemma FitsExactlyWhen(clock: Clock, s: State, p: string)
    requires Nondecreasing(clock)
    ensures AlwaysFits(clock, s, p) <==> OpenSince(s, p, clock(s.tick))
  {
    if OpenSince(s, p, clock(s.tick)) {
      forall later, script | Continues(clock, later, s.tick)
        ensures FitsAt(later, s, p, script)
      {
        if WellNamed(p, script) && Wait(later, None, s, p, script).Some? {
          WaitBounds(later, None, s, p, script);
        }
      }
    } else {
      var key :| key in s.started && key.0 == p && IsSpan(key.1) && s.started[key] < clock(s.tick);
      EarlySpanIsTooLong(clock, s, p, key.1);
    }
  }

  /** The timer goes on by one unit and then stands still. */
  function OneMore(clock: Clock, tick: nat): Clock {
    (t: nat) => if t <= tick then clock(t) else clock(tick) + 1
  }

  lemma EarlySpanIsTooLong(clock: Clock, s: State, p: string, name: string)
    requires Nondecreasing(clock) && IsSpan(name) && (p, name) in s.started && s.started[(p, name)] < clock(s.tick)
    ensures !AlwaysFits(clock, s, p)
  {
    var later := OneMore(clock, s.tick);
    assert Continues(clock, later, s.tick);
    var stage :| EndOf(stage) == Some(name);
    var script := HookThen(stage, Done);
    EndInWait(later, s, p, stage, name);
    var t := Wait(later, None, s, p, script).value.0;
    assert !Fits(p, 1, t.components[|s.components|]);
    assert !FitsAt(later, s, p, script);
  }

  /** A wait in which nothing but the end of an open span happens, and the timer moves by one. */
  lemma EndInWait(clock: Clock, s: State, p: string, stage: string, name: string)
    requires EndOf(stage) == Some(name) && (p, name) in s.started && s.started[(p, name)] < clock(s.tick)
    requires clock(s.tick + 1) == clock(s.tick + 2) == clock(s.tick) + 1
    ensures WellNamed(p, HookThen(stage, Done))
    ensures Wait(clock, None, s, p, HookThen(stage, Done)) ==
            Some((State(s.tick + 3, p, s.started - {(p, name)},
                        s.components + [(Dotted(p, name), clock(s.tick + 1) - s.started[(p, name)])]), 1))
  {
    NoStageIsBoth(stage);
    var s1 := s.(tick := s.tick + 1, prefix := p);
    var t := State(s.tick + 2, p, s.started - {(p, name)},
                   s.components + [(Dotted(p, name), clock(s1.tick) - s.started[(p, name)])]);
    assert Hook(clock, None, s1, stage) == Some(t);
    assert Exec(clock, None, t, Done) == Some(t);
  }

  /** A timer that is slow after its first reading. */
  function Late(i: nat): int { if i == 0 then 0 else 100 + i }

  /** A span begun by the hook before the initial wait, and ended in it: the observation would be refused. */
  lemma EarlyBeginIsRefused()
    ensures Nondecreasing(Late)
    ensures var begun := Hook(Late, None, State(0, "initial", map[], []), "before_ledger_create");
            && begun.Some?
            && var ran := Scenario(Late, None, begun.value, HookThen("after_ledger_create", Done), []);
               ran.Some? && !WithinWaits(ran.value.state.components, WaitDurations(ran.value.initial, ran.value.later))
  {
    var key := ("initial", "ledger_create_open");
    assert BeginOf("before_ledger_create") == Some("ledger_create_open");
    var early := State(1, "initial", map[key := 0], []);
    assert Hook(Late, None, State(0, "initial", map[], []), "before_ledger_create") == Some(early);
    var script := HookThen("after_ledger_create", Done);
    var s1 := early.(tick := 2, prefix := "initial");
    assert EndOf("after_ledger_create") == Some("ledger_create_open") && BeginOf("after_ledger_create") == None;
    var span := (Dotted("initial", "ledger_create_open"), 102);
    assert s1.components + [span] == [span];
    assert Hook(Late, None, s1, "after_ledger_create") == Some(State(3, "initial", early.started - {key}, [span]));
    assert Exec(Late, None, s1, script) == Some(State(3, "initial", early.started - {key}, [span]));
    var ended := State(4, "initial", early.started - {key}, [span]);
    assert Wait(Late, None, early, "initial", script) == Some((ended, 2));
    assert LaterWaits(Late, None, ended, []) == Some((ended, []));
    assert Scenario(Late, None, early, script, []) == Some(Waits(ended, 2, []));
    assert Dotted("initial", "") <= span.0;
    WaitOfInitial(span.0);
    assert WaitDurations(2, [])[WaitOf(ended.components[0].0)] == 2;
  }
}
