/** Trajectories: a sequential policy re-plans at every step against one fixed world. */
module Trajectories {
  import opened Wrappers
  import opened Sorting
  import opened Planner

  /** A policy names a question from the current facts and the budget that is left. */
  type Policy = (Facts, nat) -> Option<string>

  datatype Trajectory = Trajectory(facts: Facts, questions: seq<string>, repeatedAttempts: nat)

  // ---------- Complete worlds ----------

  /** `_complete_worlds`: one world for every way to settle the facts still unknown. */
  function CompleteWorlds(g: Game, facts: Facts): seq<World>
    requires g.Valid() && g.State(facts)
  {
    Product(g, facts, g.addresses)
  }

  function Product(g: Game, facts: Facts, addresses: seq<string>): seq<World>
    requires g.Valid() && g.State(facts)
    requires forall a | a in addresses :: a in g.addresses
  {
    if addresses == [] then [map[]]
    else
      var a := addresses[0];
      Combine(a, if facts[a].Confirmed? then [facts[a].value] else g.worldValues[a],
              Product(g, facts, addresses[1..]))
  }

  function Combine(a: string, values: seq<string>, worlds: seq<World>): seq<World> {
    if values == [] then []
    else seq(|worlds|, i requires 0 <= i < |worlds| => worlds[i][a := values[0]])
         + Combine(a, values[1..], worlds)
  }

  /** A complete world agrees with every confirmed fact and settles every unknown one. */
  ghost predicate IsCompleteWorld(g: Game, facts: Facts, world: World)
    requires g.Valid() && g.State(facts)
  {
    world.Keys == (set a | a in g.addresses) && Agrees(g, facts, g.addresses, world)
  }

  ghost predicate Agrees(g: Game, facts: Facts, addresses: seq<string>, world: World)
    requires g.Valid() && g.State(facts)
    requires forall a | a in addresses :: a in g.addresses
  {
    forall a | a in addresses ::
      a in world && (if facts[a].Confirmed? then world[a] == facts[a].value
                     else world[a] in g.worldValues[a])
  }

  lemma {:induction false} CombineMembers(a: string, values: seq<string>, worlds: seq<World>, w: World)
    ensures w in Combine(a, values, worlds) <==>
            exists v, rest | v in values && rest in worlds :: w == rest[a := v]
  {
    if values != [] {
      CombineMembers(a, values[1..], worlds, w);
      var head := seq(|worlds|, i requires 0 <= i < |worlds| => worlds[i][a := values[0]]);
      assert Combine(a, values, worlds) == head + Combine(a, values[1..], worlds);
      forall v, rest | v in values && rest in worlds && w == rest[a := v]
        ensures w in Combine(a, values, worlds)
      {
        if v == values[0] {
          var i :| 0 <= i < |worlds| && worlds[i] == rest;
          assert head[i] == w;
        } else {
          assert v in values[1..];
          assert w in Combine(a, values[1..], worlds);
        }
      }
      if w in head {
        var i :| 0 <= i < |head| && head[i] == w;
        assert values[0] in values && worlds[i] in worlds && w == worlds[i][a := values[0]];
      } else if w in Combine(a, values[1..], worlds) {
        var v, rest :| v in values[1..] && rest in worlds && w == rest[a := v];
        assert v in values;
      }
    }
  }

  lemma {:induction false} ProductAgrees(g: Game, facts: Facts, addresses: seq<string>, w: World)
    requires g.Valid() && g.State(facts)
    requires forall a | a in addresses :: a in g.addresses
    requires w in Product(g, facts, addresses)
    ensures w.Keys == (set a | a in addresses) && Agrees(g, facts, addresses, w)
  {
    if addresses != [] {
      var a, others := addresses[0], addresses[1..];
      var values := if facts[a].Confirmed? then [facts[a].value] else g.worldValues[a];
      CombineMembers(a, values, Product(g, facts, others), w);
      var v, rest :| v in values && rest in Product(g, facts, others) && w == rest[a := v];
      ProductAgrees(g, facts, others, rest);
      assert forall b :: b in addresses <==> b == a || b in others;
      forall b | b in addresses
        ensures b in w && (if facts[b].Confirmed? then w[b] == facts[b].value
                           else w[b] in g.worldValues[b])
      {
        if b != a {
          assert b in others;
        }
      }
    }
  }

  lemma AgreesOnRest(g: Game, facts: Facts, addresses: seq<string>, w: World)
    requires g.Valid() && g.State(facts) && Distinct(addresses) && addresses != []
    requires forall a | a in addresses :: a in g.addresses
    requires w.Keys == (set a | a in addresses) && Agrees(g, facts, addresses, w)
    ensures Distinct(addresses[1..]) && addresses[0] !in addresses[1..]
    ensures (w - {addresses[0]}).Keys == (set a | a in addresses[1..])
    ensures Agrees(g, facts, addresses[1..], w - {addresses[0]})
  {
    var a, others := addresses[0], addresses[1..];
    assert forall b :: b in addresses <==> b == a || b in others;
    assert a !in others;
  }

  lemma PutBack(w: World, a: string)
    requires a in w
    ensures w == (w - {a})[a := w[a]]
  {
  }

  lemma {:induction false} AgreeingInProduct(g: Game, facts: Facts, addresses: seq<string>, w: World)
    requires g.Valid() && g.State(facts) && Distinct(addresses)
    requires forall a | a in addresses :: a in g.addresses
    requires w.Keys == (set a | a in addresses) && Agrees(g, facts, addresses, w)
    ensures w in Product(g, facts, addresses)
  {
    if addresses != [] {
      var a, others := addresses[0], addresses[1..];
      var values := if facts[a].Confirmed? then [facts[a].value] else g.worldValues[a];
      var rest := w - {a};
      AgreesOnRest(g, facts, addresses, w);
      AgreeingInProduct(g, facts, others, rest);
      PutBack(w, a);
      assert w[a] in values;
      CombineMembers(a, values, Product(g, facts, others), w);
    }
  }

  /** The worlds the benchmark enumerates are exactly the complete ones. */
  lemma CompleteWorldsAreAll(g: Game, facts: Facts, w: World)
    requires g.Valid() && g.State(facts)
    ensures w in CompleteWorlds(g, facts) <==> IsCompleteWorld(g, facts, w)
  {
    if w in CompleteWorlds(g, facts) {
      ProductAgrees(g, facts, g.addresses, w);
    }
    if IsCompleteWorld(g, facts, w) {
      AgreeingInProduct(g, facts, g.addresses, w);
    }
  }

  // ---------- One trajectory ----------

  /** The fact a world establishes when `q` is asked. */
  function ProjectionFor(q: Question, value: string): (p: Fact)
    requires exists p | p in q.projections :: p.Confirmed? && p.value == value
    ensures p in q.projections && p.Confirmed? && p.value == value
  {
    var i := FirstMatch(q.projections, value, 0);
    q.projections[i]
  }

  function FirstMatch(projections: seq<Fact>, value: string, from: nat): (i: nat)
    requires exists k :: from <= k < |projections| && projections[k].Confirmed? && projections[k].value == value
    ensures from <= i < |projections| && projections[i].Confirmed? && projections[i].value == value
    decreases |projections| - from
  {
    if projections[from].Confirmed? && projections[from].value == value then from
    else FirstMatch(projections, value, from + 1)
  }

  /** While there is a blocker and budget is left, `select` picks the question of a blocker. */
  ghost predicate SequentialAt(g: Game, select: Policy, facts: Facts, budget: nat)
    requires g.Valid()
  {
    g.State(facts) && !Stops(g, facts, budget) ==>
      && select(facts, budget).Some?
      && Blocking(g.snapshot(facts), select(facts, budget).value)
  }

  ghost predicate Sequential(g: Game, select: Policy)
    requires g.Valid()
  {
    forall facts: Facts, budget: nat :: SequentialAt(g, select, facts, budget)
  }

  /** The facts after question `id` was answered as the world has it. */
  function NextFacts(g: Game, facts: Facts, world: World, id: string): Facts
    requires g.Valid() && g.State(facts) && IsCompleteWorld(g, facts, world) && g.Askable(facts, id)
  {
    WorldNamesAnswer(g, facts, world, id);
    var q := g.registry[id];
    Answered(facts, q, ProjectionFor(q, world[q.factAddress]))
  }

  lemma WorldNamesAnswer(g: Game, facts: Facts, world: World, id: string)
    requires g.Valid() && g.State(facts) && IsCompleteWorld(g, facts, world) && g.Askable(facts, id)
    ensures var q := g.registry[id];
            q.factAddress in world &&
            exists p | p in q.projections :: p.Confirmed? && p.value == world[q.factAddress]
  {
    var q := g.registry[id];
    assert g.AnswersMatchWorlds(q);
    assert world[q.factAddress] in g.worldValues[q.factAddress];
    var p :| p in q.projections && p.value == world[q.factAddress];
    assert p.Confirmed?;
  }

  lemma NextFactsKeepWorld(g: Game, facts: Facts, world: World, id: string)
    requires g.Valid() && g.State(facts) && IsCompleteWorld(g, facts, world) && g.Askable(facts, id)
    ensures var next := NextFacts(g, facts, world, id);
            && g.State(next) && IsCompleteWorld(g, next, world)
            && next[g.registry[id].factAddress].Confirmed?
            && (forall a | a in facts && facts[a].Confirmed? :: a in next && next[a].Confirmed?)
  {
    WorldNamesAnswer(g, facts, world, id);
  }

  /** What `select` names while the walk goes on. */
  function Choice(g: Game, select: Policy, facts: Facts, remaining: nat): string
    requires g.Valid() && g.State(facts) && Sequential(g, select) && !Stops(g, facts, remaining)
  {
    assert SequentialAt(g, select, facts, remaining);
    select(facts, remaining).value
  }

  lemma ChoiceIsAskable(g: Game, select: Policy, facts: Facts, remaining: nat)
    requires g.Valid() && g.State(facts) && Sequential(g, select) && !Stops(g, facts, remaining)
    ensures var id := Choice(g, select, facts, remaining);
            g.Askable(facts, id) && Blocking(g.snapshot(facts), id)
  {
    assert SequentialAt(g, select, facts, remaining);
  }

  function Walk(g: Game, select: Policy, world: World, remaining: nat, facts: Facts, asked: seq<string>)
    : (r: Trajectory)
    requires g.Valid() && g.State(facts) && IsCompleteWorld(g, facts, world) && Sequential(g, select)
    decreases remaining
  {
    if Stops(g, facts, remaining) then Trajectory(facts, asked, 0)
    else
      var id := Choice(g, select, facts, remaining);
      if id in asked then Trajectory(facts, asked, 1)
      else
        ChoiceIsAskable(g, select, facts, remaining);
        NextFactsKeepWorld(g, facts, world, id);
        Walk(g, select, world, remaining - 1, NextFacts(g, facts, world, id), asked + [id])
  }

  /** One turn of the loop of `_trajectory`. */
  method AskNext(g: Game, select: Policy, world: World, remaining: nat, facts: Facts, asked: seq<string>)
    returns (goOn: bool, next: Trajectory)
    requires g.Valid() && g.State(facts) && IsCompleteWorld(g, facts, world) && Sequential(g, select)
    ensures !goOn ==> next == Walk(g, select, world, remaining, facts, asked)
    ensures goOn ==> remaining > 0 && next.repeatedAttempts == 0 && |next.questions| == |asked| + 1
    ensures goOn ==> g.State(next.facts) && IsCompleteWorld(g, next.facts, world)
    ensures goOn ==> (Walk(g, select, world, remaining, facts, asked)
                   == Walk(g, select, world, remaining - 1, next.facts, next.questions))
  {
    if Stops(g, facts, remaining) {
      return false, Trajectory(facts, asked, 0);
    }
    var id := Choice(g, select, facts, remaining);
    if id in asked {
      return false, Trajectory(facts, asked, 1);
    }
    ChoiceIsAskable(g, select, facts, remaining);
    NextFactsKeepWorld(g, facts, world, id);
    return true, Trajectory(NextFacts(g, facts, world, id), asked + [id], 0);
  }

  /** `_trajectory` for the sequential policies. */
  method RunTrajectory(g: Game, select: Policy, facts: Facts, budget: nat, world: World)
    returns (r: Trajectory)
    requires g.Valid() && g.State(facts) && IsCompleteWorld(g, facts, world) && Sequential(g, select)
    ensures r == Walk(g, select, world, budget, facts, [])
  {
    r := Trajectory(facts, [], 0);
    var remaining := budget;
    ghost var expected := Walk(g, select, world, budget, facts, []);
    var goOn := true;
    while goOn && |r.questions| < budget
      invariant goOn ==> |r.questions| + remaining == budget && r.repeatedAttempts == 0
      invariant goOn ==> g.State(r.facts) && IsCompleteWorld(g, r.facts, world)
      invariant expected == if goOn then Walk(g, select, world, remaining, r.facts, r.questions) else r
      decreases goOn, remaining
    {
      goOn, r := AskNext(g, select, world, remaining, r.facts, r.questions);
      remaining := if goOn then remaining - 1 else remaining;
    }
  }

  function KindCost(g: Game, questions: seq<string>): nat {
    if questions == [] then 0
    else KindCost(g, questions[..|questions| - 1]) +
         (var id := questions[|questions| - 1];
          if id in g.registry then g.registry[id].kindCost else 0)
  }

  /** The loss the benchmark books for a finished trajectory. */
  function TrajectoryLoss(g: Game, r: Trajectory): Loss {
    TerminalLoss(g.snapshot(r.facts)).(questionsAsked := |r.questions|,
                                       answerKindCost := KindCost(g, r.questions))
  }

  function WorldLosses(g: Game, select: Policy, facts: Facts, budget: nat): (r: seq<Loss>)
    requires g.Valid() && g.State(facts) && Sequential(g, select)
    ensures |r| == |CompleteWorlds(g, facts)|
  {
    var worlds := CompleteWorlds(g, facts);
    seq(|worlds|, i requires 0 <= i < |worlds| =>
      (CompleteWorldsAreAll(g, facts, worlds[i]);
       TrajectoryLoss(g, Walk(g, select, worlds[i], budget, facts, []))))
  }

  lemma SomeWorld(g: Game, facts: Facts) returns (w: World)
    requires g.Valid() && g.State(facts)
    ensures IsCompleteWorld(g, facts, w)
  {
    w := map a | a in g.addresses ::
      if facts[a].Confirmed? then facts[a].value else g.worldValues[a][0];
  }

  lemma WorldsExist(g: Game, facts: Facts)
    requires g.Valid() && g.State(facts)
    ensures CompleteWorlds(g, facts) != []
  {
    var w := SomeWorld(g, facts);
    CompleteWorldsAreAll(g, facts, w);
    assert w in CompleteWorlds(g, facts);
  }

  /** `case_worst`: the largest loss over all complete worlds. */
  function CaseWorst(g: Game, select: Policy, facts: Facts, budget: nat): Loss
    requires g.Valid() && g.State(facts) && Sequential(g, select)
  {
    WorldsExist(g, facts);
    Worst(STANDARD, WorldLosses(g, select, facts, budget))
  }
}
