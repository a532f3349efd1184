/** What the planner promises about whole games: the plan is realised, and nothing beats it. */
module GameTheorems {
  import opened Wrappers
  import opened Text
  import opened Sorting
  import opened Planner
  import opened Trajectories

  // ---------- The order of losses ----------

  lemma LossLeTotalOrder(a: Loss, b: Loss, c: Loss)
    ensures LossLe(a, b) || LossLe(b, a)
    ensures LossLe(a, b) && LossLe(b, c) ==> LossLe(a, c)
    ensures LossLe(a, b) && LossLe(b, a) ==> a == b
  {
    var x, y, z := CorrectLossKey(a), CorrectLossKey(b), CorrectLossKey(c);
    BeforeTotal(x, y, IntRank);
    BeforeTotal(y, z, IntRank);
    BeforeTotal(x, z, IntRank);
    if Before(x, y, IntRank) && Before(y, x, IntRank) {
      BeforeTransitive(x, y, x, IntRank);
      BeforeIrreflexive(x, IntRank);
    }
    if LossLe(a, b) && LossLe(b, c) && Before(z, x, IntRank) && x != y {
      BeforeTransitive(z, x, y, IntRank);
    }
    if x == y {
      KeyInjective(a, b);
    }
  }

  lemma KeyInjective(a: Loss, b: Loss)
    requires CorrectLossKey(a) == CorrectLossKey(b)
    ensures a == b
  {
    var x, y := CorrectLossKey(a), CorrectLossKey(b);
    assert x[0] == y[0] && x[1] == y[1] && x[2] == y[2] && x[3] == y[3] && x[4] == y[4];
    assert x[5] == y[5] && x[6] == y[6] && x[7] == y[7] && x[8] == y[8] && x[9] == y[9];
  }

  /** `loss` after `asked` more questions of total kind cost `cost`. */
  function Charge(loss: Loss, asked: nat, cost: nat): Loss {
    loss.(questionsAsked := loss.questionsAsked + asked, answerKindCost := loss.answerKindCost + cost)
  }

  lemma {:induction false} BeforeShifted(r: seq<int>, s: seq<int>, x: seq<int>, y: seq<int>, x': seq<int>, y': seq<int>)
    requires |r| == |s|
    requires Before(x, y, IntRank) <==> Before(x', y', IntRank)
    ensures Before(r + x, s + y, IntRank) <==> Before(r + x', s + y', IntRank)
  {
    if r == [] {
      assert r + x == x && s + y == y && r + x' == x' && s + y' == y';
    } else {
      assert (r + x)[1..] == r[1..] + x && (s + y)[1..] == s[1..] + y;
      assert (r + x')[1..] == r[1..] + x' && (s + y')[1..] == s[1..] + y';
      BeforeShifted(r[1..], s[1..], x, y, x', y');
    }
  }

  /** What a trajectory cannot change by asking more. */
  function Head(loss: Loss): seq<int> {
    [loss.risk.e5, loss.risk.e4, loss.risk.e3, loss.risk.e2, loss.risk.e1, loss.frontierSize,
     loss.blockingFactCount]
  }

  function Tail(loss: Loss): seq<int> {
    [loss.questionsAsked, loss.dependencyDeficit, loss.answerKindCost]
  }

  lemma BeforeTails(a: Loss, b: Loss)
    ensures Before(Tail(a), Tail(b), IntRank) <==>
            (a.questionsAsked < b.questionsAsked || (a.questionsAsked == b.questionsAsked &&
            (a.dependencyDeficit < b.dependencyDeficit || (a.dependencyDeficit == b.dependencyDeficit &&
             a.answerKindCost < b.answerKindCost))))
  {
    var a1, b1 := [a.dependencyDeficit, a.answerKindCost], [b.dependencyDeficit, b.answerKindCost];
    assert Tail(a) == [a.questionsAsked] + a1 && Tail(b) == [b.questionsAsked] + b1;
    BeforeCons(a.questionsAsked, b.questionsAsked, a1, b1);
    assert a1 == [a.dependencyDeficit] + [a.answerKindCost] && b1 == [b.dependencyDeficit] + [b.answerKindCost];
    BeforeCons(a.dependencyDeficit, b.dependencyDeficit, [a.answerKindCost], [b.answerKindCost]);
    assert [a.answerKindCost] == [a.answerKindCost] + [] && [b.answerKindCost] == [b.answerKindCost] + [];
    BeforeCons(a.answerKindCost, b.answerKindCost, [], []);
  }

  lemma BeforeCons(p: int, q: int, x: seq<int>, y: seq<int>)
    ensures Before([p] + x, [q] + y, IntRank) <==> p < q || (p == q && Before(x, y, IntRank))
  {
    assert ([p] + x)[1..] == x && ([q] + y)[1..] == y;
  }

  /** Charging both sides the same questions never changes which loss is worse. */
  lemma ChargeMonotone(a: Loss, b: Loss, asked: nat, cost: nat)
    ensures LossLe(a, b) <==> LossLe(Charge(a, asked, cost), Charge(b, asked, cost))
  {
    var a', b' := Charge(a, asked, cost), Charge(b, asked, cost);
    BeforeTails(b, a);
    BeforeTails(b', a');
    BeforeShifted(Head(b), Head(a), Tail(b), Tail(a), Tail(b'), Tail(a'));
    assert CorrectLossKey(a) == Head(a) + Tail(a) && CorrectLossKey(b) == Head(b) + Tail(b);
    assert CorrectLossKey(a') == Head(a) + Tail(a') && CorrectLossKey(b') == Head(b) + Tail(b');
  }

  // ---------- Extremes ----------

  lemma {:induction false} WorstIsGreatest(losses: seq<Loss>, i: nat)
    requires i < |losses|
    ensures LossLe(losses[i], Worst(STANDARD, losses))
  {
    var n := |losses| - 1;
    var last := losses[n];
    BeforeIrreflexive(CorrectLossKey(last), IntRank);
    if n > 0 {
      var best := Worst(STANDARD, losses[..n]);
      LossLeTotalOrder(best, last, last);
      if i < n {
        WorstIsGreatest(losses[..n], i);
        assert losses[..n][i] == losses[i];
        LossLeTotalOrder(losses[i], best, last);
      }
    }
  }

  lemma {:induction false} BestIsLeast(evaluations: seq<(Loss, string)>, i: nat)
    requires i < |evaluations|
    ensures LossLe(Best(STANDARD, evaluations).0, evaluations[i].0)
  {
    var n := |evaluations| - 1;
    var last := evaluations[n];
    BeforeIrreflexive(CorrectLossKey(last.0), IntRank);
    if n > 0 {
      var best := Best(STANDARD, evaluations[..n]);
      LossLeTotalOrder(last.0, best.0, best.0);
      if i < n {
        BestIsLeast(evaluations[..n], i);
        assert evaluations[..n][i] == evaluations[i];
        LossLeTotalOrder(last.0, best.0, evaluations[i].0);
      }
    }
  }

  // ---------- One move ----------

  /** The oracle, asked again at every step with the budget that is left. */
  function OraclePolicy(g: Game): Policy
    requires g.Valid()
  {
    (facts: Facts, budget: nat) =>
      if g.State(facts) then Plan(g, STANDARD, facts, budget).selectedQuestionId else None
  }

  /** The plan's loss is that of its own question, and no candidate has a smaller one. */
  lemma PlanIsBestQuestion(g: Game, facts: Facts, budget: nat)
    requires g.Valid() && g.State(facts) && !Stops(g, facts, budget)
    ensures var plan := Plan(g, STANDARD, facts, budget);
            && plan.selectedQuestionId.Some?
            && Blocking(g.snapshot(facts), plan.selectedQuestionId.value)
            && g.Askable(facts, plan.selectedQuestionId.value)
            && plan.worstLoss ==
               Worst(STANDARD, BranchLosses(g, STANDARD, facts, budget, plan.selectedQuestionId.value))
    ensures forall id | Blocking(g.snapshot(facts), id) ::
              && g.Askable(facts, id)
              && LossLe(Plan(g, STANDARD, facts, budget).worstLoss,
                        Worst(STANDARD, BranchLosses(g, STANDARD, facts, budget, id)))
  {
    CandidatesAreAskable(g, facts);
    CandidatesAreBlockerQuestions(g.snapshot(facts));
    var ids := CandidateQuestionIds(g.snapshot(facts));
    var evaluations := Evaluations(g, STANDARD, facts, budget);
    BestIsListed(STANDARD, evaluations);
    forall id | Blocking(g.snapshot(facts), id)
      ensures LossLe(Plan(g, STANDARD, facts, budget).worstLoss,
                     Worst(STANDARD, BranchLosses(g, STANDARD, facts, budget, id)))
    {
      var i :| 0 <= i < |ids| && ids[i] == id;
      BestIsLeast(evaluations, i);
    }
  }

  lemma OracleIsSequential(g: Game)
    requires g.Valid()
    ensures Sequential(g, OraclePolicy(g))
  {
    forall facts: Facts, budget: nat
      ensures SequentialAt(g, OraclePolicy(g), facts, budget)
    {
      if g.State(facts) && !Stops(g, facts, budget) {
        PlanIsBestQuestion(g, facts, budget);
      }
    }
  }

  /** Answering moves to one of the states the plan has looked at. */
  lemma NextFactsIsBranch(g: Game, facts: Facts, world: World, id: string) returns (i: nat)
    requires g.Valid() && g.State(facts) && IsCompleteWorld(g, facts, world) && g.Askable(facts, id)
    ensures i < |g.registry[id].projections|
    ensures NextFacts(g, facts, world, id) == Answered(facts, g.registry[id], g.registry[id].projections[i])
  {
    var q := g.registry[id];
    WorldNamesAnswer(g, facts, world, id);
    assert NextFacts(g, facts, world, id)[q.factAddress] in q.projections;
    i :| 0 <= i < |q.projections| && q.projections[i] == NextFacts(g, facts, world, id)[q.factAddress];
  }

  // ---------- Values of states ----------

  /** A loss for every state and budget, such as the worst loss of the plan. */
  type Value = (Facts, nat) -> Loss

  function PlanValue(g: Game): Value
    requires g.Valid()
  {
    (facts: Facts, budget: nat) =>
      if g.State(facts) then Plan(g, STANDARD, facts, budget).worstLoss else TerminalLoss(g.snapshot(facts))
  }

  ghost predicate TerminalAt(g: Game, value: Value, facts: Facts, budget: nat)
    requires g.Valid()
  {
    g.State(facts) && Stops(g, facts, budget) ==> value(facts, budget) == TerminalLoss(g.snapshot(facts))
  }

  /** The value of a state where nothing is asked is its own terminal loss. */
  ghost predicate EndsTerminal(g: Game, value: Value)
    requires g.Valid()
  {
    forall facts: Facts, budget: nat :: TerminalAt(g, value, facts, budget)
  }

  /** The value after answer `i` to question `id`, with the question paid for. */
  function AfterAnswer(g: Game, value: Value, facts: Facts, budget: nat, id: string, i: nat): Loss
    requires g.Valid() && g.State(facts) && g.Askable(facts, id) && i < |g.registry[id].projections|
    requires budget > 0
  {
    value(Answered(facts, g.registry[id], g.registry[id].projections[i]), budget - 1)
      .WithQuestionCost(0, g.registry[id].kindCost)
  }

  ghost predicate FairAt(le: (Loss, Loss) -> bool, a: Loss, b: Loss, c: Loss, asked: nat, cost: nat) {
    && le(a, a)
    && (le(a, b) && le(b, c) ==> le(a, c))
    && (le(a, b) ==> le(Charge(a, asked, cost), Charge(b, asked, cost)))
  }

  /** An order of losses that paying for questions does not disturb. */
  ghost predicate Fair(le: (Loss, Loss) -> bool) {
    forall a, b, c, asked: nat, cost: nat :: FairAt(le, a, b, c, asked, cost)
  }

  lemma LossLeIsFair()
    ensures Fair(LossLe)
  {
    forall a, b, c, asked: nat, cost: nat
      ensures FairAt(LossLe, a, b, c, asked, cost)
    {
      LossLeTotalOrder(a, b, c);
      LossLeTotalOrder(a, a, a);
      ChargeMonotone(a, b, asked, cost);
    }
  }

  lemma FairReflexive(le: (Loss, Loss) -> bool, a: Loss)
    requires Fair(le)
    ensures le(a, a)
  {
    assert FairAt(le, a, a, a, 0, 0);
  }

  lemma FairTransitive(le: (Loss, Loss) -> bool, a: Loss, b: Loss, c: Loss)
    requires Fair(le) && le(a, b) && le(b, c)
    ensures le(a, c)
  {
    assert FairAt(le, a, b, c, 0, 0);
  }

  ghost predicate CoversAt(g: Game, le: (Loss, Loss) -> bool, value: Value, select: Policy,
                           facts: Facts, budget: nat)
    requires g.Valid() && Sequential(g, select)
  {
    g.State(facts) && !Stops(g, facts, budget) ==>
      var id := Choice(g, select, facts, budget);
      ChoiceIsAskable(g, select, facts, budget);
      forall i | 0 <= i < |g.registry[id].projections| ::
        le(AfterAnswer(g, value, facts, budget, id, i), value(facts, budget))
  }

  /** Every answer to the question `select` asks stays within the value. */
  ghost predicate Covers(g: Game, le: (Loss, Loss) -> bool, value: Value, select: Policy)
    requires g.Valid() && Sequential(g, select)
  {
    forall facts: Facts, budget: nat :: CoversAt(g, le, value, select, facts, budget)
  }

  ghost predicate UnbeatableAt(g: Game, le: (Loss, Loss) -> bool, value: Value, facts: Facts, budget: nat, id: string)
    requires g.Valid()
  {
    g.State(facts) && !Stops(g, facts, budget) && Blocking(g.snapshot(facts), id) && g.Askable(facts, id) ==>
      exists i :: 0 <= i < |g.registry[id].projections|
                  && le(value(facts, budget), AfterAnswer(g, value, facts, budget, id, i))
  }

  /** Every question that may be asked has an answer at least as bad as the value. */
  ghost predicate Unbeatable(g: Game, le: (Loss, Loss) -> bool, value: Value)
    requires g.Valid()
  {
    forall facts: Facts, budget: nat, id :: UnbeatableAt(g, le, value, facts, budget, id)
  }

  /** `loss` at a point of a walk, with everything asked so far paid for. */
  function Booked(g: Game, loss: Loss, asked: seq<string>): Loss {
    Charge(loss, |asked|, KindCost(g, asked))
  }

  /** Paying for a question first or last makes no difference. */
  lemma PayEitherWay(g: Game, value: Value, facts: Facts, budget: nat, asked: seq<string>, id: string, i: nat)
    requires g.Valid() && g.State(facts) && g.Askable(facts, id) && budget > 0
    requires i < |g.registry[id].projections|
    ensures var next := Answered(facts, g.registry[id], g.registry[id].projections[i]);
            Booked(g, value(next, budget - 1), asked + [id])
            == Booked(g, AfterAnswer(g, value, facts, budget, id, i), asked)
  {
    assert (asked + [id])[..|asked|] == asked;
  }

  lemma BranchIsAfterAnswer(g: Game, facts: Facts, budget: nat, id: string, i: nat)
    requires g.Valid() && g.State(facts) && g.Askable(facts, id) && budget > 0
    requires i < |g.registry[id].projections|
    ensures BranchLosses(g, STANDARD, facts, budget, id)[i] == AfterAnswer(g, PlanValue(g), facts, budget, id, i)
  {
    BranchAt(g, STANDARD, facts, budget, id, i, Answered(facts, g.registry[id], g.registry[id].projections[i]));
  }

  lemma PlanValueCovers(g: Game)
    requires g.Valid() && Sequential(g, OraclePolicy(g))
    ensures Covers(g, LossLe, PlanValue(g), OraclePolicy(g))
  {
    forall facts: Facts, budget: nat
      ensures CoversAt(g, LossLe, PlanValue(g), OraclePolicy(g), facts, budget)
    {
      if g.State(facts) && !Stops(g, facts, budget) {
        var id := Choice(g, OraclePolicy(g), facts, budget);
        PlanIsBestQuestion(g, facts, budget);
        forall i | 0 <= i < |g.registry[id].projections|
          ensures LossLe(AfterAnswer(g, PlanValue(g), facts, budget, id, i), PlanValue(g)(facts, budget))
        {
          BranchIsAfterAnswer(g, facts, budget, id, i);
          WorstIsGreatest(BranchLosses(g, STANDARD, facts, budget, id), i);
        }
      }
    }
  }

  lemma PlanValueUnbeatable(g: Game)
    requires g.Valid()
    ensures Unbeatable(g, LossLe, PlanValue(g)) && EndsTerminal(g, PlanValue(g))
  {
    forall facts: Facts, budget: nat, id
      ensures UnbeatableAt(g, LossLe, PlanValue(g), facts, budget, id)
    {
      if g.State(facts) && !Stops(g, facts, budget) && Blocking(g.snapshot(facts), id) && g.Askable(facts, id) {
        PlanIsBestQuestion(g, facts, budget);
        var branches := BranchLosses(g, STANDARD, facts, budget, id);
        WorstIsListed(STANDARD, branches);
        var i :| 0 <= i < |branches| && branches[i] == Worst(STANDARD, branches);
        BranchIsAfterAnswer(g, facts, budget, id, i);
      }
    }
  }

  // ---------- Whole trajectories ----------

  /** Every question asked so far is settled by the facts. */
  ghost predicate Settled(g: Game, facts: Facts, asked: seq<string>) {
    forall id | id in asked ::
      && id in g.registry
      && g.registry[id].factAddress in facts
      && facts[g.registry[id].factAddress].Confirmed?
  }

  /** One turn of a walk that has not stopped: a new question, and the walk goes on. */
  lemma Turn(g: Game, select: Policy, world: World, remaining: nat, facts: Facts, asked: seq<string>)
    returns (id: string, next: Facts)
    requires g.Valid() && g.State(facts) && IsCompleteWorld(g, facts, world) && Sequential(g, select)
    requires Settled(g, facts, asked) && !Stops(g, facts, remaining)
    ensures remaining > 0 && id == Choice(g, select, facts, remaining) && g.Askable(facts, id)
    ensures next == NextFacts(g, facts, world, id)
    ensures g.State(next) && IsCompleteWorld(g, next, world)
    ensures id !in asked && Settled(g, next, asked + [id])
    ensures Walk(g, select, world, remaining, facts, asked)
         == Walk(g, select, world, remaining - 1, next, asked + [id])
  {
    id := Choice(g, select, facts, remaining);
    ChoiceIsAskable(g, select, facts, remaining);
    NextFactsKeepWorld(g, facts, world, id);
    next := NextFacts(g, facts, world, id);
  }

  /** No sequential policy ever asks a question twice. */
  lemma {:induction false} NoQuestionAskedTwice(g: Game, select: Policy, world: World, remaining: nat, facts: Facts,
                                                asked: seq<string>)
    requires g.Valid() && g.State(facts) && IsCompleteWorld(g, facts, world) && Sequential(g, select)
    requires Settled(g, facts, asked) && Distinct(asked)
    ensures var r := Walk(g, select, world, remaining, facts, asked);
            r.repeatedAttempts == 0 && Distinct(r.questions) && |r.questions| <= |asked| + remaining
    decreases remaining
  {
    if !Stops(g, facts, remaining) {
      var id, next := Turn(g, select, world, remaining, facts, asked);
      NoQuestionAskedTwice(g, select, world, remaining - 1, next, asked + [id]);
    }
  }

  lemma StoppedLoss(g: Game, value: Value, facts: Facts, asked: seq<string>, remaining: nat)
    requires g.Valid() && g.State(facts) && Stops(g, facts, remaining) && EndsTerminal(g, value)
    ensures TrajectoryLoss(g, Trajectory(facts, asked, 0)) == Booked(g, value(facts, remaining), asked)
  {
    assert TerminalAt(g, value, facts, remaining);
  }

  /** The answer the world gives to the question `select` asks. */
  lemma WorldMove(g: Game, select: Policy, world: World, remaining: nat, facts: Facts, asked: seq<string>,
                  end: Trajectory)
    returns (id: string, i: nat, next: Facts)
    requires g.Valid() && g.State(facts) && IsCompleteWorld(g, facts, world) && Sequential(g, select)
    requires Settled(g, facts, asked) && !Stops(g, facts, remaining)
    requires end == Walk(g, select, world, remaining, facts, asked)
    ensures id == Choice(g, select, facts, remaining) && g.Askable(facts, id) && remaining > 0
    ensures i < |g.registry[id].projections| && next == Answered(facts, g.registry[id], g.registry[id].projections[i])
    ensures g.State(next) && IsCompleteWorld(g, next, world) && Settled(g, next, asked + [id])
    ensures end == Walk(g, select, world, remaining - 1, next, asked + [id])
  {
    id, next := Turn(g, select, world, remaining, facts, asked);
    i := NextFactsIsBranch(g, facts, world, id);
  }

  /** Whatever the world answers, the value never gets worse along the way. */
  lemma AnswerWithinValue(g: Game, le: (Loss, Loss) -> bool, value: Value, select: Policy, remaining: nat,
                          facts: Facts, asked: seq<string>, id: string, i: nat)
    requires g.Valid() && g.State(facts) && Sequential(g, select) && !Stops(g, facts, remaining)
    requires Fair(le) && Covers(g, le, value, select)
    requires id == Choice(g, select, facts, remaining) && g.Askable(facts, id) && remaining > 0
    requires i < |g.registry[id].projections|
    ensures var next := Answered(facts, g.registry[id], g.registry[id].projections[i]);
            le(Booked(g, value(next, remaining - 1), asked + [id]), Booked(g, value(facts, remaining), asked))
  {
    PayEitherWay(g, value, facts, remaining, asked, id, i);
    assert CoversAt(g, le, value, select, facts, remaining);
    var after, here := AfterAnswer(g, value, facts, remaining, id, i), value(facts, remaining);
    assert FairAt(le, after, here, here, |asked|, KindCost(g, asked));
  }

  /** In no world does a policy end worse than a value that covers its questions. */
  lemma {:induction false} TrajectoryWithinValue(g: Game, le: (Loss, Loss) -> bool, value: Value, select: Policy,
                                                 world: World, remaining: nat, facts: Facts, asked: seq<string>,
                                                 end: Trajectory)
    requires g.Valid() && g.State(facts) && IsCompleteWorld(g, facts, world) && Sequential(g, select)
    requires Settled(g, facts, asked) && Fair(le) && Covers(g, le, value, select) && EndsTerminal(g, value)
    requires end == Walk(g, select, world, remaining, facts, asked)
    ensures le(TrajectoryLoss(g, end), Booked(g, value(facts, remaining), asked))
    decreases remaining
  {
    var loss, top := TrajectoryLoss(g, end), Booked(g, value(facts, remaining), asked);
    if Stops(g, facts, remaining) {
      StoppedLoss(g, value, facts, asked, remaining);
      FairReflexive(le, loss);
    } else {
      var id, i, next := WorldMove(g, select, world, remaining, facts, asked, end);
      TrajectoryWithinValue(g, le, value, select, world, remaining - 1, next, asked + [id], end);
      var middle := Booked(g, value(next, remaining - 1), asked + [id]);
      assert le(middle, top) by {
        AnswerWithinValue(g, le, value, select, remaining, facts, asked, id, i);
      }
      FairTransitive(le, loss, middle, top);
    }
  }

  /** The answer the adversary gives to the question `select` asks. */
  lemma AdversaryMove(g: Game, le: (Loss, Loss) -> bool, value: Value, select: Policy, remaining: nat,
                      facts: Facts, asked: seq<string>)
    returns (id: string, next: Facts)
    requires g.Valid() && g.State(facts) && Sequential(g, select) && !Stops(g, facts, remaining)
    requires Settled(g, facts, asked) && Fair(le) && Unbeatable(g, le, value)
    ensures id == Choice(g, select, facts, remaining) && g.Askable(facts, id) && remaining > 0
    ensures exists i :: 0 <= i < |g.registry[id].projections|
                        && next == Answered(facts, g.registry[id], g.registry[id].projections[i])
    ensures g.State(next) && Settled(g, next, asked + [id])
    ensures le(Booked(g, value(facts, remaining), asked), Booked(g, value(next, remaining - 1), asked + [id]))
  {
    id := Choice(g, select, facts, remaining);
    ChoiceIsAskable(g, select, facts, remaining);
    var q := g.registry[id];
    assert UnbeatableAt(g, le, value, facts, remaining, id);
    var i :| 0 <= i < |q.projections|
             && le(value(facts, remaining), AfterAnswer(g, value, facts, remaining, id, i));
    assert g.AnswersMatchWorlds(q) && q.projections[i] in q.projections;
    next := Answered(facts, q, q.projections[i]);
    PayEitherWay(g, value, facts, remaining, asked, id, i);
    var after, here := AfterAnswer(g, value, facts, remaining, id, i), value(facts, remaining);
    assert FairAt(le, here, after, after, |asked|, KindCost(g, asked));
  }

  /** In a world of the answered state, the walk takes that answer first. */
  lemma AdversaryMoveWalk(g: Game, select: Policy, world: World, remaining: nat, facts: Facts,
                          asked: seq<string>, id: string, next: Facts)
    requires g.Valid() && g.State(facts) && Sequential(g, select) && !Stops(g, facts, remaining)
    requires Settled(g, facts, asked)
    requires id == Choice(g, select, facts, remaining) && g.Askable(facts, id)
    requires exists i :: 0 <= i < |g.registry[id].projections|
                         && next == Answered(facts, g.registry[id], g.registry[id].projections[i])
    requires g.State(next) && IsCompleteWorld(g, next, world)
    ensures IsCompleteWorld(g, facts, world) && remaining > 0
    ensures Walk(g, select, world, remaining, facts, asked)
         == Walk(g, select, world, remaining - 1, next, asked + [id])
  {
    var i :| 0 <= i < |g.registry[id].projections|
             && next == Answered(facts, g.registry[id], g.registry[id].projections[i]);
    WorldBeforeAnswer(g, facts, world, id, i);
    var _, _ := Turn(g, select, world, remaining, facts, asked);
  }

  /** Against any sequential policy some world is at least as bad as an unbeatable value. */
  lemma {:induction false} AdversaryWorld(g: Game, le: (Loss, Loss) -> bool, value: Value, select: Policy,
                                          remaining: nat, facts: Facts, asked: seq<string>)
    returns (world: World, loss: Loss)
    requires g.Valid() && g.State(facts) && Sequential(g, select)
    requires Settled(g, facts, asked) && Fair(le) && Unbeatable(g, le, value) && EndsTerminal(g, value)
    ensures IsCompleteWorld(g, facts, world)
    ensures loss == TrajectoryLoss(g, Walk(g, select, world, remaining, facts, asked))
    ensures le(Booked(g, value(facts, remaining), asked), loss)
    decreases remaining
  {
    if Stops(g, facts, remaining) {
      world := SomeWorld(g, facts);
      StoppedLoss(g, value, facts, asked, remaining);
      loss := Booked(g, value(facts, remaining), asked);
      FairReflexive(le, loss);
    } else {
      var id, next := AdversaryMove(g, le, value, select, remaining, facts, asked);
      world, loss := AdversaryWorld(g, le, value, select, remaining - 1, next, asked + [id]);
      AdversaryMoveWalk(g, select, world, remaining, facts, asked, id, next);
      FairTransitive(le, Booked(g, value(facts, remaining), asked),
                     Booked(g, value(next, remaining - 1), asked + [id]), loss);
    }
  }

  /** A world of an answered state is a world of the state before, and leads back to it. */
  lemma WorldBeforeAnswer(g: Game, facts: Facts, world: World, id: string, i: nat)
    requires g.Valid() && g.State(facts) && g.Askable(facts, id) && i < |g.registry[id].projections|
    requires g.State(Answered(facts, g.registry[id], g.registry[id].projections[i]))
    requires IsCompleteWorld(g, Answered(facts, g.registry[id], g.registry[id].projections[i]), world)
    ensures IsCompleteWorld(g, facts, world)
    ensures NextFacts(g, facts, world, id) == Answered(facts, g.registry[id], g.registry[id].projections[i])
  {
    var q := g.registry[id];
    assert g.AnswersMatchWorlds(q);
    var p := q.projections[i];
    assert p in q.projections && world[q.factAddress] == p.value;
    forall a | a in g.addresses
      ensures a in world && (if facts[a].Confirmed? then world[a] == facts[a].value
                             else world[a] in g.worldValues[a])
    {
      assert Answered(facts, q, p)[a] == if a == q.factAddress then p else facts[a];
    }
    WorldNamesAnswer(g, facts, world, id);
    var chosen := ProjectionFor(q, world[q.factAddress]);
    var k :| 0 <= k < |q.projections| && q.projections[k] == chosen;
    assert k == i;
  }

  // ---------- Main results ----------

  /** No sequential policy has a smaller worst-world loss than the plan. */
  lemma PlanIsOptimal(g: Game, select: Policy, facts: Facts, budget: nat)
    requires g.Valid() && g.State(facts) && Sequential(g, select)
    ensures LossLe(Plan(g, STANDARD, facts, budget).worstLoss, CaseWorst(g, select, facts, budget))
  {
    var plan := Plan(g, STANDARD, facts, budget).worstLoss;
    LossLeIsFair();
    PlanValueUnbeatable(g);
    var world, loss := AdversaryWorld(g, LossLe, PlanValue(g), select, budget, facts, []);
    CompleteWorldsAreAll(g, facts, world);
    var worlds := CompleteWorlds(g, facts);
    var i :| 0 <= i < |worlds| && worlds[i] == world;
    var losses := WorldLosses(g, select, facts, budget);
    WorldsExist(g, facts);
    WorstIsGreatest(losses, i);
    assert Booked(g, plan, []) == plan;
    LossLeTotalOrder(plan, losses[i], Worst(STANDARD, losses));
  }

  /** Re-planning at every step realises exactly the loss the root plan announced, and asks
      nothing twice. */
  lemma ReplanningRealisesPlan(g: Game, facts: Facts, budget: nat)
    requires g.Valid() && g.State(facts)
    ensures Sequential(g, OraclePolicy(g))
    ensures CaseWorst(g, OraclePolicy(g), facts, budget) == Plan(g, STANDARD, facts, budget).worstLoss
    ensures forall world | IsCompleteWorld(g, facts, world) ::
              var r := Walk(g, OraclePolicy(g), world, budget, facts, []);
              r.repeatedAttempts == 0 && Distinct(r.questions) && |r.questions| <= budget
  {
    OracleIsSequential(g);
    var plan := Plan(g, STANDARD, facts, budget).worstLoss;
    PlanIsOptimal(g, OraclePolicy(g), facts, budget);
    WorldsExist(g, facts);
    var losses := WorldLosses(g, OraclePolicy(g), facts, budget);
    var worst := Worst(STANDARD, losses);
    WorstIsListed(STANDARD, losses);
    var i :| 0 <= i < |losses| && losses[i] == worst;
    var world := CompleteWorlds(g, facts)[i];
    CompleteWorldsAreAll(g, facts, world);
    LossLeIsFair();
    PlanValueCovers(g);
    PlanValueUnbeatable(g);
    TrajectoryWithinValue(g, LossLe, PlanValue(g), OraclePolicy(g), world, budget, facts, [],
                          Walk(g, OraclePolicy(g), world, budget, facts, []));
    assert Booked(g, plan, []) == plan;
    LossLeTotalOrder(plan, worst, plan);
    forall world | IsCompleteWorld(g, facts, world)
      ensures var r := Walk(g, OraclePolicy(g), world, budget, facts, []);
              r.repeatedAttempts == 0 && Distinct(r.questions) && |r.questions| <= budget
    {
      NoQuestionAskedTwice(g, OraclePolicy(g), world, budget, facts, []);
    }
  }
}
