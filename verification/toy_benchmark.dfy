/** The benchmark's toy decision domain and the policies it compares on it. */
module ToyBenchmark {
  import opened Wrappers
  import opened Text
  import opened Planner
  import opened Trajectories
  import opened GameTheorems

  const BALANCED := "decision.balanced"
  const GREEDY := "decision.greedy"
  const TAIL := "decision.tail"
  const ADDRESSES := [BALANCED, GREEDY, TAIL]
  const CONFIRM_BALANCED := "confirm_balanced_root"
  const CONFIRM_GREEDY := "confirm_greedy"
  const CONFIRM_TAIL := "confirm_tail"
  const FIXED_ORDER := [CONFIRM_GREEDY, CONFIRM_TAIL, CONFIRM_BALANCED]
  const SINGLE_CHOICE_COST := 2

  predicate IsAnswered(facts: Facts, address: string) {
    address in facts && facts[address].Confirmed?
  }

  function Clarify(blockers: seq<Blocker>, frontierSize: nat): Snapshot {
    Snapshot(CLARIFY, blockers, frontierSize)
  }

  function ToySnapshot(facts: Facts): Snapshot {
    var greedy := IsAnswered(facts, GREEDY);
    var tail := IsAnswered(facts, TAIL);
    if IsAnswered(facts, BALANCED) then
      var (address, question) :=
        if facts[BALANCED].value == "first" then (GREEDY, CONFIRM_GREEDY) else (TAIL, CONFIRM_TAIL);
      if IsAnswered(facts, address) then Snapshot("recommend_local", [], 1)
      else Clarify([Blocker(address, question, if greedy && address == TAIL then 2 else 3)], 2)
    else if greedy && tail then
      Clarify([Blocker(BALANCED, CONFIRM_BALANCED, 4)], 2)
    else if greedy then
      Clarify([Blocker(BALANCED, CONFIRM_BALANCED, 2), Blocker(TAIL, CONFIRM_TAIL, 2)], 2)
    else if tail then
      Clarify([Blocker(BALANCED, CONFIRM_BALANCED, 4), Blocker(GREEDY, CONFIRM_GREEDY, 4)], 3)
    else
      Clarify([Blocker(BALANCED, CONFIRM_BALANCED, 4), Blocker(GREEDY, CONFIRM_GREEDY, 4),
               Blocker(TAIL, CONFIRM_TAIL, 4)], 3)
  }

  function BinaryQuestion(id: string, address: string): Question {
    Question(id, address, [SimulatedAnswer(id, "first"), SimulatedAnswer(id, "second")], SINGLE_CHOICE_COST)
  }

  function SimulatedAnswer(id: string, value: string): Fact {
    Confirmed(value, ["planner-simulation:" + id + ":choice_" + value + ":" + value])
  }

  function ToyRegistry(): map<string, Question> {
    map[CONFIRM_BALANCED := BinaryQuestion(CONFIRM_BALANCED, BALANCED),
        CONFIRM_GREEDY := BinaryQuestion(CONFIRM_GREEDY, GREEDY),
        CONFIRM_TAIL := BinaryQuestion(CONFIRM_TAIL, TAIL)]
  }

  function ToyGame(): Game {
    Game(ToySnapshot, ToyRegistry(), ADDRESSES,
         map[BALANCED := ["first", "second"], GREEDY := ["first", "second"], TAIL := ["first", "second"]])
  }

  /** Every blocker of the toy snapshot is the registered question of a fact not answered yet. */
  lemma ToyBlockersAskable(facts: Facts, b: Blocker)
    requires ToyGame().State(facts) && b in ToySnapshot(facts).blockers
    ensures ToyGame().Askable(facts, b.questionId)
  {
    var g := ToyGame();
    assert BALANCED in g.addresses && GREEDY in g.addresses && TAIL in g.addresses;
    assert BALANCED in facts && GREEDY in facts && TAIL in facts;
    assert (b == Blocker(BALANCED, CONFIRM_BALANCED, b.severity) && !IsAnswered(facts, BALANCED))
        || (b == Blocker(GREEDY, CONFIRM_GREEDY, b.severity) && !IsAnswered(facts, GREEDY))
        || (b == Blocker(TAIL, CONFIRM_TAIL, b.severity) && !IsAnswered(facts, TAIL));
  }

  lemma ToyAnswersMatchWorlds(id: string)
    requires id in ToyRegistry()
    ensures ToyGame().AnswersMatchWorlds(ToyRegistry()[id])
  {
    var q := ToyRegistry()[id];
    assert q.projections[0].value == "first" && q.projections[1].value == "second";
    assert q.projections[0] in q.projections && q.projections[1] in q.projections;
    assert "first"[0] != "second"[0];
  }

  /** The toy domain meets the one hypothesis the planner theorems need. */
  lemma ToyGameIsValid()
    ensures ToyGame().Valid()
  {
    var g := ToyGame();
    assert "decision.balanced"[9] == 'b' && "decision.greedy"[9] == 'g' && "decision.tail"[9] == 't';
    forall id | id in g.registry
      ensures g.AnswersMatchWorlds(g.registry[id])
    {
      ToyAnswersMatchWorlds(id);
    }
    forall facts: Facts, b | g.State(facts) && b in g.snapshot(facts).blockers
      ensures g.Askable(facts, b.questionId)
    {
      ToyBlockersAskable(facts, b);
    }
    forall a | a in g.addresses
      ensures a in g.worldValues
    {
    }
    assert g.worldValues.Keys == (set a | a in g.addresses);
  }

  // ---------- The rival policies ----------

  /** `fixed_tree`: the first available question in a fixed order. */
  function FixedTree(g: Game, order: seq<string>): Policy {
    (facts: Facts, budget: nat) => FirstAvailable(g.snapshot(facts), order)
  }

  function FirstAvailable(snap: Snapshot, order: seq<string>): Option<string> {
    if order == [] then None
    else if Blocking(snap, order[0]) then Some(order[0])
    else FirstAvailable(snap, order[1..])
  }

  lemma {:induction false} FirstAvailableBlocks(snap: Snapshot, order: seq<string>, id: string)
    requires id in order && Blocking(snap, id)
    ensures FirstAvailable(snap, order).Some? && Blocking(snap, FirstAvailable(snap, order).value)
  {
    if !Blocking(snap, order[0]) {
      assert id in order[1..];
      FirstAvailableBlocks(snap, order[1..], id);
    }
  }

  lemma FixedTreeIsSequential(g: Game, order: seq<string>)
    requires g.Valid() && forall id | id in g.registry :: id in order
    ensures Sequential(g, FixedTree(g, order))
  {
    forall facts: Facts, budget: nat
      ensures SequentialAt(g, FixedTree(g, order), facts, budget)
    {
      if g.State(facts) && !Stops(g, facts, budget) {
        var b := g.snapshot(facts).blockers[0];
        assert b in g.snapshot(facts).blockers;
        assert g.Askable(facts, b.questionId);
        FirstAvailableBlocks(g.snapshot(facts), order, b.questionId);
      }
    }
  }

  /** The severity a question counts with: that of its last blocker. */
  function SeverityOf(blockers: seq<Blocker>, id: string): nat {
    if blockers == [] then 0
    else if blockers[|blockers| - 1].questionId == id then blockers[|blockers| - 1].severity
    else SeverityOf(blockers[..|blockers| - 1], id)
  }

  predicate LegacyBefore(snap: Snapshot, impact: string -> nat, a: string, b: string) {
    var x, y := SeverityOf(snap.blockers, a), SeverityOf(snap.blockers, b);
    x > y || (x == y && (impact(a) > impact(b) || (impact(a) == impact(b) && Before(a, b, CharRank))))
  }

  function LegacyChoice(snap: Snapshot, impact: string -> nat, ids: seq<string>): (r: string)
    requires ids != []
    ensures r in ids
  {
    var last := ids[|ids| - 1];
    if |ids| == 1 then last
    else
      var best := LegacyChoice(snap, impact, ids[..|ids| - 1]);
      if LegacyBefore(snap, impact, last, best) then last else best
  }

  /** `legacy_severity_impact`: most severe, then most impact, then first by name. */
  function LegacySeverityImpact(g: Game, impact: string -> nat): Policy {
    (facts: Facts, budget: nat) =>
      var ids := CandidateQuestionIds(g.snapshot(facts));
      if ids == [] then None else Some(LegacyChoice(g.snapshot(facts), impact, ids))
  }

  lemma LegacyIsSequential(g: Game, impact: string -> nat)
    requires g.Valid()
    ensures Sequential(g, LegacySeverityImpact(g, impact))
  {
    forall facts: Facts, budget: nat
      ensures SequentialAt(g, LegacySeverityImpact(g, impact), facts, budget)
    {
      CandidatesAreBlockerQuestions(g.snapshot(facts));
    }
  }

  /** The losses one step ahead, with nothing asked after that. */
  function OneStepLosses(g: Game, facts: Facts, id: string): (r: seq<Loss>)
    requires g.Valid() && g.State(facts) && g.Askable(facts, id)
    ensures r != []
  {
    var q := g.registry[id];
    assert g.AnswersMatchWorlds(q);
    seq(|q.projections|, i requires 0 <= i < |q.projections| =>
      TerminalLoss(g.snapshot(Answered(facts, q, q.projections[i]))).WithQuestionCost(0, q.kindCost))
  }

  function OneStepEvaluations(g: Game, facts: Facts): (r: seq<(Loss, string)>)
    requires g.Valid() && g.State(facts)
    ensures |r| == |CandidateQuestionIds(g.snapshot(facts))|
    ensures forall e | e in r :: e.1 in CandidateQuestionIds(g.snapshot(facts))
  {
    var ids := CandidateQuestionIds(g.snapshot(facts));
    CandidatesAreAskable(g, facts);
    seq(|ids|, i requires 0 <= i < |ids| => (Worst(STANDARD, OneStepLosses(g, facts, ids[i])), ids[i]))
  }

  function OneStepChoice(g: Game, facts: Facts): Option<string>
    requires g.Valid() && g.State(facts)
  {
    var ids := CandidateQuestionIds(g.snapshot(facts));
    if g.snapshot(facts).action != CLARIFY || ids == [] then None
    else Some(Best(STANDARD, OneStepEvaluations(g, facts)).1)
  }

  /** `one_step_greedy`: the question whose worst answer looks best right after it. */
  function OneStepGreedy(g: Game): Policy
    requires g.Valid()
  {
    (facts: Facts, budget: nat) => if g.State(facts) then OneStepChoice(g, facts) else None
  }

  lemma OneStepGreedyIsSequential(g: Game)
    requires g.Valid()
    ensures Sequential(g, OneStepGreedy(g))
  {
    forall facts: Facts, budget: nat
      ensures SequentialAt(g, OneStepGreedy(g), facts, budget)
    {
      if g.State(facts) && !Stops(g, facts, budget) {
        CandidatesAreBlockerQuestions(g.snapshot(facts));
        BestIsListed(STANDARD, OneStepEvaluations(g, facts));
      }
    }
  }

  /** None of the three rivals ever has a smaller worst-world loss than the re-planning oracle. */
  lemma NoRivalBeatsTheOracle(facts: Facts, budget: nat, impact: string -> nat)
    requires ToyGame().State(facts)
    ensures ToyGame().Valid()
    ensures var g := ToyGame();
            && Sequential(g, OraclePolicy(g)) && Sequential(g, FixedTree(g, FIXED_ORDER))
            && Sequential(g, LegacySeverityImpact(g, impact)) && Sequential(g, OneStepGreedy(g))
            && LossLe(CaseWorst(g, OraclePolicy(g), facts, budget),
                      CaseWorst(g, FixedTree(g, FIXED_ORDER), facts, budget))
            && LossLe(CaseWorst(g, OraclePolicy(g), facts, budget),
                      CaseWorst(g, LegacySeverityImpact(g, impact), facts, budget))
            && LossLe(CaseWorst(g, OraclePolicy(g), facts, budget), CaseWorst(g, OneStepGreedy(g), facts, budget))
  {
    var g := ToyGame();
    ToyGameIsValid();
    FixedTreeIsSequential(g, FIXED_ORDER);
    LegacyIsSequential(g, impact);
    OneStepGreedyIsSequential(g);
    ReplanningRealisesPlan(g, facts, budget);
    PlanIsOptimal(g, FixedTree(g, FIXED_ORDER), facts, budget);
    PlanIsOptimal(g, LegacySeverityImpact(g, impact), facts, budget);
    PlanIsOptimal(g, OneStepGreedy(g), facts, budget);
  }
}
