/** The clarification planner of the counterfactual benchmark, read as a finite game.

    The planner asks questions to remove the worst remaining uncertainty; the answers are chosen
    by an adversary.  A `Game` holds what the benchmark fixes for its toy domain: the decision
    snapshot of a set of facts, the question registry, and the values each fact may take. */
module Planner {
  import opened Wrappers
  import opened Text
  import opened Sorting

  const CLARIFY := "clarify"

  datatype Fact =
    | Unknown(reasonCode: string)
    | Confirmed(value: string, provenanceRefs: seq<string>)

  type Facts = map<string, Fact>
  type World = map<string, string>

  datatype Blocker = Blocker(factAddress: string, questionId: string, severity: nat)

  datatype Snapshot = Snapshot(action: string, blockers: seq<Blocker>, frontierSize: nat)

  /** How many blockers there are of each severity. */
  datatype Risk = Risk(e5: nat, e4: nat, e3: nat, e2: nat, e1: nat)

  datatype Loss = Loss(risk: Risk, frontierSize: nat, blockingFactCount: nat,
                       questionsAsked: nat, dependencyDeficit: nat, answerKindCost: nat)
  {
    function WithQuestionCost(deficit: nat, kindCost: nat): Loss {
      this.(questionsAsked := questionsAsked + 1,
            dependencyDeficit := dependencyDeficit + deficit,
            answerKindCost := answerKindCost + kindCost)
    }
  }

  datatype Outcome = Outcome(selectedQuestionId: Option<string>, worstLoss: Loss)

  /** `projections` are the substantive answers of the question, as the facts they establish. */
  datatype Question = Question(id: string, factAddress: string, projections: seq<Fact>, kindCost: nat)

  /** `lossKey` and `useMinForWorstBranch` are the two constructor options of the oracle. */
  datatype Rule = Rule(useMinForWorstBranch: bool, lossKey: Loss -> seq<int>)

  // ---------- Losses ----------

  function CorrectLossKey(loss: Loss): seq<int> {
    [loss.risk.e5, loss.risk.e4, loss.risk.e3, loss.risk.e2, loss.risk.e1, loss.frontierSize,
     loss.blockingFactCount, loss.questionsAsked, loss.dependencyDeficit, loss.answerKindCost]
  }

  const STANDARD := Rule(false, CorrectLossKey)

  predicate KeyBefore(a: seq<int>, b: seq<int>) {
    Before(a, b, IntRank)
  }

  /** The order of the `TerminalLoss` dataclass. */
  predicate LossLe(a: Loss, b: Loss) {
    !KeyBefore(CorrectLossKey(b), CorrectLossKey(a))
  }

  function RiskVector(blockers: seq<Blocker>): Risk {
    Risk(SeverityCount(blockers, 5), SeverityCount(blockers, 4), SeverityCount(blockers, 3),
         SeverityCount(blockers, 2), SeverityCount(blockers, 1))
  }

  function SeverityCount(blockers: seq<Blocker>, severity: int): nat {
    if blockers == [] then 0
    else (if blockers[0].severity == severity then 1 else 0) + SeverityCount(blockers[1..], severity)
  }

  function TerminalLoss(snap: Snapshot): Loss {
    Loss(RiskVector(snap.blockers), snap.frontierSize, |snap.blockers|, 0, 0, 0)
  }

  /** `max(losses, key=...)` or `min(losses, key=...)`: the first extreme element. */
  function Worst(rule: Rule, losses: seq<Loss>): Loss
    requires losses != []
  {
    var last := losses[|losses| - 1];
    if |losses| == 1 then last
    else
      var best := Worst(rule, losses[..|losses| - 1]);
      if rule.useMinForWorstBranch
      then if KeyBefore(rule.lossKey(last), rule.lossKey(best)) then last else best
      else if KeyBefore(rule.lossKey(best), rule.lossKey(last)) then last else best
  }

  /** `(key(loss), id)` compared as a Python tuple. */
  predicate EvaluationBefore(rule: Rule, a: (Loss, string), b: (Loss, string)) {
    KeyBefore(rule.lossKey(a.0), rule.lossKey(b.0)) ||
    (!KeyBefore(rule.lossKey(b.0), rule.lossKey(a.0)) && Before(a.1, b.1, CharRank))
  }

  /** `min(evaluations, key=lambda item: (key(item[0]), item[1]))`. */
  function Best(rule: Rule, evaluations: seq<(Loss, string)>): (Loss, string)
    requires evaluations != []
  {
    var last := evaluations[|evaluations| - 1];
    if |evaluations| == 1 then last
    else
      var best := Best(rule, evaluations[..|evaluations| - 1]);
      if EvaluationBefore(rule, last, best) then last else best
  }

  lemma {:induction false} WorstIsListed(rule: Rule, losses: seq<Loss>)
    requires losses != []
    ensures Worst(rule, losses) in losses
  {
    if |losses| > 1 {
      WorstIsListed(rule, losses[..|losses| - 1]);
    }
  }

  lemma {:induction false} BestIsListed(rule: Rule, evaluations: seq<(Loss, string)>)
    requires evaluations != []
    ensures Best(rule, evaluations) in evaluations
  {
    if |evaluations| > 1 {
      BestIsListed(rule, evaluations[..|evaluations| - 1]);
    }
  }

  // ---------- The game ----------

  /** `worldValues` gives, for every fact address, the values a complete world may hold. */
  datatype Game = Game(snapshot: Facts -> Snapshot, registry: map<string, Question>,
                       addresses: seq<string>, worldValues: map<string, seq<string>>)
  {
    predicate State(facts: Facts) {
      forall a | a in addresses :: a in facts
    }

    predicate Askable(facts: Facts, id: string) {
      && id in registry
      && registry[id].factAddress in addresses
      && registry[id].factAddress in facts
      && facts[registry[id].factAddress].Unknown?
    }

    predicate AnswersMatchWorlds(q: Question) {
      && q.factAddress in worldValues
      && q.projections != []
      && (forall p | p in q.projections :: p.Confirmed? && p.value in worldValues[q.factAddress])
      && (forall i, j | 0 <= i < j < |q.projections| :: q.projections[i].value != q.projections[j].value)
      && (forall v | v in worldValues[q.factAddress] :: exists p | p in q.projections :: p.value == v)
    }

    /** Blockers name only registered questions about facts not answered yet, and the answers of
        a question are exactly the values the worlds allow for its fact. */
    ghost predicate Valid() {
      && Distinct(addresses)
      && worldValues.Keys == (set a | a in addresses)
      && (forall a | a in worldValues :: worldValues[a] != [])
      && (forall id | id in registry && registry[id].factAddress in addresses ::
            AnswersMatchWorlds(registry[id]))
      && (forall facts: Facts, b | State(facts) && b in snapshot(facts).blockers ::
            Askable(facts, b.questionId))
    }
  }

  /** The elements of `s` without repeats, as `set(s)` in order of first occurrence. */
  function Unique(s: seq<string>): (r: seq<string>)
    ensures forall x :: x in r <==> x in s
    ensures Distinct(r)
  {
    if s == [] then []
    else
      var front := Unique(s[..|s| - 1]);
      var x := s[|s| - 1];
      assert s == s[..|s| - 1] + [x];
      if x in front then front else front + [x]
  }

  function BlockerQuestionId(b: Blocker): string { b.questionId }

  function CandidateQuestionIds(snap: Snapshot): seq<string> {
    Sort(Unique(Map(BlockerQuestionId, snap.blockers)), TextLe)
  }

  /** `id` is the question of a current blocker. */
  predicate Blocking(snap: Snapshot, id: string) {
    exists b | b in snap.blockers :: b.questionId == id
  }

  lemma CandidatesAreBlockerQuestions(snap: Snapshot)
    ensures forall id :: id in CandidateQuestionIds(snap) <==> Blocking(snap, id)
    ensures snap.blockers == [] <==> CandidateQuestionIds(snap) == []
  {
    var ids := Map(BlockerQuestionId, snap.blockers);
    var candidates := CandidateQuestionIds(snap);
    SortPermutes(Unique(ids), TextLe);
    forall id
      ensures id in candidates <==> Blocking(snap, id)
    {
      assert id in candidates <==> id in multiset(candidates);
      assert id in candidates <==> id in ids;
      if id in ids {
        var i :| 0 <= i < |ids| && ids[i] == id;
        assert snap.blockers[i].questionId == id;
      }
      if b :| b in snap.blockers && b.questionId == id {
        var i :| 0 <= i < |snap.blockers| && snap.blockers[i] == b;
        assert ids[i] == id;
      }
    }
    if snap.blockers != [] {
      assert Blocking(snap, snap.blockers[0].questionId);
    }
    if candidates != [] {
      assert Blocking(snap, candidates[0]);
    }
  }

  lemma CandidatesAreAskable(g: Game, facts: Facts)
    requires g.Valid() && g.State(facts)
    ensures forall id | id in CandidateQuestionIds(g.snapshot(facts)) :: g.Askable(facts, id)
  {
    CandidatesAreBlockerQuestions(g.snapshot(facts));
  }

  /** Facts after the question at `q.factAddress` was answered with `p`. */
  function Answered(facts: Facts, q: Question, p: Fact): Facts {
    facts[q.factAddress := p]
  }

  // ---------- Plain recursive minimax ----------

  predicate Stops(g: Game, facts: Facts, budget: nat) {
    g.snapshot(facts).action != CLARIFY || budget == 0 || g.snapshot(facts).blockers == []
  }

  function Plan(g: Game, rule: Rule, facts: Facts, budget: nat): Outcome
    requires g.Valid() && g.State(facts)
    decreases budget, 2
  {
    var snap := g.snapshot(facts);
    if Stops(g, facts, budget) then Outcome(None, TerminalLoss(snap))
    else
      CandidatesAreBlockerQuestions(snap);
      var (loss, id) := Best(rule, Evaluations(g, rule, facts, budget));
      Outcome(Some(id), loss)
  }

  function Evaluations(g: Game, rule: Rule, facts: Facts, budget: nat): (r: seq<(Loss, string)>)
    requires g.Valid() && g.State(facts) && budget > 0
    ensures |r| == |CandidateQuestionIds(g.snapshot(facts))|
    decreases budget, 1
  {
    CandidatesAreAskable(g, facts);
    var ids := CandidateQuestionIds(g.snapshot(facts));
    seq(|ids|, i requires 0 <= i < |ids| =>
      (Worst(rule, BranchLosses(g, rule, facts, budget, ids[i])), ids[i]))
  }

  function BranchLosses(g: Game, rule: Rule, facts: Facts, budget: nat, id: string): (r: seq<Loss>)
    requires g.Valid() && g.State(facts) && budget > 0 && g.Askable(facts, id)
    ensures |r| == |g.registry[id].projections| > 0
    decreases budget, 0
  {
    var q := g.registry[id];
    seq(|q.projections|, i requires 0 <= i < |q.projections| =>
      Plan(g, rule, Answered(facts, q, q.projections[i]), budget - 1).worstLoss
        .WithQuestionCost(0, q.kindCost))
  }

  lemma EvaluationAt(g: Game, rule: Rule, facts: Facts, budget: nat, i: nat)
    requires g.Valid() && g.State(facts) && budget > 0 && i < |CandidateQuestionIds(g.snapshot(facts))|
    ensures var id := CandidateQuestionIds(g.snapshot(facts))[i];
            && g.Askable(facts, id)
            && Evaluations(g, rule, facts, budget)[i] == (Worst(rule, BranchLosses(g, rule, facts, budget, id)), id)
  {
    CandidatesAreAskable(g, facts);
  }

  lemma BranchAt(g: Game, rule: Rule, facts: Facts, budget: nat, id: string, j: nat, next: Facts)
    requires g.Valid() && g.State(facts) && budget > 0 && g.Askable(facts, id) && j < |g.registry[id].projections|
    requires next == Answered(facts, g.registry[id], g.registry[id].projections[j])
    ensures g.State(next)
    ensures BranchLosses(g, rule, facts, budget, id)[j]
            == Plan(g, rule, next, budget - 1).worstLoss.WithQuestionCost(0, g.registry[id].kindCost)
  {
  }

  // ---------- The memoised search ----------

  predicate SameDigest(digest: Facts -> string, a: Facts, b: Facts) {
    digest(a) == digest(b)
  }

  ghost predicate Injective(digest: Facts -> string) {
    forall a, b :: SameDigest(digest, a, b) ==> a == b
  }

  type Memo = map<(nat, string), Outcome>

  /** Nothing was forgotten, and every new entry carries a budget of at most `limit`. */
  ghost predicate GrewUpTo(before: Memo, after: Memo, limit: int) {
    && (forall key | key in before :: key in after)
    && (forall key | key in after && key !in before :: key.0 <= limit)
  }

  lemma GrowthComposes(before: Memo, between: Memo, after: Memo, limit: int)
    requires GrewUpTo(before, between, limit) && GrewUpTo(between, after, limit)
    ensures GrewUpTo(before, after, limit)
  {
  }

  /** The oracle of the benchmark: one memo table shared by every call made on the object. */
  class IndependentOracle {
    const game: Game
    const rule: Rule
    const digest: Facts -> string
    var memo: Memo
    var evaluatedStateCount: nat
    var memoHitCount: nat

    /** Every cached outcome is the one the plain search computes for that state. */
    ghost predicate Valid()
      reads this
    {
      && game.Valid()
      && Injective(digest)
      && forall budget: nat, facts: Facts | (budget, digest(facts)) in memo ::
           game.State(facts) && memo[(budget, digest(facts))] == Plan(game, rule, facts, budget)
    }

    constructor (game: Game, rule: Rule, digest: Facts -> string)
      requires game.Valid() && Injective(digest)
      ensures Valid() && memo == map[] && evaluatedStateCount == memoHitCount == 0
      ensures this.game == game && this.rule == rule && this.digest == digest
    {
      this.game, this.rule, this.digest := game, rule, digest;
      memo, evaluatedStateCount, memoHitCount := map[], 0, 0;
    }

    /** Same answer as the plain search; only states that were not cached are evaluated, each
        exactly once, and everything stored on the way carries at most this budget. */
    method Policy(facts: Facts, budget: nat) returns (outcome: Outcome)
      requires Valid() && game.State(facts)
      modifies this
      ensures Valid()
      ensures outcome == Plan(game, rule, facts, budget)
      ensures (budget, digest(facts)) in memo
      ensures evaluatedStateCount - |memo| == old(evaluatedStateCount) - |old(memo)|
      ensures evaluatedStateCount >= old(evaluatedStateCount)
      ensures GrewUpTo(old(memo), memo, budget)
      ensures (budget, digest(facts)) in old(memo) ==>
                memo == old(memo) && memoHitCount == old(memoHitCount) + 1
      ensures (budget, digest(facts)) !in old(memo) ==> evaluatedStateCount > old(evaluatedStateCount)
      decreases budget, 3
    {
      var key := (budget, digest(facts));
      if key in memo {
        memoHitCount := memoHitCount + 1;
        return memo[key];
      }
      evaluatedStateCount := evaluatedStateCount + 1;
      var snap := game.snapshot(facts);
      if snap.action != CLARIFY || budget == 0 {
        outcome := Outcome(None, TerminalLoss(snap));
      } else {
        var evaluations := EvaluateQuestions(facts, budget);
        CandidatesAreBlockerQuestions(snap);
        if evaluations == [] {
          outcome := Outcome(None, TerminalLoss(snap));
        } else {
          var best := Best(rule, evaluations);
          outcome := Outcome(Some(best.1), best.0);
        }
      }
      Store(facts, budget, outcome);
    }

    /** The outer loop of `policy`: the worst answer of every candidate question. */
    method EvaluateQuestions(facts: Facts, budget: nat) returns (evaluations: seq<(Loss, string)>)
      requires Valid() && game.State(facts) && budget > 0
      modifies this
      ensures Valid()
      ensures evaluations == Evaluations(game, rule, facts, budget)
      ensures evaluatedStateCount - |memo| == old(evaluatedStateCount) - |old(memo)|
      ensures evaluatedStateCount >= old(evaluatedStateCount)
      ensures GrewUpTo(old(memo), memo, budget - 1)
      decreases budget, 2
    {
      var ids := CandidateQuestionIds(game.snapshot(facts));
      CandidatesAreAskable(game, facts);
      ghost var expected := Evaluations(game, rule, facts, budget);
      evaluations := [];
      for i := 0 to |ids|
        invariant Valid() && evaluations == expected[..i]
        invariant evaluatedStateCount - |memo| == old(evaluatedStateCount) - |old(memo)|
        invariant evaluatedStateCount >= old(evaluatedStateCount)
        invariant GrewUpTo(old(memo), memo, budget - 1)
      {
        ghost var known := memo;
        var branchLosses := AskBranches(facts, budget, ids[i]);
        GrowthComposes(old(memo), known, memo, budget - 1);
        EvaluationAt(game, rule, facts, budget, i);
        var evaluation := (Worst(rule, branchLosses), ids[i]);
        AppendNext(evaluations, expected, i, evaluation);
        evaluations := evaluations + [evaluation];
      }
    }

    /** The inner loop of `policy`: one recursive call for each substantive answer. */
    method AskBranches(facts: Facts, budget: nat, id: string) returns (branchLosses: seq<Loss>)
      requires Valid() && game.State(facts) && budget > 0 && game.Askable(facts, id)
      modifies this
      ensures Valid()
      ensures branchLosses == BranchLosses(game, rule, facts, budget, id)
      ensures evaluatedStateCount - |memo| == old(evaluatedStateCount) - |old(memo)|
      ensures evaluatedStateCount >= old(evaluatedStateCount)
      ensures GrewUpTo(old(memo), memo, budget - 1)
      decreases budget, 1
    {
      var q := game.registry[id];
      ghost var expected := BranchLosses(game, rule, facts, budget, id);
      branchLosses := [];
      for j := 0 to |q.projections|
        invariant Valid() && branchLosses == expected[..j]
        invariant evaluatedStateCount - |memo| == old(evaluatedStateCount) - |old(memo)|
        invariant evaluatedStateCount >= old(evaluatedStateCount)
        invariant GrewUpTo(old(memo), memo, budget - 1)
      {
        ghost var known := memo;
        var loss := AskBranch(facts, budget, id, j);
        GrowthComposes(old(memo), known, memo, budget - 1);
        AppendNext(branchLosses, expected, j, loss);
        branchLosses := branchLosses + [loss];
      }
    }

    /** One recursive call, with the cost of the question added to its loss. */
    method AskBranch(facts: Facts, budget: nat, id: string, j: nat) returns (loss: Loss)
      requires Valid() && game.State(facts) && budget > 0 && game.Askable(facts, id)
      requires j < |game.registry[id].projections|
      modifies this
      ensures Valid()
      ensures loss == BranchLosses(game, rule, facts, budget, id)[j]
      ensures evaluatedStateCount - |memo| == old(evaluatedStateCount) - |old(memo)|
      ensures evaluatedStateCount >= old(evaluatedStateCount)
      ensures GrewUpTo(old(memo), memo, budget - 1)
      decreases budget, 0
    {
      var q := game.registry[id];
      var next := Answered(facts, q, q.projections[j]);
      BranchAt(game, rule, facts, budget, id, j, next);
      ghost var plan := Plan(game, rule, next, budget - 1);
      var child := Policy(next, budget - 1);
      assert child == plan;
      loss := child.worstLoss.WithQuestionCost(0, q.kindCost);
    }

    /** `self._memo[key] = outcome` for a state that is not in the table. */
    method Store(facts: Facts, budget: nat, outcome: Outcome)
      requires Valid() && game.State(facts) && (budget, digest(facts)) !in memo
      requires outcome == Plan(game, rule, facts, budget)
      modifies `memo
      ensures Valid()
      ensures memo == old(memo)[(budget, digest(facts)) := outcome]
      ensures |memo| == |old(memo)| + 1
    {
      forall b: nat, other: Facts | (b, digest(other)) in memo[(budget, digest(facts)) := outcome]
        ensures game.State(other)
                && memo[(budget, digest(facts)) := outcome][(b, digest(other))] == Plan(game, rule, other, b)
      {
        assert SameDigest(digest, other, facts) ==> other == facts;
      }
      memo := memo[(budget, digest(facts)) := outcome];
      assert memo.Keys == old(memo.Keys) + {(budget, digest(facts))};
    }
  }

  datatype Request = Request(facts: Facts, budget: nat)

  /** `mutation_checks` and `_policy_evidence`: any list of cases put to one shared oracle. */
  method AskShared(game: Game, rule: Rule, digest: Facts -> string, requests: seq<Request>)
    returns (outcomes: seq<Outcome>, evaluatedStates: nat, memoSize: nat)
    requires game.Valid() && Injective(digest)
    requires forall r | r in requests :: game.State(r.facts)
    ensures |outcomes| == |requests|
    ensures forall i | 0 <= i < |requests| ::
              outcomes[i] == Plan(game, rule, requests[i].facts, requests[i].budget)
    ensures evaluatedStates == memoSize
  {
    var oracle := new IndependentOracle(game, rule, digest);
    outcomes := [];
    for i := 0 to |requests|
      invariant oracle.Valid() && fresh(oracle)
      invariant oracle.game == game && oracle.rule == rule
      invariant |outcomes| == i
      invariant forall k | 0 <= k < i ::
                  outcomes[k] == Plan(game, rule, requests[k].facts, requests[k].budget)
      invariant oracle.evaluatedStateCount == |oracle.memo|
    {
      var outcome := oracle.Policy(requests[i].facts, requests[i].budget);
      outcomes := outcomes + [outcome];
    }
    evaluatedStates, memoSize := oracle.evaluatedStateCount, |oracle.memo|;
  }
}
