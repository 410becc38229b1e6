/** Both loops are bounded by the state, whatever fails elsewhere. */
module WorkflowBound {
  import opened Domain
  import Policy
  import opened TestOutcome
  import opened Workflow

  function Left(spent: int, budget: int): nat {
    if spent < budget then budget - spent else 0
  }

  /** Nodes on the straight way to END, counting this one; the loop nodes are charged to their budgets. */
  function Distance(node: Node): int {
    match node
    case PlanNode => 11
    case RepositoryNode => 10
    case RiskNode => 9
    case ImplementationNode => 8
    case TestGenerationNode => 7
    case RunTestsNode => 6
    case DebuggingNode => 5
    case SecurityPolicyNode => 5
    case GitCommitNode => 4
    case CiValidationNode => 3
    case CiDebuggingNode => 2
    case CreatePrNode => 2
    case HumanReviewNode => 1
    case HaltNode => 1
  }

  /** Node executions left: each debugging round costs two, each CI round five. */
  function Remaining(node: Node, s: AgentState): int {
    Distance(node) + 2 * Left(s.iteration, s.maxIterations) + 5 * Left(s.ciIteration, s.maxCiIterations)
  }

  predicate LoopNode(node: Node) {
    node == DebuggingNode || node == CiDebuggingNode
  }

  ghost predicate LoopNodesReturn(tr: Trace) {
    forall i :: 0 <= i < |tr| && LoopNode(tr[i].node) ==> !tr[i].result.Fails?
  }

  /** The routing functions enter a loop node only while its budget lasts. */
  predicate BudgetLeft(node: Node, s: AgentState) {
    && (node == DebuggingNode ==> s.iteration < s.maxIterations)
    && (node == CiDebuggingNode ==> s.ciIteration < s.maxCiIterations)
  }

  lemma CountersOfStep(setting: Setting, e: Event)
    requires Step(setting, e)
    ensures var s, s' := e.before.state, e.after.state;
      && s'.maxIterations == s.maxIterations && s'.maxCiIterations == s.maxCiIterations
      && s'.iteration == s.iteration + (if e.node == DebuggingNode && !e.result.Fails? then 1 else 0)
      && s'.ciIteration == s.ciIteration + (if e.node == CiDebuggingNode && !e.result.Fails? then 1 else 0)
  {
  }

  /** What a failing loop node costs: its way back to `run_tests`, for which it has spent no budget. */
  function Charge(e: Event): nat {
    if !e.result.Fails? then 0
    else if e.node == DebuggingNode then 2
    else if e.node == CiDebuggingNode then 5
    else 0
  }

  function Charges(tr: Trace): nat {
    if tr == [] then 0 else Charges(tr[..|tr| - 1]) + Charge(tr[|tr| - 1])
  }

  lemma RemainingDecreases(setting: Setting, e: Event, f: Event)
    requires Step(setting, e) && Follows(e, f) && BudgetLeft(e.node, e.before.state)
    ensures Remaining(f.node, f.before.state) < Remaining(e.node, e.before.state) + Charge(e)
    ensures BudgetLeft(f.node, f.before.state)
  {
    CountersOfStep(setting, e);
  }

  lemma {:induction false} RemainingBounds(setting: Setting, start: World, tr: Trace, i: nat)
    requires Run(setting, start, tr) && i < |tr|
    ensures i + Remaining(tr[i].node, tr[i].before.state) <= Remaining(PlanNode, start.state) + Charges(tr[..i])
    ensures BudgetLeft(tr[i].node, tr[i].before.state)
  {
    if i > 0 {
      RemainingBounds(setting, start, tr, i - 1);
      assert Follows(tr[i - 1], tr[i]);
      RemainingDecreases(setting, tr[i - 1], tr[i]);
      assert tr[..i][..i - 1] == tr[..i - 1];
    }
  }

  /** Any run, whatever fails: at most 11 + 2 * debugging budget + 5 * CI budget nodes, plus two for each failure
      of `debugging` and five for each failure of `ci_debugging`. */
  lemma ChargedBound(setting: Setting, start: World, tr: Trace)
    requires Run(setting, start, tr)
    ensures |tr| <= 11 + 2 * Left(start.state.iteration, start.state.maxIterations)
                       + 5 * Left(start.state.ciIteration, start.state.maxCiIterations) + Charges(tr)
  {
    hide Run, BudgetLeft, Left, Charge, Remaining;
    RemainingAtPlan(start.state);
    if tr != [] {
      var last := tr[|tr| - 1];
      RemainingBounds(setting, start, tr, |tr| - 1);
      RemainingPositive(last.node, last.before.state);
    }
  }

  lemma RemainingAtPlan(s: AgentState)
    ensures Remaining(PlanNode, s) ==
      11 + 2 * Left(s.iteration, s.maxIterations) + 5 * Left(s.ciIteration, s.maxCiIterations)
  {
  }

  lemma RemainingPositive(node: Node, s: AgentState)
    ensures Remaining(node, s) >= 1
  {
  }

  lemma {:induction false} NothingCharged(tr: Trace)
    requires LoopNodesReturn(tr)
    ensures Charges(tr) == 0
  {
    if tr != [] { NothingCharged(tr[..|tr| - 1]); }
  }

  /** If the loop nodes return, a run is over within 11 + 2 * debugging budget + 5 * CI budget nodes, and
      the only way to be over is `human_review` or `halt`. */
  lemma BoundedRun(setting: Setting, start: World, tr: Trace)
    requires Run(setting, start, tr) && LoopNodesReturn(tr)
    ensures |tr| <= 11 + 2 * Left(start.state.iteration, start.state.maxIterations)
                       + 5 * Left(start.state.ciIteration, start.state.maxCiIterations)
    ensures tr != [] && (forall e :: !Run(setting, start, tr + [e])) ==>
      tr[|tr| - 1].node == HumanReviewNode || tr[|tr| - 1].node == HaltNode
  {
    if tr != [] {
      ChargedBound(setting, start, tr);
      NothingCharged(tr);
      if tr[|tr| - 1].node != HumanReviewNode && tr[|tr| - 1].node != HaltNode {
        var e := Continues(setting, start, tr);
      }
    }
  }

  /** At the default budgets the recursion backstop never fires. */
  lemma BackstopUnreached(setting: Setting, start: World, tr: Trace)
    requires Run(setting, start, tr) && LoopNodesReturn(tr)
    requires start.state == InitialState(3, 2, start.state.maxFiles)
    ensures |tr| <= 27 < RECURSION_LIMIT
  {
    BoundedRun(setting, start, tr);
  }

  function Failure(node: Node, w: World): Event {
    Event(node, Fails(NeedsWorkspace(node)), w, w, NO_SIGHT)
  }

  /** `debugging` and `run_tests` failing in turn, n times over. */
  function FailingLoop(base: Trace, w: World, n: nat): Trace {
    if n == 0 then base
    else FailingLoop(base, w, n - 1) + [Failure(DebuggingNode, w), Failure(RunTestsNode, w)]
  }

  /** The hypothesis is needed: such a loop spends no budget and goes on for as long as one likes. */
  lemma {:induction false} FailingLoopUnbounded(setting: Setting, start: World, base: Trace, w: World, n: nat)
    requires Run(setting, start, base) && base != [] && base[|base| - 1] == Failure(RunTestsNode, w)
    requires AfterTests(w.state) == DebuggingNode && w.state.policyAction == Some(Policy.Block)
    ensures var tr := FailingLoop(base, w, n);
      && Run(setting, start, tr) && |tr| == |base| + 2 * n && tr[|tr| - 1] == Failure(RunTestsNode, w)
  {
    if n > 0 {
      FailingLoopUnbounded(setting, start, base, w, n - 1);
      var old', tr := FailingLoop(base, w, n - 1), FailingLoop(base, w, n);
      forall i | 0 < i < |tr| ensures Follows(tr[i - 1], tr[i]) {
        if i < |old'| { assert Follows(old'[i - 1], old'[i]); }
      }
    }
  }

  function Blocked(w: World): World {
    w.(state := AfterFailure(w.state, true))
  }

  /** Everything fails, and the first test run finds no worktree. */
  function FailingStart(w: World): Trace {
    [Failure(PlanNode, w), Failure(RepositoryNode, w), Failure(RiskNode, w),
     Failure(ImplementationNode, w), Failure(TestGenerationNode, w),
     Event(RunTestsNode, Fails(true), w, Blocked(w), NO_SIGHT),
     Failure(DebuggingNode, Blocked(w)), Failure(RunTestsNode, Blocked(w))]
  }

  lemma FailingStartIsRun(setting: Setting, w: World)
    requires Fresh(w) && w.state.maxIterations > 0 && w.state.maxFiles >= 0
    ensures Run(setting, w, FailingStart(w)) && AfterTests(Blocked(w).state) == DebuggingNode
  {
    FailingStepsAreLegal(setting, w);
    hide Step;
  }

  lemma FailingStepsAreLegal(setting: Setting, w: World)
    requires Fresh(w)
    ensures forall i :: 0 <= i < |FailingStart(w)| ==> Step(setting, FailingStart(w)[i])
  {
    hide AfterTests, Route;
  }
}
