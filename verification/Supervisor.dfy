/** The workflow as it is driven: node functions, the supervisor around them, and one session of the graph. */
module Supervisor {
  import opened Domain
  import Policy
  import opened TestOutcome
  import opened Workflow
  import opened WorkflowBudget
  import opened Runner

  type CiOutcome = c: CiStatus | c != NotRun witness Passed

  /** What the models, git, the test runner and CI would answer to one node. */
  datatype Answer = Answer(
    raises: Option<bool>,          // an exception, and whether it is a boundary violation
    created: bool,                 // the worktree was created before that exception
    candidates: seq<string>,       // files the risk agent looks at
    output: Option<Output>,        // none: there is no test project
    sha: Option<string>,           // none: the commit is refused
    ci: CiOutcome, requiresHuman: bool,
    diff: Diff,                    // the worktree afterwards
    cut: Interruptions)            // how a look at it ends

  /** Which of the git commands do not exit cleanly in time: when marking new files fails, what git prints without
      them; for each of the others, what it has printed by then. */
  datatype Interruptions = Interruptions(unstaged: Option<Diff>,
                                         text: Option<string>, names: Option<string>, counts: Option<string>)

  /** `collect_diff` */
  function Look(d: Diff, cut: Interruptions): (seen: Sight)
    ensures Sees(seen, d)
  {
    var shown := if cut.unstaged.Some? then cut.unstaged.value else d;
    Sight(cut.unstaged.None?, CaptureOf(shown.text, cut.text), CaptureOf(shown.names, cut.names),
          CaptureOf(shown.counts, cut.counts))
  }

  /** Everything that a look can show does occur: with new files marked, any legal sight; without, any three short
      outputs whatsoever. */
  lemma AnySightOccurs(d: Diff, seen: Sight) returns (cut: Interruptions)
    requires Sees(seen, d)
    requires seen.staged
      || (|seen.text.text| <= 200_000 && |seen.names.text| <= 200_000 && |seen.counts.text| <= 200_000)
    ensures Look(d, cut) == seen
  {
    var unstaged := if seen.staged then None
                    else Some(Diff(seen.text.text, seen.names.text, seen.counts.text));
    cut := Interruptions(unstaged, CutOf(seen.text), CutOf(seen.names), CutOf(seen.counts));
  }

  function CutOf(c: Capture): Option<string> {
    if c.finished then None else Some(c.text)
  }

  function CommitAnswer(s: AgentState, a: Answer): Result {
    if s.modifiedFiles == [] then NothingToCommit else if a.sha.None? then CommitRefused else Committed(a.sha.value)
  }

  /** The result of a node is the environment's answer: an exception exactly when one is raised or the worktree is
      missing, and otherwise what the models, git, the tests or CI said. */
  ghost predicate Obeys(node: Node, before: World, a: Answer, result: Result, after: World) {
    var missing := !before.workspace &&
      (node == RunTestsNode || node == GitCommitNode || node == CiValidationNode || node == CreatePrNode);
    && (after.diff == before.diff || after.diff == a.diff)
    && (missing ==> result == Fails(true))
    && (!missing && a.raises.Some? ==> result == Fails(a.raises.value))
    && (!missing && a.raises.None? ==>
          && !result.Fails?
          && (node == RiskNode ==> result.Assessed? && result.candidates == a.candidates)
          && (node == RunTestsNode ==> result == if a.output.None? then NoTestProject else Tested(a.output.value))
          && (node == GitCommitNode ==> result == CommitAnswer(before.state, a))
          && (node == CiValidationNode ==> result == CiRan(a.ci))
          && (node == CiDebuggingNode ==> result == Diagnosed(a.requiresHuman)))
  }

  method Raise(setting: Setting, node: Node, before: World, boundary: bool, a: Answer)
      returns (result: Result, after: World)
    requires NeedsWorkspace(node) && !before.workspace ==> boundary
    ensures Step(setting, Event(node, result, before, after, Look(after.diff, a.cut))) && result == Fails(boundary)
    ensures after.diff == before.diff || after.diff == a.diff
  {
    result := Fails(boundary);
    after := World(AfterFailure(before.state, boundary),
                   if TouchesWorktree(node) then a.diff else before.diff,
                   before.workspace || (node == ImplementationNode && a.created));
  }

  /** `risk_assessment` and `security_policy` ask the engine; thresholds and diff only count in the second. */
  method Gate(setting: Setting, node: Node, before: World, a: Answer) returns (result: Result, after: World)
    requires node == RiskNode || node == SecurityPolicyNode
    ensures after.diff == before.diff && (node == RiskNode ==> result.Assessed? && result.candidates == a.candidates)
    ensures Step(setting, Event(node, result, before, after, Look(after.diff, a.cut))) && !result.Fails?
  {
    var s := before.state;
    if node == RiskNode {
      var d := Policy.Evaluate(setting.engine, a.candidates, "", None, false);
      return Assessed(a.candidates, d), before.(state := s.(policyAction := Some(d.action)));
    }
    var question := Policy.Input(s.modifiedFiles, "", Some(0), true);
    if before.workspace {
      var seen := Look(before.diff, a.cut);
      question := ShownQuestion(setting, seen);
      s := s.(modifiedFiles := setting.files(seen.names.text));
    }
    var d := Policy.Evaluate(setting.engine, question.files, question.added, question.lines, question.scope);
    result := Judged(d);
    after := before.(state := s.(policyAction := Some(d.action)));
  }

  method RunTests(setting: Setting, before: World, a: Answer) returns (result: Result, after: World)
    requires before.workspace
    ensures Step(setting, Event(RunTestsNode, result, before, after, Look(after.diff, a.cut))) && !result.Fails?
    ensures result == if a.output.None? then NoTestProject else Tested(a.output.value)
    ensures after.diff == before.diff || after.diff == a.diff
  {
    if a.output.None? {
      return NoTestProject, before.(state := before.state.(testsPassed := 0, testsFailed := 0, testRunOk := true));
    }
    var r := ParseDotnetOutput(a.output.value);
    var history := before.state.history + [SignaturesFor(setting.hash, r.failures)];
    result := Tested(a.output.value);
    after := before.(diff := a.diff, state := before.state.(
      testsPassed := r.passed, testsFailed := r.failed, testRunOk := Ok(r), history := history,
      modifiedFiles := setting.files(Look(a.diff, a.cut).names.text)));
  }

  /** The body of a node, for every answer. */
  method Work(setting: Setting, node: Node, before: World, a: Answer) returns (result: Result, after: World)
    ensures Step(setting, Event(node, result, before, after, Look(after.diff, a.cut)))
    ensures Obeys(node, before, a, result, after)
  {
    hide Policy.Decides;
    if NeedsWorkspace(node) && !before.workspace {
      result, after := Raise(setting, node, before, true, a);
      return;
    }
    if a.raises.Some? {
      result, after := Raise(setting, node, before, a.raises.value, a);
      return;
    }
    if node == RiskNode || node == SecurityPolicyNode {
      result, after := Gate(setting, node, before, a);
      return;
    }
    if node == RunTestsNode {
      result, after := RunTests(setting, before, a);
      return;
    }
    result, after := Act(setting, node, before, a);
  }

  /** The other nodes, when nothing raises. */
  method Act(setting: Setting, node: Node, before: World, a: Answer) returns (result: Result, after: World)
    requires node != RiskNode && node != SecurityPolicyNode && node != RunTestsNode && a.raises.None?
    requires NeedsWorkspace(node) ==> before.workspace
    ensures Step(setting, Event(node, result, before, after, Look(after.diff, a.cut)))
    ensures Obeys(node, before, a, result, after)
  {
    var s, seen := before.state, Look(a.diff, a.cut);
    result, after := Returns, before;
    match node
    case ImplementationNode =>
      after := World(s.(modifiedFiles := setting.files(seen.names.text)), a.diff, true);
    case TestGenerationNode =>
      after := World(Refreshed(setting, s, before, seen), a.diff, before.workspace);
    case DebuggingNode =>
      s := s.(iteration := s.iteration + 1);
      after := World(Refreshed(setting, s, before, seen), a.diff, before.workspace);
    case GitCommitNode =>
      if s.modifiedFiles == [] {
        result, after := NothingToCommit, before.(state := s.(policyAction := Some(Policy.Block)));
      } else if a.sha.None? {
        result, after := CommitRefused, before.(diff := a.diff);
      } else {
        result, after := Committed(a.sha.value), before.(diff := a.diff, state := s.(commitSha := a.sha.value));
      }
    case CiValidationNode =>
      result, after := CiRan(a.ci), before.(state := s.(ciStatus := a.ci));
    case CiDebuggingNode =>
      result := Diagnosed(a.requiresHuman);
      s := s.(ciIteration := s.ciIteration + 1, ciRequiresHuman := a.requiresHuman);
      after := World(Refreshed(setting, s, before, seen), a.diff, before.workspace);
    case HumanReviewNode =>
      after := before.(state := s.(outcome := ReadyToReview));
    case HaltNode =>
      after := before.(state := s.(outcome := EscalatedToHuman));
    case _ =>
  }

  /** The run so far ends in this world, and this node is next. */
  ghost predicate Reached(setting: Setting, start: World, tr: Trace, world: World, next: Option<Node>) {
    && Run(setting, start, tr)
    && if tr == [] then next == Some(PlanNode) && world == start
       else world == tr[|tr| - 1].after && next == Route(tr[|tr| - 1].node, world.state)
  }

  lemma OneMore(setting: Setting, start: World, tr: Trace, e: Event)
    requires Step(setting, e) && Reached(setting, start, tr, e.before, Some(e.node))
    ensures Reached(setting, start, tr + [e], e.after, Route(e.node, e.after.state))
    ensures Checkpoints(tr + [e]) == Checkpoints(tr) + [e.before.state, e.after.state]
  {
    hide Step;
    var tr' := tr + [e];
    assert tr'[..|tr|] == tr;
    forall i | 0 < i < |tr'| ensures Follows(tr'[i - 1], tr'[i]) {
      if i < |tr| { assert Follows(tr[i - 1], tr[i]); }
    }
  }

  /** Node k got answer k. */
  ghost predicate Answered(answers: nat -> Answer, tr: Trace) {
    forall k :: 0 <= k < |tr| ==>
      && Obeys(tr[k].node, tr[k].before, answers(k), tr[k].result, tr[k].after)
      && tr[k].seen == Look(tr[k].after.diff, answers(k).cut)
  }

  lemma AnsweredMore(answers: nat -> Answer, tr: Trace, e: Event)
    requires Answered(answers, tr) && Obeys(e.node, e.before, answers(|tr|), e.result, e.after)
    requires e.seen == Look(e.after.diff, answers(|tr|).cut)
    ensures Answered(answers, tr + [e])
  {
    hide Obeys;
  }

  class WorkflowRun {
    const setting: Setting
    var world: World
    /** Every state written to the task row, in order. */
    var saved: seq<AgentState>

    constructor (setting: Setting, start: World)
      ensures this.setting == setting && world == start && saved == []
    {
      this.setting, this.world, this.saved := setting, start, [];
    }

    /** The supervisor's wrapper: a checkpoint on either side of the node, whatever it does. */
    method Instrument(node: Node, a: Answer) returns (ghost e: Event)
      modifies this
      ensures Step(setting, e) && e.node == node && e.before == old(world) && e.after == world
      ensures Obeys(node, old(world), a, e.result, world) && e.seen == Look(world.diff, a.cut)
      ensures saved == old(saved) + [old(world).state, world.state]
    {
      hide Step, Obeys;
      saved := saved + [world.state];
      var result, after := Work(setting, node, world, a);
      e := Event(node, result, world, after, Look(after.diff, a.cut));
      world := after;
      saved := saved + [world.state];
    }

    /** The run so far, its two saves per node, and the node that is next. */
    ghost predicate Driven(start: World, first: seq<AgentState>, answers: nat -> Answer, tr: Trace, next: Option<Node>)
      reads this
    {
      Reached(setting, start, tr, world, next) && saved == first + Checkpoints(tr) && Answered(answers, tr)
    }

    method Advance(node: Node, a: Answer, ghost start: World, ghost first: seq<AgentState>,
                   ghost answers: nat -> Answer, ghost tr: Trace)
        returns (next: Option<Node>, ghost tr': Trace)
      requires Driven(start, first, answers, tr, Some(node)) && a == answers(|tr|)
      modifies this
      ensures Driven(start, first, answers, tr', next) && |tr'| == |tr| + 1
    {
      hide Step, Reached, Route, Checkpoints, Answered, Obeys;
      ghost var e := Instrument(node, a);
      AnsweredMore(answers, tr, e);
      OneMore(setting, start, tr, e);
      tr' := tr + [e];
      next := Route(node, world.state);
    }

    /** From `plan` along the edges, until END or the recursion limit. */
    method RunGraph(answers: nat -> Answer) returns (ended: bool, ghost tr: Trace)
      modifies this
      ensures exists next :: Reached(setting, old(world), tr, world, next) && ended == next.None?
      ensures tr != [] && |tr| <= RECURSION_LIMIT && (!ended ==> |tr| == RECURSION_LIMIT)
      ensures saved == old(saved) + Checkpoints(tr) && Answered(answers, tr)
    {
      var next, steps := Some(PlanNode), 0;
      tr := [];
      assert Driven(world, saved, answers, tr, next);
      hide Reached, Route, Checkpoints, Answered;
      while next.Some? && steps < RECURSION_LIMIT
        invariant steps == |tr| <= RECURSION_LIMIT && (tr == [] ==> next.Some?)
        invariant Driven(old(world), old(saved), answers, tr, next)
        decreases RECURSION_LIMIT - steps
      {
        next, tr := Advance(next.value, answers(steps), old(world), old(saved), answers, tr);
        steps := steps + 1;
      }
      ended := next.None?;
    }

    /** One session of the graph, for every environment: it is a run, it stops at END or at the recursion
        limit, and it leaves exactly the saves of that session behind. */
    method Invoke(answers: nat -> Answer) returns (status: TaskStatus, ghost session: Session)
      modifies this
      ensures session.start == old(world) && !session.ending.Crashed? && session.trace != []
      ensures Run(setting, session.start, session.trace) && EndsAs(session.trace, session.ending)
      ensures saved == old(saved) + Saves(session) && Answered(answers, session.trace)
      ensures status == FinalStatus(saved[|saved| - 1].outcome)
    {
      hide Run, Checkpoints, Answered;
      ghost var start := world;
      var initial := world.state;
      var ended;
      ghost var tr;
      ended, tr := RunGraph(answers);
      LastCheckpoint(tr);
      if ended {
        saved := saved + [world.state];
        session := Session(start, tr, Finalized);
      } else {
        saved := saved + [initial.(outcome := EscalatedToHuman)];
        session := Session(start, tr, Backstop);
      }
      status := FinalStatus(saved[|saved| - 1].outcome);
    }
  }

  lemma LastCheckpoint(tr: Trace)
    requires tr != []
    ensures var c := Checkpoints(tr); c != [] && c[|c| - 1] == tr[|tr| - 1].after.state
  {
  }
}
