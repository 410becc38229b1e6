/** What stands before a commit, and what stands behind a review request. */
module WorkflowCommit {
  import opened Domain
  import Policy
  import opened TestOutcome
  import opened Workflow
  import opened Runner

  /** The graph offers one way into a commit. */
  lemma CommitNeighbours(setting: Setting, start: World, tr: Trace, i: nat)
    requires Run(setting, start, tr) && i < |tr| && tr[i].node == GitCommitNode
    ensures i >= 2 && tr[i - 1].node == SecurityPolicyNode && tr[i - 2].node == RunTestsNode
    ensures tr[i - 2].after.state.testRunOk && tr[i - 1].after.state.policyAction != Some(Policy.Block)
    ensures tr[i].before.diff == tr[i - 1].before.diff == tr[i - 2].after.diff
  {
    hide Update;
    assert i > 0;
    assert Follows(tr[i - 1], tr[i]);
    assert tr[i - 1].node == SecurityPolicyNode && i > 1;
    assert Follows(tr[i - 2], tr[i - 1]);
  }

  predicate TestsPassed(e: Event) {
    e.node == RunTestsNode && (e.result == NoTestProject || (e.result.Tested? && Ok(Parse(e.result.output))))
  }

  lemma TestFlagOfStep(setting: Setting, e: Event)
    requires Step(setting, e)
    ensures e.after.state.testRunOk ==> e.before.state.testRunOk || TestsPassed(e)
    ensures TestsPassed(e) && !e.result.Fails? ==> AfterTests(e.after.state) == SecurityPolicyNode
  {
    if e.node == RunTestsNode && e.result.Tested? { OkHasNoFailures(e.result.output); }
  }

  /** Until the first commit, a set test flag is fresh: the run is at the gate right behind it. */
  lemma {:induction false} FlagIsFreshBeforeFirstCommit(setting: Setting, start: World, tr: Trace, i: nat)
    requires Run(setting, start, tr) && Fresh(start) && i < |tr|
    requires forall j :: 0 <= j < i ==> tr[j].node != GitCommitNode
    ensures tr[i].before.state.testRunOk ==>
      || (i >= 1 && tr[i].node == SecurityPolicyNode && TestsPassed(tr[i - 1]) && !tr[i - 1].result.Fails?)
      || (i >= 2 && tr[i - 1].node == SecurityPolicyNode && TestsPassed(tr[i - 2]) && !tr[i - 2].result.Fails?
          && tr[i].node in {GitCommitNode, HaltNode})
  {
    if i > 0 {
      FlagIsFreshBeforeFirstCommit(setting, start, tr, i - 1);
      assert Follows(tr[i - 1], tr[i]);
      TestFlagOfStep(setting, tr[i - 1]);
    }
  }

  /** Fresh run, any failures: the first commit directly follows the gate, which directly follows a test
      run that returned ok. */
  lemma FirstCommitIsTested(setting: Setting, start: World, tr: Trace, i: nat)
    requires Run(setting, start, tr) && Fresh(start) && i < |tr| && tr[i].node == GitCommitNode
    requires forall j :: 0 <= j < i ==> tr[j].node != GitCommitNode
    ensures i >= 2 && tr[i - 1].node == SecurityPolicyNode && TestsPassed(tr[i - 2])
    ensures tr[i].before.diff == tr[i - 2].after.diff
  {
    CommitNeighbours(setting, start, tr, i);
    FlagIsFreshBeforeFirstCommit(setting, start, tr, i - 1);
    FlagIsFreshBeforeFirstCommit(setting, start, tr, i - 2);
    assert Follows(tr[i - 2], tr[i - 1]);
    TestFlagOfStep(setting, tr[i - 2]);
  }

  /** Any run, any start: a commit is tested exactly when the test run two nodes earlier did not fail to run. */
  lemma CommitTestedIff(setting: Setting, start: World, tr: Trace, i: nat)
    requires Run(setting, start, tr) && i < |tr| && tr[i].node == GitCommitNode
    ensures i >= 2 && tr[i - 1].node == SecurityPolicyNode && tr[i - 2].node == RunTestsNode
    ensures TestsPassed(tr[i - 2]) <==> !tr[i - 2].result.Fails?
  {
    hide AfterTests;
    CommitNeighbours(setting, start, tr, i);
    assert Step(setting, tr[i - 2]);
  }

  /** Asked this question, the engine does not block. */
  ghost predicate Approves(setting: Setting, question: Policy.Input, decision: Policy.Decision) {
    decision.action != Policy.Block && Policy.DecidesOn(setting.engine, question, decision)
  }

  /** The engine was shown the whole worktree, thresholds on, and did not block it. */
  ghost predicate ApprovedInFull(setting: Setting, gate: Event, d: Diff) {
    gate.result.Judged? && Whole(gate.seen, d) && Approves(setting, FullQuestion(setting, d), gate.result.decision)
  }

  /** A look whose commands exit cleanly in time shows everything exactly when all three outputs fit. */
  lemma WholeIff(seen: Sight, d: Diff)
    requires Sees(seen, d) && Clear(seen)
    ensures Whole(seen, d) <==> AllFit(d)
  {
    ShownWholeIff(d.text);
    ShownWholeIff(d.names);
    ShownWholeIff(d.counts);
  }

  lemma {:induction false} WorkspaceAfterImplementation(setting: Setting, start: World, tr: Trace, i: nat)
    requires Run(setting, start, tr) && FailureFree(tr) && i < |tr|
    ensures tr[i].node !in {PlanNode, RepositoryNode, RiskNode, ImplementationNode, HaltNode} ==> tr[i].before.workspace
  {
    if i > 0 {
      WorkspaceAfterImplementation(setting, start, tr, i - 1);
      assert Follows(tr[i - 1], tr[i]);
    }
  }

  /** Failure-free run: every commit records the diff that was tested, the engine did not block what the gate
      saw of it, and the gate saw all of it whenever its commands exited cleanly in time and the outputs fit. */
  lemma EveryCommitIsTestedAndJudged(setting: Setting, start: World, tr: Trace, i: nat)
    requires Run(setting, start, tr) && FailureFree(tr) && i < |tr| && tr[i].node == GitCommitNode
    ensures i >= 2 && tr[i - 1].node == SecurityPolicyNode && TestsPassed(tr[i - 2])
    ensures tr[i].before.diff == tr[i - 2].after.diff && Sees(tr[i - 1].seen, tr[i].before.diff)
    ensures tr[i - 1].result.Judged?
    ensures Approves(setting, ShownQuestion(setting, tr[i - 1].seen), tr[i - 1].result.decision)
    ensures Clear(tr[i - 1].seen) && AllFit(tr[i].before.diff) ==> ApprovedInFull(setting, tr[i - 1], tr[i].before.diff)
  {
    CommitNeighbours(setting, start, tr, i);
    WorkspaceAfterImplementation(setting, start, tr, i - 1);
    var gate, test := tr[i - 1], tr[i - 2];
    assert Step(setting, gate) && gate.result.Judged?;
    assert Follows(test, gate) && Follows(gate, tr[i]);
    assert Step(setting, test);
    TestFlagOfStep(setting, test);
    hide Policy.Decides, Fits;
    if Clear(gate.seen) { WholeIff(gate.seen, tr[i].before.diff); }
  }

  /** Any run, any start: what a completed commit records was judged in full and not blocked exactly when the gate
      directly before it did not itself fail and saw all of it - that is, when its commands exited cleanly in time,
      exactly when all three outputs fit. */
  lemma CommitJudgedIff(setting: Setting, start: World, tr: Trace, i: nat)
    requires Run(setting, start, tr) && i < |tr| && tr[i].node == GitCommitNode && tr[i].result.Committed?
    ensures i >= 1 && tr[i - 1].node == SecurityPolicyNode && tr[i].before.diff == tr[i - 1].before.diff
    ensures var gate, d := tr[i - 1], tr[i].before.diff;
      && (ApprovedInFull(setting, gate, d) <==> !gate.result.Fails? && Whole(gate.seen, d))
      && (Clear(gate.seen) ==> (ApprovedInFull(setting, gate, d) <==> !gate.result.Fails? && AllFit(d)))
  {
    CommitNeighbours(setting, start, tr, i);
    var gate, commit := tr[i - 1], tr[i];
    assert Step(setting, commit) && Step(setting, gate) && Follows(gate, commit);
    hide Policy.Decides, Fits;
    if Clear(gate.seen) { WholeIff(gate.seen, commit.before.diff); }
  }

  /** Shown all of it, the engine would have blocked what was committed exactly when some blocking rule fires on
      the whole diff - one that, unless the gate failed, fires on nothing the gate saw. */
  lemma HiddenBlockIff(setting: Setting, start: World, tr: Trace, i: nat, full: Policy.Decision)
    requires Run(setting, start, tr) && i < |tr| && tr[i].node == GitCommitNode && tr[i].result.Committed?
    requires Policy.DecidesOn(setting.engine, FullQuestion(setting, tr[i].before.diff), full)
    ensures full.action == Policy.Block <==>
      exists r :: r in setting.engine.rules && BlocksOn(setting, r, FullQuestion(setting, tr[i].before.diff))
    ensures i >= 1 && (!tr[i - 1].result.Fails? ==>
      forall r :: r in setting.engine.rules ==> !BlocksOn(setting, r, ShownQuestion(setting, tr[i - 1].seen)))
  {
    CommitNeighbours(setting, start, tr, i);
    var gate, commit := tr[i - 1], tr[i];
    assert Step(setting, commit) && Step(setting, gate) && Follows(gate, commit);
    BlockIff(setting, FullQuestion(setting, commit.before.diff), full);
    if !gate.result.Fails? { BlockIff(setting, ShownQuestion(setting, gate.seen), gate.result.decision); }
    hide Step, Run, Policy.Decides, BlocksOn;
  }

  predicate BlocksOn(setting: Setting, r: Policy.Rule, x: Policy.Input) {
    r.action == Policy.Block && Policy.Fires(setting.engine, r, x.files, x.added)
  }

  lemma BlockIff(setting: Setting, x: Policy.Input, d: Policy.Decision)
    requires Policy.DecidesOn(setting.engine, x, d)
    ensures d.action == Policy.Block <==> exists r :: r in setting.engine.rules && BlocksOn(setting, r, x)
  {
    Policy.ActionReaches(setting.engine, x.files, x.added, x.lines, x.scope, d, 2);
    hide Policy.Decides, Policy.Fires;
  }

  predicate MadeCommit(e: Event) {
    e.node == GitCommitNode && e.result.Committed? && e.result.sha != ""
  }

  lemma {:induction false} ShaComesFromCommit(setting: Setting, start: World, tr: Trace, i: nat)
    requires Run(setting, start, tr) && Fresh(start) && i < |tr| && tr[i].after.state.commitSha != ""
    ensures exists j :: 0 <= j <= i && MadeCommit(tr[j])
  {
    assert Step(setting, tr[i]);
    if !MadeCommit(tr[i]) {
      assert tr[i].before.state.commitSha == tr[i].after.state.commitSha;
      assert i > 0;
      assert Follows(tr[i - 1], tr[i]);
      ShaComesFromCommit(setting, start, tr, i - 1);
    }
  }

  lemma VerdictOfStep(setting: Setting, e: Event)
    requires Step(setting, e)
    ensures e.after.state.outcome == e.before.state.outcome
      || (Route(e.node, e.after.state).None? && !e.result.Fails?
          && (e.after.state.outcome == ReadyToReview ==> e.node == HumanReviewNode))
  {
  }

  lemma {:induction false} VerdictComesFromLastNode(setting: Setting, start: World, tr: Trace, i: nat)
    requires Run(setting, start, tr) && Fresh(start) && i < |tr|
    ensures tr[i].before.state.outcome == Undecided
    ensures tr[i].after.state.outcome == ReadyToReview ==> tr[i].node == HumanReviewNode && !tr[i].result.Fails?
  {
    hide Step;
    VerdictOfStep(setting, tr[i]);
    if i > 0 {
      VerdictComesFromLastNode(setting, start, tr, i - 1);
      assert Follows(tr[i - 1], tr[i]);
      VerdictOfStep(setting, tr[i - 1]);
    }
  }

  ghost predicate EndsReady(tr: Trace) {
    tr != [] && tr[|tr| - 1].after.state.outcome == ReadyToReview
  }

  /** Any fresh run that asks for a review had a commit that produced a sha. */
  lemma ReadyImpliesCommit(setting: Setting, start: World, tr: Trace)
    requires Run(setting, start, tr) && Fresh(start) && EndsReady(tr)
    ensures exists j :: 0 <= j < |tr| && MadeCommit(tr[j])
  {
    var n := |tr| - 1;
    ReviewPath(setting, start, tr);
    assert Follows(tr[n - 3], tr[n - 2]);
    ShaComesFromCommit(setting, start, tr, n - 3);
  }

  /** The last four nodes of a run that asks for a review. */
  lemma ReviewPath(setting: Setting, start: World, tr: Trace)
    requires Run(setting, start, tr) && Fresh(start) && EndsReady(tr)
    ensures var n := |tr| - 1;
      && n >= 3 && tr[n].node == HumanReviewNode && tr[n - 1].node == CreatePrNode
      && tr[n - 2].node == CiValidationNode && tr[n - 3].node == GitCommitNode
  {
    hide Step;
    var n := |tr| - 1;
    VerdictComesFromLastNode(setting, start, tr, n);
    assert n > 0 && Follows(tr[n - 1], tr[n]);
    assert n > 1 && Follows(tr[n - 2], tr[n - 1]);
    assert n > 2 && Follows(tr[n - 3], tr[n - 2]);
  }

  /** Failure-free, it also opened its pull request once, asked once, and CI last said PASSED or SKIPPED. */
  lemma ReadyRunIsClean(setting: Setting, start: World, tr: Trace)
    requires Run(setting, start, tr) && Fresh(start) && EndsReady(tr) && FailureFree(tr)
    ensures forall i :: 0 <= i < |tr| ==> (tr[i].node == HumanReviewNode <==> i == |tr| - 1)
    ensures forall i :: 0 <= i < |tr| ==> (tr[i].node == CreatePrNode <==> i == |tr| - 2)
    ensures tr[|tr| - 3].node == CiValidationNode
    ensures tr[|tr| - 3].result.CiRan? && tr[|tr| - 3].result.status in {Passed, Skipped}
  {
    ReviewPath(setting, start, tr);
    var n := |tr| - 1;
    assert Step(setting, tr[n - 2]) && Follows(tr[n - 2], tr[n - 1]);
    assert tr[n - 2].result.CiRan? && tr[n - 2].result.status in {Passed, Skipped};
    hide Step, AfterTests, AfterRisk;
    forall i | 0 <= i < n ensures tr[i].node != HumanReviewNode && (tr[i].node == CreatePrNode ==> i == n - 1) {
      assert Follows(tr[i], tr[i + 1]);
      if i + 1 < n { assert Follows(tr[i + 1], tr[i + 2]); }
    }
  }
}
