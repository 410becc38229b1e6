/** Which node comes next, over every run: in terms of rules, results and counts. */
module WorkflowRouting {
  import opened Domain
  import Policy
  import opened TestOutcome
  import opened Runner
  import opened Workflow
  import opened Sorting

  /** A blocking rule matches one of the files. */
  ghost predicate BlockedPath(setting: Setting, files: seq<string>) {
    exists r, i :: r in setting.engine.rules && r.action == Policy.Block && 0 <= i < |files| &&
      setting.engine.hits(r, files[i])
  }

  /** A blocking rule with content patterns matches what a diff adds. */
  ghost predicate BlockedText(setting: Setting, text: string) {
    exists r :: r in setting.engine.rules && r.action == Policy.Block && r.content != [] && text != "" &&
      setting.added(text) != "" && setting.engine.greps(r, setting.added(text))
  }

  lemma BlockMeansRule(setting: Setting, x: Policy.Input, d: Policy.Decision)
    requires Policy.DecidesOn(setting.engine, x, d)
    ensures d.action == Policy.Block <==>
      || BlockedPath(setting, x.files)
      || exists r :: r in setting.engine.rules && r.action == Policy.Block && r.content != [] && x.added != "" &&
           setting.engine.greps(r, x.added)
  {
    Policy.ActionReaches(setting.engine, x.files, x.added, x.lines, x.scope, d, 2);
    if BlockedPath(setting, x.files) {
      var r, i :| r in setting.engine.rules && r.action == Policy.Block && 0 <= i < |x.files| &&
        setting.engine.hits(r, x.files[i]);
      assert Policy.HitsAny(setting.engine, r, x.files) && Policy.Fires(setting.engine, r, x.files, x.added);
    }
    if r :| r in setting.engine.rules && Policy.Fires(setting.engine, r, x.files, x.added)
            && Policy.Strength(r.action) >= 2 {
      assert r.action == Policy.Block;
      if i :| 0 <= i < |x.files| && setting.engine.hits(r, x.files[i]) {
        assert BlockedPath(setting, x.files);
      }
    }
  }

  // After the risk assessment

  /** It hit a boundary, a blocking rule matches a candidate, or it failed under an older BLOCK. */
  ghost predicate RiskStops(setting: Setting, e: Event) {
    || e.result == Fails(true)
    || (e.result.Assessed? && BlockedPath(setting, e.result.candidates))
    || (e.result == Fails(false) && e.before.state.policyAction == Some(Policy.Block))
  }

  /** The node after `risk_assessment` is `halt` exactly then, and `implementation` otherwise. */
  lemma AfterRiskAssessment(setting: Setting, start: World, tr: Trace, i: nat)
    requires Run(setting, start, tr) && i + 1 < |tr| && tr[i].node == RiskNode
    ensures tr[i + 1].node == if RiskStops(setting, tr[i]) then HaltNode else ImplementationNode
  {
    assert Step(setting, tr[i]) && Follows(tr[i], tr[i + 1]);
    var e := tr[i];
    if e.result.Assessed? {
      BlockMeansRule(setting, Policy.Input(e.result.candidates, "", None, false), e.result.decision);
    }
    hide Policy.Decides, BlockedPath, AfterTests, AfterCi;
  }

  /** Nothing is implemented but directly after an assessment that hit no boundary and cleared every candidate. */
  lemma ImplementationIsCleared(setting: Setting, start: World, tr: Trace, i: nat)
    requires Run(setting, start, tr) && i < |tr| && tr[i].node == ImplementationNode
    ensures i > 0 && tr[i - 1].node == RiskNode && tr[i - 1].result != Fails(true)
    ensures tr[i - 1].result.Assessed? ==> !BlockedPath(setting, tr[i - 1].result.candidates)
    ensures tr[i - 1].result.Assessed? || tr[i - 1].before.state.policyAction != Some(Policy.Block)
  {
    hide Step, AfterRisk, AfterTests, AfterCi;
    assert i > 0 && Follows(tr[i - 1], tr[i]);
    CameFromRisk(tr[i - 1], tr[i]);
    AfterRiskAssessment(setting, start, tr, i - 1);
    ReturnedOrFailed(setting, tr[i - 1]);
  }

  lemma CameFromRisk(e: Event, f: Event)
    requires Follows(e, f) && f.node == ImplementationNode
    ensures e.node == RiskNode
  {
  }

  lemma ReturnedOrFailed(setting: Setting, e: Event)
    requires Step(setting, e) && (e.node == RiskNode || e.node == SecurityPolicyNode)
    ensures e.result.Fails? || (if e.node == RiskNode then e.result.Assessed? else e.result.Judged?)
  {
  }

  // After the policy gate

  /** A blocking rule matches what the gate sees: the worktree, or without one the files on record. */
  ghost predicate SeesBlocked(setting: Setting, e: Event) {
    if e.before.workspace
    then BlockedPath(setting, setting.files(e.seen.names.text)) || BlockedText(setting, e.seen.text.text)
    else BlockedPath(setting, e.before.state.modifiedFiles)
  }

  ghost predicate GateStops(setting: Setting, e: Event) {
    || e.result == Fails(true)
    || (e.result.Judged? && SeesBlocked(setting, e))
    || (e.result == Fails(false) && e.before.state.policyAction == Some(Policy.Block))
  }

  lemma JudgedBlockIff(setting: Setting, e: Event)
    requires Step(setting, e) && e.node == SecurityPolicyNode && e.result.Judged?
    ensures e.result.decision.action == Policy.Block <==> SeesBlocked(setting, e)
  {
    var question := if e.before.workspace then ShownQuestion(setting, e.seen)
                    else Policy.Input(e.before.state.modifiedFiles, "", Some(0), true);
    assert Policy.DecidesOn(setting.engine, question, e.result.decision);
    BlockMeansRule(setting, question, e.result.decision);
    hide BlockedPath, Policy.Decides;
  }

  /** The node after `security_policy` is `halt` exactly when it stops the change, and `git_commit` otherwise. */
  lemma AfterGate(setting: Setting, start: World, tr: Trace, i: nat)
    requires Run(setting, start, tr) && i + 1 < |tr| && tr[i].node == SecurityPolicyNode
    ensures tr[i + 1].node == if GateStops(setting, tr[i]) then HaltNode else GitCommitNode
  {
    assert Step(setting, tr[i]) && Follows(tr[i], tr[i + 1]);
    if tr[i].result.Judged? { JudgedBlockIff(setting, tr[i]); }
    hide Policy.Decides, SeesBlocked, AfterTests, AfterCi;
  }

  ghost predicate NoRuleFires(setting: Setting, files: seq<string>, added: string) {
    forall r :: r in setting.engine.rules ==> !Policy.Fires(setting.engine, r, files, added)
  }

  /** When no rule fires, the gate asks for a person exactly because of too many files or lines. */
  lemma GateAsksForPerson(setting: Setting, e: Event)
    requires Step(setting, e) && e.node == SecurityPolicyNode && e.result.Judged? && e.before.workspace
    requires NoRuleFires(setting, setting.files(e.seen.names.text), setting.added(e.seen.text.text))
    ensures var n, m := |setting.files(e.seen.names.text)|, setting.lines(e.seen.counts.text);
      e.result.decision.action ==
        if n > setting.engine.maxFiles || m > setting.engine.maxLines then Policy.HumanApproval else Policy.Allow
  {
    var x := ShownQuestion(setting, e.seen);
    assert Policy.DecidesOn(setting.engine, x, e.result.decision);
    forall r | r in setting.engine.rules ensures !Policy.Fires(setting.engine, r, x.files, x.added) {
      assert !Policy.Fires(setting.engine, r, x.files, setting.added(e.seen.text.text));
    }
    Policy.ScopeDecision(setting.engine, x, e.result.decision);
  }

  // After the tests

  /** The last two rounds list the same signatures, and some. */
  ghost predicate LastTwoEqual(history: seq<seq<Signature>>) {
    var n := |history|;
    n >= 2 && history[n - 1] == history[n - 2] && |history[n - 1]| > 0
  }

  /** The node after `run_tests`: the gate when nothing failed and the run was ok; else `halt` when the budget is
      spent, the last two rounds failed alike or the change touches too many files; else `debugging`. */
  lemma AfterTestNode(setting: Setting, start: World, tr: Trace, i: nat)
    requires Run(setting, start, tr) && i + 1 < |tr| && tr[i].node == RunTestsNode
    ensures var s, next := tr[i].after.state, tr[i + 1].node;
      var passed := s.testsFailed == 0 && s.testsPassed >= 0 && s.testRunOk;
      var hopeless := s.iteration >= s.maxIterations || LastTwoEqual(s.history) || |s.modifiedFiles| > s.maxFiles;
      && (next == SecurityPolicyNode <==> passed)
      && (next == HaltNode <==> !passed && hopeless)
      && (next == DebuggingNode <==> !passed && !hopeless)
  {
    assert Follows(tr[i], tr[i + 1]);
  }

  // After the commit and after CI

  /** The node after `git_commit` is CI exactly when there is a sha: its own, or one from before. */
  lemma AfterCommitNode(setting: Setting, start: World, tr: Trace, i: nat)
    requires Run(setting, start, tr) && i + 1 < |tr| && tr[i].node == GitCommitNode
    ensures var e := tr[i];
      var sha := if e.result.Committed? then e.result.sha else e.before.state.commitSha;
      tr[i + 1].node == if sha == "" then HaltNode else CiValidationNode
  {
    assert Step(setting, tr[i]) && Follows(tr[i], tr[i + 1]);
    hide AfterTests, AfterCi, AfterRisk, AfterPolicy;
  }

  /** The node after `ci_validation`, by the status it got or, if it failed, the one on record. */
  lemma AfterCiNode(setting: Setting, start: World, tr: Trace, i: nat)
    requires Run(setting, start, tr) && i + 1 < |tr| && tr[i].node == CiValidationNode
    ensures var e, next, s := tr[i], tr[i + 1].node, tr[i].before.state;
      var status := if e.result.CiRan? then e.result.status else s.ciStatus;
      var good := status == Passed || status == Skipped || status == NotRun;
      && (next == CreatePrNode <==> good)
      && (next == HaltNode <==> !good && (s.ciRequiresHuman || s.ciIteration >= s.maxCiIterations))
      && (next == CiDebuggingNode <==> !good && !s.ciRequiresHuman && s.ciIteration < s.maxCiIterations)
  {
    assert Step(setting, tr[i]) && Follows(tr[i], tr[i + 1]);
    hide AfterTests, AfterRisk, AfterPolicy;
  }

  // The fixed edges

  lemma FixedEdges(setting: Setting, start: World, tr: Trace, i: nat)
    requires Run(setting, start, tr) && i + 1 < |tr|
    ensures var e, f := tr[i].node, tr[i + 1].node;
      && (e == PlanNode ==> f == RepositoryNode) && (e == RepositoryNode ==> f == RiskNode)
      && (e == ImplementationNode ==> f == TestGenerationNode) && (e == TestGenerationNode ==> f == RunTestsNode)
      && (e == DebuggingNode || e == CiDebuggingNode ==> f == RunTestsNode)
      && (e == CreatePrNode ==> f == HumanReviewNode) && e != HumanReviewNode && e != HaltNode
  {
    assert Follows(tr[i], tr[i + 1]);
  }

  // The end

  /** The verdict of a fresh run: its last node's, if that node is `human_review` or `halt` and returned. */
  lemma {:induction false} VerdictIs(setting: Setting, start: World, tr: Trace)
    requires Run(setting, start, tr) && Fresh(start) && tr != []
    ensures var last := tr[|tr| - 1];
      last.after.state.outcome ==
        if last.node == HumanReviewNode && !last.result.Fails? then ReadyToReview
        else if last.node == HaltNode && !last.result.Fails? then EscalatedToHuman
        else Undecided
  {
    hide Step;
    var n := |tr| - 1;
    VerdictAfter(setting, tr[n]);
    if n > 0 {
      Prefix(setting, start, tr, n);
      VerdictIs(setting, start, tr[..n]);
      assert Follows(tr[n - 1], tr[n]);
      FixedEdges(setting, start, tr, n - 1);
    }
  }

  lemma VerdictAfter(setting: Setting, e: Event)
    requires Step(setting, e)
    ensures e.after.state.outcome ==
      if e.node == HumanReviewNode && !e.result.Fails? then ReadyToReview
      else if e.node == HaltNode && !e.result.Fails? then EscalatedToHuman
      else e.before.state.outcome
  {
  }

  // What a node leaves in the state

  /** Test results: only a test run that returns replaces them, and it adds its failures as one more round. */
  lemma TestResultsOfStep(setting: Setting, e: Event)
    requires Step(setting, e)
    ensures var s, s' := e.before.state, e.after.state;
      if e.node == RunTestsNode && e.result.Tested? then
        var r := Parse(e.result.output);
        && s'.testsPassed == r.passed && s'.testsFailed == r.failed && s'.testRunOk == Ok(r)
        && |s'.history| == |s.history| + 1 && s'.history[..|s.history|] == s.history
        && multiset(s'.history[|s.history|]) == multiset(SignatureOf(setting.hash, r.failures))
      else if e.node == RunTestsNode && e.result == NoTestProject then
        s'.testsPassed == 0 && s'.testsFailed == 0 && s'.testRunOk && s'.history == s.history
      else
        && s'.testsPassed == s.testsPassed && s'.testsFailed == s.testsFailed && s'.testRunOk == s.testRunOk
        && s'.history == s.history
  {
    if e.node == RunTestsNode && e.result.Tested? {
      SortPermutes(SignatureOf(setting.hash, Parse(e.result.output).failures), Ascending);
    }
  }

  /** The files on record: those of the node's own look, for the nodes that look and return. */
  lemma ModifiedFilesOfStep(setting: Setting, e: Event)
    requires Step(setting, e)
    ensures var looks := !e.result.Fails? && e.result != NoTestProject && e.after.workspace &&
        (e.node == ImplementationNode || e.node == TestGenerationNode || e.node == RunTestsNode ||
         e.node == DebuggingNode || e.node == SecurityPolicyNode || e.node == CiDebuggingNode);
      e.after.state.modifiedFiles == if looks then setting.files(e.seen.names.text) else e.before.state.modifiedFiles
  {
  }

  /** Commit, CI and the request for a person: each is set by its own node, and by no other. */
  lemma CommitAndCiOfStep(setting: Setting, e: Event)
    requires Step(setting, e)
    ensures var s, s' := e.before.state, e.after.state;
      && s'.commitSha == (if e.node == GitCommitNode && e.result.Committed? then e.result.sha else s.commitSha)
      && s'.ciStatus == (if e.node == CiValidationNode && e.result.CiRan? then e.result.status else s.ciStatus)
      && s'.ciRequiresHuman ==
         (if e.node == CiDebuggingNode && e.result.Diagnosed? then e.result.requiresHuman else s.ciRequiresHuman)
  {
  }

  /** The policy action on record: a decision's own, BLOCK after a boundary violation or an empty commit. */
  lemma PolicyActionOfStep(setting: Setting, e: Event)
    requires Step(setting, e)
    ensures e.after.state.policyAction ==
      if e.result == Fails(true) || (e.node == GitCommitNode && e.result == NothingToCommit) then Some(Policy.Block)
      else if e.node == RiskNode && e.result.Assessed? then Some(e.result.decision.action)
      else if e.node == SecurityPolicyNode && e.result.Judged? then Some(e.result.decision.action)
      else e.before.state.policyAction
  {
  }

  /** A commit node that returns has nothing to commit exactly when no file is on record. */
  lemma EmptyCommitIff(setting: Setting, e: Event)
    requires Step(setting, e) && e.node == GitCommitNode && !e.result.Fails?
    ensures e.result == NothingToCommit <==> e.before.state.modifiedFiles == []
    ensures e.result == NothingToCommit || e.result == CommitRefused || e.result.Committed?
  {
  }

  /** Tests, commit, CI and pull request need the worktree: without it they hit the workspace boundary. */
  lemma WithoutWorktree(setting: Setting, e: Event)
    requires Step(setting, e) && !e.before.workspace
    requires e.node == RunTestsNode || e.node == GitCommitNode || e.node == CiValidationNode || e.node == CreatePrNode
    ensures e.result == Fails(true) && e.after.state.policyAction == Some(Policy.Block)
  {
  }

  /** The worktree changes only in nodes that edit, test or commit; only `implementation` creates one. */
  lemma WorktreeOfStep(setting: Setting, e: Event)
    requires Step(setting, e)
    ensures e.after.diff != e.before.diff ==>
      || e.node == ImplementationNode || e.node == TestGenerationNode || e.node == RunTestsNode
      || e.node == DebuggingNode || e.node == CiDebuggingNode || e.node == GitCommitNode
    ensures e.after.workspace != e.before.workspace ==> e.node == ImplementationNode && e.after.workspace
    ensures e.node == ImplementationNode && !e.result.Fails? ==> e.after.workspace
  {
  }
}
