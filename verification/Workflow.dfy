/**
 The agent graph as a trace machine. A node either returns its update or fails and is turned into a
 partial update by the supervisor; models, git, the test runner and CI choose every result freely.
 */
module Workflow {
  import opened Domain
  import Policy
  import opened TestOutcome
  import opened Runner

  datatype CiStatus = NotRun | Pending | InProgress | Passed | CiFailure | Skipped | TimedOut

  datatype Verdict = Undecided | ReadyToReview | EscalatedToHuman

  /** The fields that routing, the loops and the outcome depend on. */
  datatype AgentState = AgentState(
    iteration: int, maxIterations: int, ciIteration: int, maxCiIterations: int,
    testsPassed: int, testsFailed: int, testRunOk: bool, history: seq<seq<Signature>>,
    modifiedFiles: seq<string>, maxFiles: int, policyAction: Option<Policy.Action>,
    commitSha: string, ciStatus: CiStatus, ciRequiresHuman: bool, outcome: Verdict)

  function InitialState(maxIterations: int, maxCiIterations: int, maxFiles: int): AgentState {
    AgentState(0, maxIterations, 0, maxCiIterations, 0, 0, false, [], [], maxFiles, None, "", NotRun, false, Undecided)
  }

  /** The worktree against HEAD: what git would print as diff, as changed names, and as line counts. */
  datatype Diff = Diff(text: string, names: string, counts: string)

  /** What one look at the worktree gets to see of the three; `staged` says that new files were marked for
      adding first, without which git leaves them out. */
  datatype Sight = Sight(staged: bool, text: Capture, names: Capture, counts: Capture)

  predicate Sees(seen: Sight, d: Diff) {
    seen.staged ==> Captures(seen.text, d.text) && Captures(seen.names, d.names) && Captures(seen.counts, d.counts)
  }

  /** All four commands exited cleanly in time. */
  predicate Clear(seen: Sight) {
    seen.staged && seen.text.finished && seen.names.finished && seen.counts.finished
  }

  /** Nothing was missed. */
  predicate Whole(seen: Sight, d: Diff) {
    seen.text.text == d.text && seen.names.text == d.names && seen.counts.text == d.counts
  }

  predicate AllFit(d: Diff) {
    Fits(d.text) && Fits(d.names) && Fits(d.counts)
  }

  /** For a node that does not look, or whose look does not matter. */
  const NO_SIGHT := Sight(false, Capture("", false), Capture("", false), Capture("", false))

  datatype World = World(state: AgentState, diff: Diff, workspace: bool)

  /** The policy engine, the fingerprint of a test failure, and how git's output is read: the added lines of a
      diff, the files of the names, and the lines changed of the counts. */
  datatype Setting = Setting(engine: Policy.Engine, hash: TestFailure -> Signature,
                             added: string -> string, files: string -> seq<string>, lines: string -> nat)

  datatype Result =
    | Fails(boundary: bool)                       // boundary: policy or workspace violation
    | Returns
    | Assessed(candidates: seq<string>, decision: Policy.Decision)
    | NoTestProject
    | Tested(output: Output)
    | Judged(decision: Policy.Decision)
    | NothingToCommit
    | CommitRefused
    | Committed(sha: string)
    | CiRan(status: CiStatus)
    | Diagnosed(requiresHuman: bool)

  /** `seen` is the node's look at the worktree it leaves behind, if it takes one. */
  datatype Event = Event(node: Node, result: Result, before: World, after: World, seen: Sight)

  // Routing

  function AfterRisk(s: AgentState): Node {
    if s.policyAction == Some(Policy.Block) then HaltNode else ImplementationNode
  }

  function AfterTests(s: AgentState): Node {
    if s.testsFailed == 0 && s.testsPassed >= 0 && s.testRunOk then SecurityPolicyNode
    else if s.iteration >= s.maxIterations then HaltNode
    else if IsStuck(s.history) then HaltNode
    else if |s.modifiedFiles| > s.maxFiles then HaltNode
    else DebuggingNode
  }

  function AfterPolicy(s: AgentState): Node {
    if s.policyAction == Some(Policy.Block) then HaltNode else GitCommitNode
  }

  function AfterCommit(s: AgentState): Node {
    if s.commitSha == "" then HaltNode else CiValidationNode
  }

  function AfterCi(s: AgentState): Node {
    if s.ciStatus in {Passed, Skipped, NotRun} then CreatePrNode
    else if s.ciRequiresHuman then HaltNode
    else if s.ciIteration >= s.maxCiIterations then HaltNode
    else CiDebuggingNode
  }

  /** The edge table; `human_review` and `halt` lead to END. */
  function Route(node: Node, s: AgentState): Option<Node> {
    match node
    case PlanNode => Some(RepositoryNode)
    case RepositoryNode => Some(RiskNode)
    case RiskNode => Some(AfterRisk(s))
    case ImplementationNode => Some(TestGenerationNode)
    case TestGenerationNode => Some(RunTestsNode)
    case RunTestsNode => Some(AfterTests(s))
    case DebuggingNode => Some(RunTestsNode)
    case SecurityPolicyNode => Some(AfterPolicy(s))
    case GitCommitNode => Some(AfterCommit(s))
    case CiValidationNode => Some(AfterCi(s))
    case CiDebuggingNode => Some(RunTestsNode)
    case CreatePrNode => Some(HumanReviewNode)
    case HumanReviewNode => None
    case HaltNode => None
  }

  const RECURSION_LIMIT := 60

  // Node updates

  /** Supervisor: a failing node contributes a halt reason, and BLOCK when a hard boundary was hit. */
  function AfterFailure(s: AgentState, boundary: bool): AgentState {
    if boundary then s.(policyAction := Some(Policy.Block)) else s
  }

  /** Diff refresh: only once a workspace exists. */
  function Refreshed(setting: Setting, s: AgentState, w: World, seen: Sight): AgentState {
    if w.workspace then s.(modifiedFiles := setting.files(seen.names.text)) else s
  }

  /** What the engine is asked about these three outputs. */
  function Question(setting: Setting, text: string, names: string, counts: string): Policy.Input {
    Policy.Input(setting.files(names), if text == "" then "" else setting.added(text),
                 Some(setting.lines(counts)), true)
  }

  function ShownQuestion(setting: Setting, seen: Sight): Policy.Input {
    Question(setting, seen.text.text, seen.names.text, seen.counts.text)
  }

  function FullQuestion(setting: Setting, d: Diff): Policy.Input {
    Question(setting, d.text, d.names, d.counts)
  }

  /** The gate asks about what it sees, or, without a worktree, about the files on record. */
  ghost predicate Judges(setting: Setting, before: World, seen: Sight, d: Policy.Decision) {
    var question := if before.workspace then ShownQuestion(setting, seen)
                    else Policy.Input(before.state.modifiedFiles, "", Some(0), true);
    Policy.DecidesOn(setting.engine, question, d)
  }

  function AfterTestRun(setting: Setting, s: AgentState, output: Output): AgentState {
    var r := Parse(output);
    s.(testsPassed := r.passed, testsFailed := r.failed, testRunOk := Ok(r),
       history := s.history + [SignaturesFor(setting.hash, r.failures)])
  }

  /** What a node that returns does to the state. */
  ghost predicate Update(setting: Setting, e: Event) {
    var s, s' := e.before.state, e.after.state;
    match e.node
    case PlanNode => e.result == Returns && s' == s
    case RepositoryNode => e.result == Returns && s' == s
    case RiskNode =>
      && e.result.Assessed?
      && Policy.Decides(setting.engine, e.result.candidates, "", None, false, e.result.decision)
      && s' == s.(policyAction := Some(e.result.decision.action))
    case ImplementationNode => e.result == Returns && e.after.workspace && s' == Refreshed(setting, s, e.after, e.seen)
    case TestGenerationNode => e.result == Returns && s' == Refreshed(setting, s, e.after, e.seen)
    case RunTestsNode =>
      && ((e.result == NoTestProject && e.after.diff == e.before.diff
             && s' == s.(testsPassed := 0, testsFailed := 0, testRunOk := true))
          || (e.result.Tested? && s' == Refreshed(setting, AfterTestRun(setting, s, e.result.output), e.after, e.seen)))
    case DebuggingNode =>
      e.result == Returns && s' == Refreshed(setting, s.(iteration := s.iteration + 1), e.after, e.seen)
    case SecurityPolicyNode =>
      && e.result.Judged? && Judges(setting, e.before, e.seen, e.result.decision)
      && s' == Refreshed(setting, s.(policyAction := Some(e.result.decision.action)), e.before, e.seen)
    case GitCommitNode =>
      if s.modifiedFiles == []
      then e.result == NothingToCommit && s' == s.(policyAction := Some(Policy.Block))
      else || (e.result == CommitRefused && s' == s)
           || (e.result.Committed? && s' == s.(commitSha := e.result.sha))
    case CiValidationNode =>
      e.result.CiRan? && e.result.status != NotRun && s' == s.(ciStatus := e.result.status)
    case CiDebuggingNode =>
      && e.result.Diagnosed?
      && s' == Refreshed(setting, s.(ciIteration := s.ciIteration + 1, ciRequiresHuman := e.result.requiresHuman),
                         e.after, e.seen)
    case CreatePrNode => e.result == Returns && s' == s
    case HumanReviewNode => e.result == Returns && s' == s.(outcome := ReadyToReview)
    case HaltNode => e.result == Returns && s' == s.(outcome := EscalatedToHuman)
  }

  /** Nodes whose side effects can change the worktree, even when they fail half way. */
  predicate TouchesWorktree(node: Node) {
    node in {ImplementationNode, TestGenerationNode, RunTestsNode, DebuggingNode, CiDebuggingNode, GitCommitNode}
  }

  /** Nodes that first ask for the worktree; without one they hit the workspace boundary. */
  predicate NeedsWorkspace(node: Node) {
    node in {RunTestsNode, GitCommitNode, CiValidationNode, CreatePrNode}
  }

  ghost predicate Step(setting: Setting, e: Event) {
    && Sees(e.seen, e.after.diff)
    && (NeedsWorkspace(e.node) && !e.before.workspace ==> e.result == Fails(true))
    && (!TouchesWorktree(e.node) ==> e.after.diff == e.before.diff)
    && (e.before.workspace ==> e.after.workspace)
    && (e.node != ImplementationNode ==> e.after.workspace == e.before.workspace)
    && if e.result.Fails? then e.after.state == AfterFailure(e.before.state, e.result.boundary) else Update(setting, e)
  }

  type Trace = seq<Event>

  /** A run from `start`, or any prefix of one: a crash can cut it anywhere. */
  ghost predicate Run(setting: Setting, start: World, tr: Trace) {
    && (tr != [] ==> tr[0].node == PlanNode && tr[0].before == start)
    && (forall i :: 0 <= i < |tr| ==> Step(setting, tr[i]))
    && (forall i :: 0 < i < |tr| ==> Follows(tr[i - 1], tr[i]))
  }

  ghost predicate Follows(e: Event, f: Event) {
    f.before == e.after && Route(e.node, e.after.state) == Some(f.node)
  }

  ghost predicate Fresh(start: World) {
    && start.state == InitialState(start.state.maxIterations, start.state.maxCiIterations, start.state.maxFiles)
    && start.state.maxIterations >= 0 && start.state.maxCiIterations >= 0 && !start.workspace
  }

  predicate FailureFree(tr: Trace) {
    forall i :: 0 <= i < |tr| ==> !tr[i].result.Fails?
  }

  /** Every prefix of a run is a run. */
  lemma Prefix(setting: Setting, start: World, tr: Trace, n: nat)
    requires Run(setting, start, tr) && n <= |tr|
    ensures Run(setting, start, tr[..n])
  {
    forall i | 0 < i < n ensures Follows(tr[..n][i - 1], tr[..n][i]) {
      assert Follows(tr[i - 1], tr[i]);
    }
  }

  /** A run whose last node does not lead to END can always go on. */
  lemma Continues(setting: Setting, start: World, tr: Trace)
      returns (e: Event)
    requires Run(setting, start, tr) && tr != []
    requires tr[|tr| - 1].node != HumanReviewNode && tr[|tr| - 1].node != HaltNode
    ensures Run(setting, start, tr + [e])
  {
    var last := tr[|tr| - 1];
    var w := last.after;
    e := Event(Route(last.node, w.state).value, Fails(true), w, w.(state := AfterFailure(w.state, true)), NO_SIGHT);
    var tr' := tr + [e];
    forall i | 0 < i < |tr'| ensures Follows(tr'[i - 1], tr'[i]) {
      if i < |tr| { assert Follows(tr[i - 1], tr[i]); }
    }
  }
}
