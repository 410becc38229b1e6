/** Vocabulary shared by every component: task states, graph nodes, risk levels and policy actions. */
module Domain {

  datatype Option<+T> = None | Some(value: T)

  datatype TaskStatus =
    | Queued | Planning | RepositoryAnalysis | RiskAssessment | Implementing | Testing | TestFailed
    | Debugging | TestPassed | CiRunning | CiFailed | CiDebugging | CiPassed | PolicyCheck
    | ReadyForReview | HumanApproved | PrCreated
    | Completed | Failed | Cancelled | Rejected | HumanReviewRequired

  predicate Terminal(status: TaskStatus) {
    status in {Completed, Failed, Cancelled, Rejected, HumanReviewRequired}
  }

  /** The fourteen nodes of the agent graph. */
  datatype Node =
    | PlanNode | RepositoryNode | RiskNode | ImplementationNode | TestGenerationNode | RunTestsNode
    | DebuggingNode | SecurityPolicyNode | GitCommitNode | CiValidationNode | CiDebuggingNode
    | CreatePrNode | HumanReviewNode | HaltNode

  /** Status a task moves into while a node runs; `halt` has no entry and defaults to PLANNING. */
  function NodeStatus(node: Node): TaskStatus {
    match node
    case PlanNode => Planning
    case RepositoryNode => RepositoryAnalysis
    case RiskNode => RiskAssessment
    case ImplementationNode => Implementing
    case TestGenerationNode => Testing
    case RunTestsNode => Testing
    case DebuggingNode => Debugging
    case SecurityPolicyNode => PolicyCheck
    case GitCommitNode => TestPassed
    case CiValidationNode => CiRunning
    case CiDebuggingNode => CiDebugging
    case CreatePrNode => PrCreated
    case HumanReviewNode => ReadyForReview
    case HaltNode => Planning
  }

  ghost predicate Distinct<T>(xs: seq<T>) {
    forall i, j :: 0 <= i < j < |xs| ==> xs[i] != xs[j]
  }

  lemma Regroup<T>(a: seq<T>, b: seq<T>, c: seq<T>)
    ensures (a + b) + c == a + (b + c)
  {
  }

  /** Python's `xs[:limit]`, which counts a negative limit from the end. */
  function Take<T>(xs: seq<T>, limit: int): (r: seq<T>)
    ensures r <= xs
  {
    if limit >= |xs| then xs
    else if limit >= 0 then xs[..limit]
    else if |xs| + limit >= 0 then xs[..|xs| + limit]
    else []
  }

  /** A limit within range keeps that many, a negative one drops as many, in both cases at the end. */
  lemma TakeCounts<T>(xs: seq<T>, limit: int)
    ensures |Take(xs, limit)| ==
      if limit > |xs| then |xs| else if limit >= 0 then limit else if -limit > |xs| then 0 else |xs| + limit
    ensures Take(xs, limit) <= xs
  {
  }
}
