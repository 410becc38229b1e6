/** What exactly one step does to a lock entry, to a lease, to a status and to an execution, from any state. */
module OwnershipLaws {
  import opened Domain
  import opened Locks
  import opened Tasks
  import opened Ownership

  // Lock entries

  /** An execution of the task is at its lock release, and its worker owns the entry. */
  predicate LetsGo(s: System, step: Step, name: string) {
    && step.ReleaseLock? && At(s, step.id, Finishing) && LockName(s.live[step.id].task) == name
    && name in s.locks && s.locks[name].owner == s.live[step.id].worker
  }

  /** An entry goes exactly when it is evicted or its own worker lets go of it. */
  lemma EntryGoneIff(s: System, step: Step, name: string)
    requires name in s.locks
    ensures name !in Apply(s, step).locks <==> step == Evict(name) || LetsGo(s, step, name)
  {
  }

  /** A live worker is handed the task under a fresh execution id, and no unexpired entry is in the way. */
  predicate Takes(s: System, step: Step, name: string) {
    && step.Deliver? && step.id !in s.live && step.worker !in s.dead && LockName(step.task) == name
    && !(name in s.locks && s.locks[name].expires > s.now)
  }

  /** An entry is written exactly by an accepted delivery; otherwise it stays as it was, if it stays. */
  lemma EntryWrittenIff(s: System, step: Step, name: string)
    requires name in Apply(s, step).locks
    ensures Takes(s, step, name) ==> Apply(s, step).locks[name] == Entry(step.worker, s.now + s.ttl)
    ensures !Takes(s, step, name) ==> name in s.locks && Apply(s, step).locks[name] == s.locks[name]
  {
  }

  /** The entry of the worker that took the lock over survives the release of the one it overtook. */
  lemma OvertakenReleaseKeeps(s: System, id: nat)
    requires At(s, id, Finishing) && LockName(s.live[id].task) in s.locks
    requires s.locks[LockName(s.live[id].task)].owner != s.live[id].worker
    ensures Apply(s, ReleaseLock(id)).locks == s.locks
  {
  }

  // Leases

  predicate EndsByRelease(s: System, step: Step, t: string, w: string) {
    step.ReleaseLease? && At(s, step.id, Unlocked) && s.live[step.id].task == t && s.live[step.id].worker == w
  }

  predicate EndsByOutcome(s: System, step: Step, t: string) {
    && step.Finalize? && At(s, step.id, Running) && s.live[step.id].task == t
    && (step.outcome == HumanReviewRequired || step.outcome == TaskStatus.Failed)
  }

  predicate EndsByDecision(s: System, step: Step, t: string)
    requires t in s.rows
  {
    step.Decide? && step.task == t && Accepted(step.decision, s.rows[t].status)
  }

  predicate EndsByClaim(s: System, step: Step, t: string, w: string)
    requires t in s.rows
  {
    && step.Claim? && At(s, step.id, Inspected) && s.live[step.id].task == t && s.live[step.id].worker != w
    && Starts(s, step)
  }

  /** The five statuses in which a task is over. */
  predicate Over(status: TaskStatus) {
    || status == Completed || status == TaskStatus.Failed || status == Cancelled || status == Rejected
    || status == HumanReviewRequired
  }

  /** A worker loses its lease exactly by its own release, a terminal outcome or decision, or a later claim. */
  lemma LeaseEndsIff(s: System, step: Step, t: string, w: string)
    requires t in s.rows && s.rows[t].lockedBy == Some(w)
    ensures t in Apply(s, step).rows
    ensures Apply(s, step).rows[t].lockedBy != Some(w) <==>
      || EndsByRelease(s, step, t, w) || EndsByOutcome(s, step, t) || EndsByDecision(s, step, t)
      || EndsByClaim(s, step, t, w)
  {
  }

  // Executions

  /** The claim finds an open row that nobody holds, or whose lease has run out. */
  predicate Starts(s: System, step: Step) {
    && step.Claim? && At(s, step.id, Inspected)
    && var t := s.live[step.id].task;
       && t in s.rows && !Over(s.rows[t].status)
       && (s.rows[t].lockedBy.None? || (s.rows[t].leaseExpires.Some? && s.rows[t].leaseExpires.value < s.now))
  }

  /** A workflow starts exactly by such a claim, which takes the lease for one TTL. */
  lemma StartsIff(s: System, step: Step, id: nat)
    requires !At(s, id, Running)
    ensures At(Apply(s, step), id, Running) <==> Starts(s, step) && step.id == id
    ensures Starts(s, step) && step.id == id ==>
      var e, s' := s.live[id], Apply(s, step);
      && s'.rows[e.task] == Row(s.rows[e.task].status, Some(e.worker), Some(s.now + s.ttl))
      && s'.live[id] == e.(phase := Running, claimedAt := Some(s.now))
  {
  }

  /** A delivery goes on past its row check exactly when the task exists and is not over. */
  lemma InspectedIff(s: System, id: nat)
    requires At(s, id, Locked)
    ensures var t, s' := s.live[id].task, Apply(s, Inspect(id));
      if t in s.rows && !Over(s.rows[t].status) then At(s', id, Inspected) else At(s', id, Finishing)
  {
  }

  /** A running workflow is left exactly by an outcome, an exception or the death of its worker. */
  lemma RunEndsIff(s: System, step: Step, id: nat)
    requires At(s, id, Running) && s.live[id].task in s.rows
    ensures !At(Apply(s, step), id, Running) <==>
      || (step.Finalize? && step.id == id && step.outcome in {HumanReviewRequired, ReadyForReview, TaskStatus.Failed})
      || step == Escape(id) || step == Crash(s.live[id].worker)
  {
  }

  /** A delivery is over exactly after its lease release, an exception in `finally`, or the death of its worker. */
  lemma DeliveryEndsIff(s: System, step: Step, id: nat)
    requires id in s.live
    ensures id !in Apply(s, step).live <==>
      || (step == ReleaseLease(id) && At(s, id, Unlocked))
      || (step == Abandon(id) && (At(s, id, Finishing) || At(s, id, Unlocked)))
      || step == Crash(s.live[id].worker)
    ensures id in Apply(s, step).live ==>
      var e, e' := s.live[id], Apply(s, step).live[id];
      e'.worker == e.worker && e'.task == e.task && e'.acquiredAt == e.acquiredAt
  {
  }

  // Statuses

  /** What the API accepts: an approval of a task in review, a rejection of one that is open or was handed to a
      person, a cancel of an open one. */
  predicate Accepted(d: Decision, status: TaskStatus) {
    match d
    case Approve => status == ReadyForReview
    case Reject => !Over(status) || status == HumanReviewRequired
    case Cancel => !Over(status)
  }

  /** An accepted decision completes, rejects or cancels the task and ends its lease; a refused one does nothing. */
  lemma DecisionLeaves(s: System, t: string, d: Decision)
    requires t in s.rows
    ensures var s' := Apply(s, Decide(t, d));
      && (!Accepted(d, s.rows[t].status) ==> s' == s)
      && (Accepted(d, s.rows[t].status) ==>
            && s'.rows[t].lockedBy.None? && s'.rows[t].leaseExpires.None?
            && (d == Approve <==> s'.rows[t].status == Completed) && (d == Reject <==> s'.rows[t].status == Rejected)
            && (d == Cancel <==> s'.rows[t].status == Cancelled))
  {
  }

  /** A checkpoint parks a task exactly at `human_review`, never queues it again, and leaves its lease alone. */
  lemma CheckpointParksIff(s: System, id: nat, node: Node)
    requires At(s, id, Running) && s.live[id].task in s.rows
    ensures var t, s' := s.live[id].task, Apply(s, Checkpoint(id, node));
      && (Parked(s'.rows[t]) <==> node == HumanReviewNode) && s'.rows[t].status != Queued
      && s'.rows[t].lockedBy == s.rows[t].lockedBy && s'.rows[t].leaseExpires == s.rows[t].leaseExpires
  {
  }

  /** The status names the node: read backwards, each status is that of one node, except that both test nodes show
      TESTING and that `halt`, which has no status of its own, shows PLANNING like `plan`. */
  lemma StatusNamesNode(node: Node)
    ensures match NodeStatus(node)
      case Planning => node == PlanNode || node == HaltNode
      case RepositoryAnalysis => node == RepositoryNode
      case RiskAssessment => node == RiskNode
      case Implementing => node == ImplementationNode
      case Testing => node == TestGenerationNode || node == RunTestsNode
      case Debugging => node == DebuggingNode
      case PolicyCheck => node == SecurityPolicyNode
      case TestPassed => node == GitCommitNode
      case CiRunning => node == CiValidationNode
      case CiDebugging => node == CiDebuggingNode
      case PrCreated => node == CreatePrNode
      case ReadyForReview => node == HumanReviewNode
      case _ => false
  {
  }

  /** Parked means over or waiting in review. */
  lemma ParkedIff(row: Row)
    ensures Parked(row) <==> Over(row.status) || row.status == ReadyForReview
  {
  }

  /** What a sweep re-publishes can be claimed, is not in review, and is queued or left behind by its worker. */
  lemma SweptIsClaimable(order: seq<string>, scan: seq<string>, rows: map<string, Row>, now: int, id: string)
    requires id in SweepBatch(order, scan, rows, now)
    ensures id in rows && !Over(rows[id].status) && rows[id].status != ReadyForReview
    ensures || (rows[id].status == Queued && rows[id].lockedBy.None?)
            || (rows[id].lockedBy.Some? && rows[id].leaseExpires.Some? && rows[id].leaseExpires.value < now)
  {
    SweepBatchSound(order, scan, rows, now, id);
  }

  /** Nobody else's row is touched, and rows never go away. */
  lemma OtherRowsKept(s: System, step: Step, t: string)
    requires t in s.rows
    ensures t in Apply(s, step).rows
    ensures (step.Decide? ==> step.task != t) ==>
      (step.Claim? || step.Checkpoint? || step.Finalize? || step.ReleaseLease? ==>
         step.id in s.live ==> s.live[step.id].task != t) ==> Apply(s, step).rows[t] == s.rows[t]
  {
  }
}
