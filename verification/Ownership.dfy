/**
 Task ownership as a state machine: any number of workers, tasks, duplicate deliveries, crashes and
 API decisions, interleaved in any order. Every step is one atomic action of the worker, the API or
 the environment; a step that is not enabled leaves the system as it was.
 */
module Ownership {
  import opened Domain
  import opened Locks
  import opened Tasks

  /** Where one delivery of a task stands: it holds the fast lock in every phase but `Unlocked`. */
  datatype Phase =
    | Locked      // lock acquired, row not read yet
    | Inspected   // row present and not terminal
    | Running     // lease claimed, workflow in progress
    | Finishing   // body left, the `finally` block is next
    | Unlocked    // lock released, lease release is next

  datatype Execution = Execution(worker: string, task: string, phase: Phase,
                                 acquiredAt: int, claimedAt: Option<int>)

  datatype System = System(now: int, ttl: int, rows: map<string, Row>, locks: Table,
                           live: map<nat, Execution>, dead: set<string>)

  datatype Decision = Approve | Reject | Cancel

  datatype Step =
    | Create(task: string)
    | Pass(ticks: nat)
    | Deliver(id: nat, worker: string, task: string)   // ends at once when the lock is held
    | Inspect(id: nat)
    | Claim(id: nat)
    | Checkpoint(id: nat, node: Node)
    | Finalize(id: nat, outcome: TaskStatus)
    | Escape(id: nat)                                  // an exception leaves the `try` body
    | ReleaseLock(id: nat)
    | ReleaseLease(id: nat)
    | Crash(worker: string)                            // the id is never used again
    | Abandon(id: nat)                                 // an exception inside `finally` itself
    | Decide(task: string, decision: Decision)
    | Evict(name: string)                              // a lock entry vanishes

  function LockName(task: string): string {
    "task:" + task
  }

  lemma LockNameInjective(a: string, b: string)
    requires LockName(a) == LockName(b)
    ensures a == b
  {
    assert LockName(a)[5..] == a && LockName(b)[5..] == b;
  }

  function Initial(ttl: int): System {
    System(0, ttl, map[], map[], map[], {})
  }

  predicate At(s: System, id: nat, phase: Phase) {
    id in s.live && s.live[id].phase == phase
  }

  function Moved(s: System, id: nat, phase: Phase): System
    requires id in s.live
  {
    s.(live := s.live[id := s.live[id].(phase := phase)])
  }

  function DecisionAllowed(decision: Decision, status: TaskStatus): bool {
    match decision
    case Approve => status == ReadyForReview
    case Reject => !Terminal(status) || status == HumanReviewRequired
    case Cancel => !Terminal(status)
  }

  function DecisionStatus(decision: Decision): TaskStatus {
    match decision
    case Approve => Completed
    case Reject => Rejected
    case Cancel => Cancelled
  }

  function Apply(s: System, step: Step): System {
    match step
    case Create(t) =>
      if t in s.rows then s else s.(rows := s.rows[t := FRESH])
    case Pass(n) =>
      s.(now := s.now + n)
    case Deliver(id, w, t) =>
      if id in s.live || w in s.dead || Live(s.locks, LockName(t), s.now) then s
      else s.(locks := Acquired(s.locks, LockName(t), s.ttl, w, s.now),
              live := s.live[id := Execution(w, t, Locked, s.now, None)])
    case Inspect(id) =>
      if !At(s, id, Locked) then s
      else var t := s.live[id].task;
           if t !in s.rows || Terminal(s.rows[t].status) then Moved(s, id, Finishing)
           else Moved(s, id, Inspected)
    case Claim(id) =>
      if !At(s, id, Inspected) then s
      else var e := s.live[id];
           if e.task !in s.rows || !CanClaim(s.rows[e.task], s.now) then Moved(s, id, Finishing)
           else s.(rows := s.rows[e.task := Claimed(s.rows[e.task], e.worker, s.ttl, s.now)],
                   live := s.live[id := e.(phase := Running, claimedAt := Some(s.now))])
    case Checkpoint(id, node) =>
      if !At(s, id, Running) || s.live[id].task !in s.rows then s
      else var t := s.live[id].task;
           s.(rows := s.rows[t := WithStatus(s.rows[t], NodeStatus(node))])
    case Finalize(id, outcome) =>
      if !At(s, id, Running) || s.live[id].task !in s.rows
         || outcome !in {HumanReviewRequired, ReadyForReview, Failed} then s
      else var t := s.live[id].task;
           Moved(s.(rows := s.rows[t := WithStatus(s.rows[t], outcome)]), id, Finishing)
    case Escape(id) =>
      if At(s, id, Locked) || At(s, id, Inspected) || At(s, id, Running)
      then Moved(s, id, Finishing) else s
    case ReleaseLock(id) =>
      if !At(s, id, Finishing) then s
      else Moved(s.(locks := Released(s.locks, LockName(s.live[id].task), s.live[id].worker)), id, Unlocked)
    case ReleaseLease(id) =>
      if !At(s, id, Unlocked) then s
      else var e := s.live[id];
           var s' := s.(live := s.live - {id});
           if e.task !in s.rows then s'
           else s'.(rows := s.rows[e.task := ReleasedBy(s.rows[e.task], e.worker)])
    case Crash(w) =>
      s.(dead := s.dead + {w}, live := map id | id in s.live && s.live[id].worker != w :: s.live[id])
    case Abandon(id) =>
      if At(s, id, Finishing) || At(s, id, Unlocked) then s.(live := s.live - {id}) else s
    case Decide(t, d) =>
      if t in s.rows && DecisionAllowed(d, s.rows[t].status)
      then s.(rows := s.rows[t := WithStatus(s.rows[t], DecisionStatus(d))]) else s
    case Evict(name) =>
      s.(locks := s.locks - {name})
  }

  function After(s: System, steps: seq<Step>): System {
    if steps == [] then s else Apply(After(s, steps[..|steps| - 1]), steps[|steps| - 1])
  }

  lemma Then(s: System, steps: seq<Step>, step: Step)
    ensures After(s, steps + [step]) == Apply(After(s, steps), step)
  {
    assert (steps + [step])[..|steps|] == steps;
  }

  lemma {:induction false} AfterConcat(s: System, first: seq<Step>, second: seq<Step>)
    ensures After(s, first + second) == After(After(s, first), second)
  {
    hide Apply;
    if second == [] {
      assert first + second == first;
    } else {
      var n := |second| - 1;
      assert (first + second)[..|first| + n] == first + second[..n];
      AfterConcat(s, first, second[..n]);
    }
  }

  predicate Holding(e: Execution) {
    e.phase != Unlocked
  }

  /** No live execution is still inside its critical section when its lock entry runs out. */
  ghost predicate LocksOutliveHolders(s: System) {
    forall id :: id in s.live && Holding(s.live[id]) ==> s.now < s.live[id].acquiredAt + s.ttl
  }

  /** No workflow is still running when its lease runs out. */
  ghost predicate LeasesOutliveRuns(s: System) {
    forall id :: id in s.live && s.live[id].phase == Running && s.live[id].claimedAt.Some? ==>
      s.now <= s.live[id].claimedAt.value + s.ttl
  }

  /** No worker handles the same task twice at once. */
  ghost predicate OneDeliveryPerWorker(s: System) {
    forall i, j | i in s.live && j in s.live ::
      s.live[i].task == s.live[j].task && s.live[i].worker == s.live[j].worker ==> i == j
  }

  ghost predicate RunningTask(s: System, task: string) {
    exists id :: id in s.live && s.live[id].task == task && s.live[id].phase == Running
  }

  /** What a theorem assumes of the environment; each field can be switched on independently. */
  datatype Assumptions = Assumptions(
    shortHolds: bool,     // LocksOutliveHolders in every state
    shortRuns: bool,      // LeasesOutliveRuns in every state
    oneDelivery: bool,    // OneDeliveryPerWorker in every state
    quietApi: bool,       // no API decision lands while the task is running
    stableLocks: bool,    // lock entries do not vanish
    cleanExits: bool,     // an exception leaves a running workflow only while its row could be freed as it is
    cleanUnwind: bool)    // `finally` itself does not raise

  /** An exception that leaves the running workflow of a row that must not be freed as it is. */
  predicate DirtyExit(s: System, step: Step) {
    && step.Escape? && At(s, step.id, Running)
    && s.live[step.id].task in s.rows && !SafeToFree(s.rows[s.live[step.id].task])
  }

  ghost predicate Permitted(a: Assumptions, s: System, step: Step) {
    var s' := Apply(s, step);
    && (a.shortHolds ==> LocksOutliveHolders(s'))
    && (a.shortRuns ==> LeasesOutliveRuns(s'))
    && (a.oneDelivery ==> OneDeliveryPerWorker(s'))
    && (a.quietApi && step.Decide? ==> !RunningTask(s, step.task))
    && (a.stableLocks ==> !step.Evict?)
    && (a.cleanExits ==> !DirtyExit(s, step))
    && (a.cleanUnwind ==> !step.Abandon?)
  }

  /** Every step of the run meets the assumptions. */
  ghost predicate Fair(a: Assumptions, s: System, steps: seq<Step>) {
    steps == []
    || var n := |steps| - 1; Fair(a, s, steps[..n]) && Permitted(a, After(s, steps[..n]), steps[n])
  }

  const NOTHING_ASSUMED := Assumptions(false, false, false, false, false, false, false)

  lemma {:induction false} AnythingIsFair(s: System, steps: seq<Step>)
    ensures Fair(NOTHING_ASSUMED, s, steps)
  {
    hide Apply;
    if steps != [] { AnythingIsFair(s, steps[..|steps| - 1]); }
  }

  // Exactness over whole runs

  ghost predicate Throughout(p: System -> bool, ttl: int, steps: seq<Step>) {
    forall k :: 0 <= k <= |steps| ==> p(After(Initial(ttl), steps[..k]))
  }

  ghost predicate Never(bad: (System, Step) -> bool, ttl: int, steps: seq<Step>) {
    forall k :: 0 <= k < |steps| ==> !bad(After(Initial(ttl), steps[..k]), steps[k])
  }

  /** From states that satisfy `inv`, of the steps `a` permits exactly the bad ones break `p`, and the others
      keep `inv`. */
  ghost predicate ExactPerStep(inv: System -> bool, p: System -> bool, bad: (System, Step) -> bool, a: Assumptions) {
    && (forall s :: inv(s) ==> p(s))
    && forall s, step :: inv(s) && Permitted(a, s, step) ==>
         (p(Apply(s, step)) <==> !bad(s, step)) && (p(Apply(s, step)) ==> inv(Apply(s, step)))
  }

  lemma ThroughoutOneMore(p: System -> bool, ttl: int, steps: seq<Step>, n: nat)
    requires |steps| == n + 1
    ensures Throughout(p, ttl, steps) <==> Throughout(p, ttl, steps[..n]) && p(After(Initial(ttl), steps))
  {
    hide After, Initial;
    assert steps[..n + 1] == steps;
    if Throughout(p, ttl, steps) {
      forall k | 0 <= k <= n ensures p(After(Initial(ttl), steps[..n][..k])) {
        assert steps[..n][..k] == steps[..k];
      }
    }
    if Throughout(p, ttl, steps[..n]) && p(After(Initial(ttl), steps)) {
      forall k | 0 <= k <= n + 1 ensures p(After(Initial(ttl), steps[..k])) {
        if k <= n { assert steps[..n][..k] == steps[..k]; }
      }
    }
  }

  lemma NeverOneMore(bad: (System, Step) -> bool, ttl: int, steps: seq<Step>, n: nat)
    requires |steps| == n + 1
    ensures Never(bad, ttl, steps) <==>
      Never(bad, ttl, steps[..n]) && !bad(After(Initial(ttl), steps[..n]), steps[n])
  {
    hide After;
    assert forall k :: 0 <= k <= n ==> steps[..n][..k] == steps[..k];
    if Never(bad, ttl, steps) {
      forall k | 0 <= k < n ensures !bad(After(Initial(ttl), steps[..n][..k]), steps[..n][k]) {
        assert steps[..n][..k] == steps[..k];
      }
    }
  }

  /** Then, over every run that `a` permits, `p` holds throughout if and only if no step is bad. */
  lemma {:induction false} ExactOverRun(inv: System -> bool, p: System -> bool, bad: (System, Step) -> bool,
                                        a: Assumptions, ttl: int, steps: seq<Step>)
    requires ExactPerStep(inv, p, bad, a) && inv(Initial(ttl)) && Fair(a, Initial(ttl), steps)
    ensures Throughout(p, ttl, steps) <==> Never(bad, ttl, steps)
    ensures Throughout(p, ttl, steps) ==> inv(After(Initial(ttl), steps))
  {
    if steps == [] {
      assert Throughout(p, ttl, steps);
    } else {
      var n := |steps| - 1;
      var s := After(Initial(ttl), steps[..n]);
      assert After(Initial(ttl), steps) == Apply(s, steps[n]) && Permitted(a, s, steps[n]);
      assert Fair(a, Initial(ttl), steps[..n]);
      hide Throughout, Never, Apply, After, Fair, Permitted, Initial;
      ExactOverRun(inv, p, bad, a, ttl, steps[..n]);
      ThroughoutOneMore(p, ttl, steps, n);
      NeverOneMore(bad, ttl, steps, n);
    }
  }
}
