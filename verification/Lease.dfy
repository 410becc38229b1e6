/** The durable lease suffices alone: no two workflows of one task run together, lock or no lock. */
module Lease {
  import opened Domain
  import opened Locks
  import opened Tasks
  import opened Ownership

  const LEASE_ONLY := Assumptions(false, true, true, true, false, false, false)

  ghost predicate AtMostOneRunner(s: System) {
    forall i, j | i in s.live && j in s.live && s.live[i].phase == Running && s.live[j].phase == Running ::
      s.live[i].task == s.live[j].task ==> i == j
  }

  ghost predicate OwnsLease(s: System, e: Execution) {
    && e.claimedAt.Some? && e.task in s.rows
    && s.rows[e.task].lockedBy == Some(e.worker)
    && s.rows[e.task].leaseExpires == Some(e.claimedAt.value + s.ttl)
  }

  ghost predicate RunnersOwnLeases(s: System) {
    forall i :: i in s.live && s.live[i].phase == Running ==> OwnsLease(s, s.live[i])
  }

  /** A terminal row has no lease. */
  ghost predicate TerminalRowsFree(s: System) {
    forall t :: t in s.rows && Terminal(s.rows[t].status) ==> s.rows[t].lockedBy.None?
  }

  ghost predicate RunnerInv(s: System) {
    OneDeliveryPerWorker(s) && RunnersOwnLeases(s) && TerminalRowsFree(s)
  }

  ghost predicate LeaseInv(s: System) {
    LeasesOutliveRuns(s) && RunnerInv(s)
  }

  lemma RunnersExclude(s: System)
    requires RunnerInv(s)
    ensures AtMostOneRunner(s)
  {
    forall i, j | && i in s.live && j in s.live && s.live[i].phase == Running && s.live[j].phase == Running
                  && s.live[i].task == s.live[j].task
      ensures i == j
    {
      assert OwnsLease(s, s.live[i]) && OwnsLease(s, s.live[j]);
    }
  }

  ghost predicate RunsTask(s: System, i: nat, task: string) {
    i in s.live && s.live[i].phase == Running && s.live[i].task == task
  }

  /** A claim finds the task's workflow still running after its lease has expired. */
  ghost predicate MeetsOverdueRunner(s: System, step: Step) {
    && step.Claim? && At(s, step.id, Inspected)
    && exists i :: && RunsTask(s, i, s.live[step.id].task)
                   && s.live[i].claimedAt.Some? && s.now > s.live[i].claimedAt.value + s.ttl
  }

  /** A claim that would succeed finds the task's workflow still running. */
  ghost predicate MeetsRunner(s: System, step: Step) {
    && step.Claim? && At(s, step.id, Inspected)
    && var t := s.live[step.id].task;
       t in s.rows && CanClaim(s.rows[t], s.now) && exists i :: RunsTask(s, i, t)
  }

  lemma ClaimRunsIff(s: System, id: nat)
    requires AtMostOneRunner(s) && At(s, id, Inspected)
    ensures AtMostOneRunner(Apply(s, Claim(id))) <==> !MeetsRunner(s, Claim(id))
  {
    var s', t := Apply(s, Claim(id)), s.live[id].task;
    if i :| t in s.rows && CanClaim(s.rows[t], s.now) && RunsTask(s, i, t) {
      assert s'.live[i].phase == Running && s'.live[id].phase == Running && s'.live[i].task == s'.live[id].task;
    } else {
      forall i, j | RunsTask(s', i, t) && RunsTask(s', j, t) ensures i == j {
        if i != id { assert RunsTask(s, i, t); }
        if j != id { assert RunsTask(s, j, t); }
      }
      SameTaskRunners(s, s', id);
    }
  }

  lemma SameTaskRunners(s: System, s': System, id: nat)
    requires AtMostOneRunner(s) && id in s.live && id in s'.live && s'.live[id].task == s.live[id].task
    requires forall i :: i in s'.live && i != id ==> i in s.live && s'.live[i] == s.live[i]
    requires forall i, j :: RunsTask(s', i, s.live[id].task) && RunsTask(s', j, s.live[id].task) ==> i == j
    ensures AtMostOneRunner(s')
  {
    forall i, j | && i in s'.live && j in s'.live && s'.live[i].phase == Running && s'.live[j].phase == Running
                  && s'.live[i].task == s'.live[j].task
      ensures i == j
    {
      if i == id || j == id { assert RunsTask(s', i, s.live[id].task) && RunsTask(s', j, s.live[id].task); }
    }
  }

  lemma OthersStartNothing(s: System, step: Step)
    requires AtMostOneRunner(s) && !step.Claim?
    ensures AtMostOneRunner(Apply(s, step))
  {
  }

  /** From a state with at most one workflow a task, whatever led there, exactly such a claim starts a second. */
  lemma StepRunsIff(s: System, step: Step)
    requires AtMostOneRunner(s)
    ensures AtMostOneRunner(Apply(s, step)) <==> !MeetsRunner(s, step)
  {
    if step.Claim? {
      if At(s, step.id, Inspected) { ClaimRunsIff(s, step.id); }
    } else {
      OthersStartNothing(s, step);
    }
  }

  ghost function OneRunner(): System -> bool {
    s => AtMostOneRunner(s)
  }

  ghost function MeetingRunner(): (System, Step) -> bool {
    (s, step) => MeetsRunner(s, step)
  }

  /** Over every run, with no assumption at all: no two workflows of one task run together throughout if and only
      if no claim succeeds beside a runner - be it past its lease, or robbed of it by a cancel or a release. */
  lemma RunnersExact(ttl: int, steps: seq<Step>)
    ensures Throughout(OneRunner(), ttl, steps) <==> Never(MeetingRunner(), ttl, steps)
  {
    AnythingIsFair(Initial(ttl), steps);
    forall s, step | AtMostOneRunner(s) ensures AtMostOneRunner(Apply(s, step)) <==> !MeetsRunner(s, step) {
      StepRunsIff(s, step);
    }
    assert AtMostOneRunner(Initial(ttl));
    hide Apply, AtMostOneRunner, MeetsRunner, Initial;
    ExactOverRun(OneRunner(), OneRunner(), MeetingRunner(), NOTHING_ASSUMED, ttl, steps);
  }

  /** While nobody interferes with leases, a claim can only succeed beside a runner that is overdue. */
  lemma RunnersMeetOverdue(s: System, id: nat)
    requires RunnerInv(s) && At(s, id, Inspected)
    ensures MeetsRunner(s, Claim(id)) <==> MeetsOverdueRunner(s, Claim(id))
  {
    forall i | RunsTask(s, i, s.live[id].task) ensures OwnsLease(s, s.live[i]) {}
  }

  /** A claim beside no runner, or one that is refused, leaves all leases in place. */
  lemma ClaimKeepsRunnerInv(s: System, id: nat)
    requires RunnerInv(s) && At(s, id, Inspected) && !MeetsRunner(s, Claim(id))
    ensures RunnerInv(Apply(s, Claim(id)))
  {
    var s', t := Apply(s, Claim(id)), s.live[id].task;
    forall i | i in s'.live && s'.live[i].phase == Running ensures OwnsLease(s', s'.live[i]) {
      if i != id {
        assert s.live[i] == s'.live[i] && OwnsLease(s, s.live[i]);
        assert RunsTask(s, i, s.live[i].task);
      }
    }
  }

  /** Only the owner's finalize or release can end a lease that a runner still needs. */
  lemma RunnerStepKeepsRunnerInv(s: System, step: Step)
    requires step.Checkpoint? || step.Finalize? || step.ReleaseLease?
    requires RunnerInv(s) && OneDeliveryPerWorker(Apply(s, step))
    ensures RunnerInv(Apply(s, step))
  {
    RunnersExclude(s);
    var s' := Apply(s, step);
    forall i | i in s'.live && s'.live[i].phase == Running ensures OwnsLease(s', s'.live[i]) {
      assert i in s.live && s.live[i] == s'.live[i] && OwnsLease(s, s.live[i]);
    }
  }

  /** A step that starts no workflow and leaves the lease columns alone. */
  lemma LeasesUntouched(s: System, s': System)
    requires RunnerInv(s) && OneDeliveryPerWorker(s') && TerminalRowsFree(s') && s'.ttl == s.ttl
    requires forall i :: i in s'.live && s'.live[i].phase == Running ==> i in s.live && s.live[i] == s'.live[i]
    requires forall t :: t in s.rows ==> t in s'.rows && s'.rows[t] == s.rows[t]
    ensures RunnerInv(s')
  {
    forall i | i in s'.live && s'.live[i].phase == Running ensures OwnsLease(s', s'.live[i]) {
      assert OwnsLease(s, s.live[i]);
    }
  }

  lemma WorkerStepKeepsRunnerInv(s: System, step: Step)
    requires step.Deliver? || step.Inspect? || step.Escape? || step.ReleaseLock?
    requires RunnerInv(s) && OneDeliveryPerWorker(Apply(s, step))
    ensures RunnerInv(Apply(s, step))
  {
    hide OwnsLease, OneDeliveryPerWorker;
    LeasesUntouched(s, Apply(s, step));
  }

  lemma EnvironmentStepKeepsRunnerInv(s: System, step: Step)
    requires step.Create? || step.Pass? || step.Crash? || step.Abandon? || step.Evict?
    requires RunnerInv(s) && OneDeliveryPerWorker(Apply(s, step))
    ensures RunnerInv(Apply(s, step))
  {
    hide OwnsLease, OneDeliveryPerWorker;
    LeasesUntouched(s, Apply(s, step));
  }

  lemma DecideKeepsRunnerInv(s: System, task: string, d: Decision)
    requires RunnerInv(s) && !RunningTask(s, task)
    ensures RunnerInv(Apply(s, Decide(task, d)))
  {
    forall i | i in s.live && s.live[i].phase == Running ensures OwnsLease(s, s.live[i]) {}
  }

  const UNDISTURBED := NOTHING_ASSUMED.(oneDelivery := true, quietApi := true)

  /** With one delivery per worker and no decision mid-run, exactly a claim beside an overdue runner goes wrong. */
  lemma StepKeepsRunnerInv(s: System, step: Step)
    requires RunnerInv(s) && Permitted(UNDISTURBED, s, step)
    ensures MeetsRunner(s, step) <==> MeetsOverdueRunner(s, step)
    ensures !MeetsRunner(s, step) ==> RunnerInv(Apply(s, step))
  {
    if step.Claim? {
      if At(s, step.id, Inspected) {
        RunnersMeetOverdue(s, step.id);
        if !MeetsRunner(s, step) { ClaimKeepsRunnerInv(s, step.id); }
      }
    } else {
      NonClaimKeepsRunnerInv(s, step);
    }
  }

  lemma NonClaimKeepsRunnerInv(s: System, step: Step)
    requires RunnerInv(s) && Permitted(UNDISTURBED, s, step) && !step.Claim?
    ensures RunnerInv(Apply(s, step))
  {
    hide RunnerInv, Apply, OneDeliveryPerWorker;
    match step
    case Decide(t, d) => DecideKeepsRunnerInv(s, t, d);
    case Checkpoint(_, _) => RunnerStepKeepsRunnerInv(s, step);
    case Finalize(_, _) => RunnerStepKeepsRunnerInv(s, step);
    case ReleaseLease(_) => RunnerStepKeepsRunnerInv(s, step);
    case Deliver(_, _, _) => WorkerStepKeepsRunnerInv(s, step);
    case Inspect(_) => WorkerStepKeepsRunnerInv(s, step);
    case Escape(_) => WorkerStepKeepsRunnerInv(s, step);
    case ReleaseLock(_) => WorkerStepKeepsRunnerInv(s, step);
    case _ => EnvironmentStepKeepsRunnerInv(s, step);
  }

  ghost function RunnersWithLeases(): System -> bool {
    s => RunnerInv(s)
  }

  ghost function MeetingOverdueRunner(): (System, Step) -> bool {
    (s, step) => MeetsOverdueRunner(s, step)
  }

  lemma StepLeaseIff(s: System, step: Step)
    requires RunnerInv(s) && Permitted(UNDISTURBED, s, step)
    ensures AtMostOneRunner(Apply(s, step)) <==> !MeetsOverdueRunner(s, step)
    ensures AtMostOneRunner(Apply(s, step)) ==> RunnerInv(Apply(s, step))
  {
    RunnersExclude(s);
    hide RunnerInv, AtMostOneRunner, MeetsRunner, MeetsOverdueRunner, Apply;
    StepRunsIff(s, step);
    StepKeepsRunnerInv(s, step);
  }

  /** Over every run with one delivery per worker and no decision mid-run, whatever happens to lock entries: no two
      workflows of one task run together throughout if and only if no claim meets a runner past its lease. */
  lemma LeaseExact(ttl: int, steps: seq<Step>)
    requires Fair(UNDISTURBED, Initial(ttl), steps)
    ensures Throughout(OneRunner(), ttl, steps) <==> Never(MeetingOverdueRunner(), ttl, steps)
  {
    forall s, step | RunnerInv(s) && Permitted(UNDISTURBED, s, step)
      ensures AtMostOneRunner(Apply(s, step)) <==> !MeetsOverdueRunner(s, step)
      ensures AtMostOneRunner(Apply(s, step)) ==> RunnerInv(Apply(s, step))
    {
      StepLeaseIff(s, step);
    }
    forall s | RunnerInv(s) ensures AtMostOneRunner(s) { RunnersExclude(s); }
    assert RunnerInv(Initial(ttl));
    hide Apply, RunnerInv, AtMostOneRunner, MeetsOverdueRunner, Initial, Permitted;
    ExactOverRun(RunnersWithLeases(), OneRunner(), MeetingOverdueRunner(), UNDISTURBED, ttl, steps);
  }

  lemma StepKeepsLeaseInv(s: System, step: Step)
    requires LeaseInv(s) && Permitted(LEASE_ONLY, s, step)
    ensures LeaseInv(Apply(s, step))
  {
    assert Permitted(UNDISTURBED, s, step);
    StepKeepsRunnerInv(s, step);
    hide Apply, RunnerInv, MeetsRunner;
  }

  lemma {:induction false} RunKeepsLeaseInv(ttl: int, steps: seq<Step>)
    requires Fair(LEASE_ONLY, Initial(ttl), steps)
    ensures LeaseInv(After(Initial(ttl), steps))
  {
    if steps != [] {
      var n := |steps| - 1;
      RunKeepsLeaseInv(ttl, steps[..n]);
      StepKeepsLeaseInv(After(Initial(ttl), steps[..n]), steps[n]);
    }
  }

  /** In particular while executions finish inside their lease, even when lock entries vanish at arbitrary moments. */
  lemma LeaseExclusion(ttl: int, steps: seq<Step>)
    requires Fair(LEASE_ONLY, Initial(ttl), steps)
    ensures AtMostOneRunner(After(Initial(ttl), steps))
  {
    RunKeepsLeaseInv(ttl, steps);
    RunnersExclude(After(Initial(ttl), steps));
  }
}
