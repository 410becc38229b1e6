/** Sweep completeness: no crash can leave an unfinished task where neither sweep query sees it. */
module Recovery {
  import opened Domain
  import opened Locks
  import opened Tasks
  import opened Ownership
  import Lease

  /** Crashes, duplicate deliveries, exceptions and vanishing locks; `strict` excludes those inside `finally`. */
  function Crashes(strict: bool): Assumptions {
    Assumptions(false, true, true, true, false, true, strict)
  }

  /** Every other task is queued and free, or leased - so one of the two queries can report it. */
  ghost predicate EveryTaskCovered(s: System) {
    forall t :: t in s.rows ==> Parked(s.rows[t]) || Unclaimed(s.rows[t]) || s.rows[t].lockedBy.Some?
  }

  ghost predicate LeaseColumnsPaired(s: System) {
    forall t :: t in s.rows ==> (s.rows[t].lockedBy.Some? <==> s.rows[t].leaseExpires.Some?)
  }

  ghost predicate Claimant(s: System, i: nat, t: string, w: string) {
    i in s.live && s.live[i].worker == w && s.live[i].task == t && s.live[i].claimedAt.Some?
  }

  /** A lease names a dead worker or a live execution that claimed it; once `finally` may raise, it can also
      be left behind on a row that is safe to free. */
  ghost predicate LeasesHaveHolders(s: System, strict: bool) {
    forall t :: t in s.rows && s.rows[t].lockedBy.Some? ==>
      || (!strict && SafeToFree(s.rows[t]))
      || s.rows[t].lockedBy.value in s.dead || exists i :: Claimant(s, i, t, s.rows[t].lockedBy.value)
  }

  ghost predicate ExecutionsWellFormed(s: System) {
    forall i :: i in s.live ==>
      && s.live[i].worker !in s.dead
      && (s.live[i].phase in {Locked, Inspected} ==> s.live[i].claimedAt.None?)
  }

  /** Once a workflow is over, the lease it still holds is on a row that is safe to free. */
  ghost predicate FinishedLeasesSafe(s: System) {
    forall i :: i in s.live && s.live[i].claimedAt.Some? && s.live[i].phase != Running ==>
      var t := s.live[i].task;
      t in s.rows && s.rows[t].lockedBy == Some(s.live[i].worker) ==> SafeToFree(s.rows[t])
  }

  ghost predicate EntriesBounded(s: System) {
    forall n :: n in s.locks ==> s.locks[n].expires <= s.now + s.ttl
  }

  /** A lock left by the lease holder dies no later than the lease. */
  ghost predicate LocksDieFirst(s: System) {
    forall t :: t in s.rows && s.rows[t].lockedBy.Some? && LockName(t) in s.locks ==>
      s.locks[LockName(t)].owner == s.rows[t].lockedBy.value ==>
        s.rows[t].leaseExpires.Some? && s.locks[LockName(t)].expires <= s.rows[t].leaseExpires.value
  }

  ghost predicate RecordsInv(s: System, strict: bool) {
    && EveryTaskCovered(s) && LeaseColumnsPaired(s) && LeasesHaveHolders(s, strict) && ExecutionsWellFormed(s)
    && FinishedLeasesSafe(s) && EntriesBounded(s) && (strict ==> LocksDieFirst(s))
  }

  ghost predicate SweepInv(s: System, strict: bool) {
    Lease.LeaseInv(s) && RecordsInv(s, strict)
  }

  ghost predicate HolderKept(s: System, s': System, strict: bool, t: string, w: string) {
    && t in s.rows && s.rows[t].lockedBy == Some(w) && s.dead <= s'.dead
    && (!strict && SafeToFree(s.rows[t]) ==> t in s'.rows && SafeToFree(s'.rows[t]))
    && (forall i :: Claimant(s, i, t, w) ==> Claimant(s', i, t, w) || w in s'.dead)
  }

  lemma HoldersKept(s: System, s': System, strict: bool)
    requires LeasesHaveHolders(s, strict)
    requires forall t :: t in s'.rows && s'.rows[t].lockedBy.Some? ==>
      || (!strict && SafeToFree(s'.rows[t]))
      || HolderKept(s, s', strict, t, s'.rows[t].lockedBy.value)
      || exists i :: Claimant(s', i, t, s'.rows[t].lockedBy.value)
    ensures LeasesHaveHolders(s', strict)
  {
    forall t | && t in s'.rows && s'.rows[t].lockedBy.Some? && s'.rows[t].lockedBy.value !in s'.dead
               && (strict || !SafeToFree(s'.rows[t]))
      ensures exists i :: Claimant(s', i, t, s'.rows[t].lockedBy.value)
    {
      var w := s'.rows[t].lockedBy.value;
      if HolderKept(s, s', strict, t, w) {
        var i :| Claimant(s, i, t, w);
        assert Claimant(s', i, t, w);
      }
    }
  }

  lemma CreateKeeps(strict: bool, s: System, t: string)
    requires SweepInv(s, strict)
    ensures RecordsInv(Apply(s, Create(t)), strict)
  {
    HoldersKept(s, Apply(s, Create(t)), strict);
  }

  lemma PassKeeps(strict: bool, s: System, n: nat)
    requires SweepInv(s, strict)
    ensures RecordsInv(Apply(s, Pass(n)), strict)
  {
    HoldersKept(s, Apply(s, Pass(n)), strict);
  }

  lemma EvictKeeps(strict: bool, s: System, name: string)
    requires SweepInv(s, strict)
    ensures RecordsInv(Apply(s, Evict(name)), strict)
  {
    HoldersKept(s, Apply(s, Evict(name)), strict);
  }

  lemma CrashKeeps(strict: bool, s: System, w: string)
    requires SweepInv(s, strict)
    ensures RecordsInv(Apply(s, Crash(w)), strict)
  {
    HoldersKept(s, Apply(s, Crash(w)), strict);
  }

  /** A live worker that still holds the lease cannot be handed the task again. */
  lemma LeaseHolderIsBusy(s: System, id: nat, w: string, t: string)
    requires SweepInv(s, true) && t in s.rows && Apply(s, Deliver(id, w, t)) != s
    requires OneDeliveryPerWorker(Apply(s, Deliver(id, w, t)))
    ensures s.rows[t].lockedBy != Some(w)
  {
    var s' := Apply(s, Deliver(id, w, t));
    assert id in s'.live && s'.live[id].worker == w && s'.live[id].task == t;
    assert forall i :: Claimant(s, i, t, w) ==> Claimant(s', i, t, w);
  }

  lemma DeliverKeeps(strict: bool, s: System, id: nat, w: string, t: string)
    requires SweepInv(s, strict) && OneDeliveryPerWorker(Apply(s, Deliver(id, w, t)))
    ensures RecordsInv(Apply(s, Deliver(id, w, t)), strict)
  {
    var s' := Apply(s, Deliver(id, w, t));
    if s' != s {
      HoldersKept(s, s', strict);
      forall u | u in s.rows && LockName(u) == LockName(t) ensures u == t { LockNameInjective(u, t); }
      if strict && t in s.rows { LeaseHolderIsBusy(s, id, w, t); }
    }
  }

  predicate SameClaim(e: Execution, e': Execution) {
    && e.worker == e'.worker && e.task == e'.task && e.claimedAt == e'.claimedAt
    && (e.phase == Running <==> e'.phase == Running)
    && (e'.phase == Locked || e'.phase == Inspected ==> e.phase == Locked || e.phase == Inspected)
  }

  /** Phase changes outside the workflow, and lock releases, leave every record invariant alone. */
  lemma RowsUntouched(strict: bool, s: System, s': System)
    requires RecordsInv(s, strict) && s' == s.(locks := s'.locks, live := s'.live)
    requires s'.live.Keys == s.live.Keys && forall i :: i in s.live ==> SameClaim(s.live[i], s'.live[i])
    requires forall n :: n in s'.locks ==> n in s.locks && s'.locks[n] == s.locks[n]
    ensures RecordsInv(s', strict)
  {
    HoldersKept(s, s', strict);
  }

  lemma InspectKeeps(strict: bool, s: System, id: nat)
    requires SweepInv(s, strict)
    ensures RecordsInv(Apply(s, Inspect(id)), strict)
  {
    hide RecordsInv, Lease.LeaseInv;
    RowsUntouched(strict, s, Apply(s, Inspect(id)));
  }

  lemma EscapeKeeps(strict: bool, s: System, id: nat)
    requires SweepInv(s, strict) && !At(s, id, Running)
    ensures RecordsInv(Apply(s, Escape(id)), strict)
  {
    assert ExecutionsWellFormed(s);
    hide RecordsInv, Lease.LeaseInv;
    RowsUntouched(strict, s, Apply(s, Escape(id)));
  }

  /** An exception may leave a running workflow whose row is safe to free. */
  lemma CleanExitKeeps(strict: bool, s: System, id: nat)
    requires SweepInv(s, strict) && At(s, id, Running) && !DirtyExit(s, Escape(id))
    ensures RecordsInv(Apply(s, Escape(id)), strict)
  {
    hide Lease.LeaseInv;
    var s' := Apply(s, Escape(id));
    assert s' == s.(live := s'.live) && forall i :: i in s.live && i != id ==> s'.live[i] == s.live[i];
    assert forall i, t, w :: Claimant(s, i, t, w) ==> Claimant(s', i, t, w);
    hide Apply;
    HoldersKept(s, s', strict);
  }

  /** When `finally` raises, the lease stays behind, on a row that is safe to free. */
  lemma AbandonKeeps(s: System, id: nat)
    requires SweepInv(s, false)
    ensures RecordsInv(Apply(s, Abandon(id)), false)
  {
    var s' := Apply(s, Abandon(id));
    forall t | t in s'.rows && s'.rows[t].lockedBy.Some? && !SafeToFree(s'.rows[t])
      ensures HolderKept(s, s', false, t, s'.rows[t].lockedBy.value)
    {
      var w := s'.rows[t].lockedBy.value;
      assert forall i :: Claimant(s, i, t, w) && i in s'.live ==> Claimant(s', i, t, w);
    }
    HoldersKept(s, s', false);
  }

  lemma ReleaseLockKeeps(strict: bool, s: System, id: nat)
    requires SweepInv(s, strict)
    ensures RecordsInv(Apply(s, ReleaseLock(id)), strict)
  {
    hide RecordsInv, Lease.LeaseInv;
    RowsUntouched(strict, s, Apply(s, ReleaseLock(id)));
  }

  lemma ClaimKeeps(strict: bool, s: System, id: nat)
    requires SweepInv(s, strict) && At(s, id, Inspected)
    ensures RecordsInv(Apply(s, Claim(id)), strict)
  {
    var s' := Apply(s, Claim(id));
    var e := s.live[id];
    if e.task in s.rows && CanClaim(s.rows[e.task], s.now) {
      assert Claimant(s', id, e.task, e.worker);
    }
    HoldersKept(s, s', strict);
  }

  lemma CheckpointKeeps(strict: bool, s: System, id: nat, node: Node)
    requires SweepInv(s, strict) && At(s, id, Running)
    ensures RecordsInv(Apply(s, Checkpoint(id, node)), strict)
  {
    assert Lease.OwnsLease(s, s.live[id]);
    var s' := Apply(s, Checkpoint(id, node));
    assert Claimant(s', id, s.live[id].task, s.live[id].worker);
    HoldersKept(s, s', strict);
  }

  lemma FinalizeKeeps(strict: bool, s: System, id: nat, outcome: TaskStatus)
    requires SweepInv(s, strict) && At(s, id, Running)
    ensures RecordsInv(Apply(s, Finalize(id, outcome)), strict)
  {
    assert Lease.OwnsLease(s, s.live[id]);
    var s' := Apply(s, Finalize(id, outcome));
    if s' != s {
      assert Parked(s'.rows[s.live[id].task]);
      HoldersKept(s, s', strict);
    }
  }

  /** The lease an execution releases in `finally` is its own, and its row is safe to free. */
  lemma ReleaseLeaseKeeps(strict: bool, s: System, id: nat)
    requires SweepInv(s, strict) && At(s, id, Unlocked)
    ensures RecordsInv(Apply(s, ReleaseLease(id)), strict)
  {
    var e := s.live[id];
    if e.task in s.rows && s.rows[e.task].lockedBy == Some(e.worker) {
      if i :| Claimant(s, i, e.task, e.worker) { assert i == id; }
      assert SafeToFree(s.rows[e.task]);
    }
    HoldersKept(s, Apply(s, ReleaseLease(id)), strict);
  }

  lemma DecideKeeps(strict: bool, s: System, t: string, d: Decision)
    requires SweepInv(s, strict)
    ensures RecordsInv(Apply(s, Decide(t, d)), strict)
  {
    var s' := Apply(s, Decide(t, d));
    if s' != s {
      assert s'.rows[t].lockedBy.None? && Parked(s'.rows[t]);
      HoldersKept(s, s', strict);
    }
  }

  lemma StepKeepsSweepInv(strict: bool, s: System, step: Step)
    requires SweepInv(s, strict) && Permitted(Crashes(strict), s, step)
    ensures SweepInv(Apply(s, step), strict)
  {
    Lease.StepKeepsLeaseInv(s, step);
    match step
    case Create(t) => CreateKeeps(strict, s, t);
    case Pass(n) => PassKeeps(strict, s, n);
    case Deliver(id, w, t) => DeliverKeeps(strict, s, id, w, t);
    case Inspect(id) => InspectKeeps(strict, s, id);
    case Claim(id) => if At(s, id, Inspected) { ClaimKeeps(strict, s, id); }
    case Checkpoint(id, node) => if At(s, id, Running) { CheckpointKeeps(strict, s, id, node); }
    case Finalize(id, outcome) => if At(s, id, Running) { FinalizeKeeps(strict, s, id, outcome); }
    case Escape(id) => if At(s, id, Running) { CleanExitKeeps(strict, s, id); } else { EscapeKeeps(strict, s, id); }
    case ReleaseLock(id) => ReleaseLockKeeps(strict, s, id);
    case ReleaseLease(id) => if At(s, id, Unlocked) { ReleaseLeaseKeeps(strict, s, id); }
    case Crash(w) => CrashKeeps(strict, s, w);
    case Abandon(id) => AbandonKeeps(s, id);
    case Decide(t, d) => DecideKeeps(strict, s, t, d);
    case Evict(name) => EvictKeeps(strict, s, name);
  }

  lemma {:induction false} RunKeepsSweepInv(strict: bool, ttl: int, steps: seq<Step>)
    requires Fair(Crashes(strict), Initial(ttl), steps)
    ensures SweepInv(After(Initial(ttl), steps), strict)
  {
    if steps != [] {
      var n := |steps| - 1;
      RunKeepsSweepInv(strict, ttl, steps[..n]);
      StepKeepsSweepInv(strict, After(Initial(ttl), steps[..n]), steps[n]);
    }
  }

  /** Whatever crashes, every task that is not parked stays visible to the sweep. */
  lemma SweepComplete(ttl: int, steps: seq<Step>)
    requires Fair(Crashes(false), Initial(ttl), steps)
    ensures EveryTaskCovered(After(Initial(ttl), steps))
  {
    RunKeepsSweepInv(false, ttl, steps);
  }

  ghost predicate Idle(s: System, t: string) {
    forall i :: i in s.live ==> s.live[i].task != t
  }

  /** One fresh delivery, up to the start of its workflow. */
  function Takeover(s: System, id: nat, w: string, t: string): System {
    Apply(Apply(Apply(s, Deliver(id, w, t)), Inspect(id)), Claim(id))
  }

  /** A lock entry that a worker other than the lease holder left behind, and that has not expired. */
  ghost predicate BlockedByThirdWorker(s: System, t: string) {
    && t in s.rows && s.rows[t].lockedBy.Some? && Live(s.locks, LockName(t), s.now)
    && s.locks[LockName(t)].owner != s.rows[t].lockedBy.value
  }

  /** Once a task is reported recoverable its dead holder's lock is gone, so a fresh delivery starts the
      workflow unless a third worker took the lock after that and died before it expired. */
  lemma RecoverableIsRecovered(ttl: int, steps: seq<Step>, t: string, id: nat, w: string)
    requires Fair(Crashes(true), Initial(ttl), steps)
    requires var s := After(Initial(ttl), steps);
      t in s.rows && Recoverable(s.rows[t], s.now) && Idle(s, t) && id !in s.live && w !in s.dead
    ensures var s := After(Initial(ttl), steps);
      At(Takeover(s, id, w, t), id, Running) <==> !BlockedByThirdWorker(s, t)
  {
    hide After, Fair;
    RunKeepsSweepInv(true, ttl, steps);
    assert LocksDieFirst(After(Initial(ttl), steps));
    hide SweepInv;
  }

  lemma FreeTaskStarts(s: System, id: nat, w: string, t: string)
    requires t in s.rows && CanClaim(s.rows[t], s.now) && !Live(s.locks, LockName(t), s.now)
    requires id !in s.live && w !in s.dead
    ensures At(Takeover(s, id, w, t), id, Running)
  {
  }

  /** In every run, with no assumption: no entry outlives the present by more than a TTL, no lease does, and the
      lease columns are set and cleared together. */
  ghost predicate TimesBounded(s: System) {
    && LeaseColumnsPaired(s) && EntriesBounded(s)
    && forall t :: t in s.rows && s.rows[t].leaseExpires.Some? ==> s.rows[t].leaseExpires.value <= s.now + s.ttl
  }

  lemma StepKeepsTimesBounded(s: System, step: Step)
    requires TimesBounded(s)
    ensures TimesBounded(Apply(s, step))
  {
  }

  lemma {:induction false} RunKeepsTimesBounded(ttl: int, steps: seq<Step>)
    ensures TimesBounded(After(Initial(ttl), steps))
  {
    if steps != [] {
      var n := |steps| - 1;
      RunKeepsTimesBounded(ttl, steps[..n]);
      StepKeepsTimesBounded(After(Initial(ttl), steps[..n]), steps[n]);
    }
  }

  /** Over every run, with no assumption: waiting one TTL clears any lock entry, so every task that is due can then
      be taken over. */
  lemma DueTaskIsTakenOver(ttl: nat, steps: seq<Step>, t: string, id: nat, w: string)
    requires var s := After(Initial(ttl), steps);
      && t in s.rows && (Unclaimed(s.rows[t]) || Recoverable(s.rows[t], s.now))
      && id !in s.live && w !in s.dead
    ensures var s := After(Initial(ttl), steps);
      At(Takeover(Apply(s, Pass(ttl)), id, w, t), id, Running)
  {
    hide After, Takeover;
    RunKeepsTimesBounded(ttl, steps);
    TtlConstant(Initial(ttl), steps);
    FreeTaskStarts(Apply(After(Initial(ttl), steps), Pass(ttl)), id, w, t);
  }

  lemma TtlOfStep(s: System, step: Step)
    ensures Apply(s, step).ttl == s.ttl
  {
  }

  lemma {:induction false} TtlConstant(s: System, steps: seq<Step>)
    ensures After(s, steps).ttl == s.ttl
  {
    hide Apply;
    if steps != [] {
      TtlConstant(s, steps[..|steps| - 1]);
      TtlOfStep(After(s, steps[..|steps| - 1]), steps[|steps| - 1]);
    }
  }
}
