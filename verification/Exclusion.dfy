/** The fast lock excludes: at most one execution of a task is between acquire and release. */
module Exclusion {
  import opened Domain
  import opened Locks
  import opened Tasks
  import opened Ownership

  const LOCK_ONLY := Assumptions(true, false, false, false, true, false, false)

  ghost predicate AtMostOneHolder(s: System) {
    forall i, j | i in s.live && j in s.live && Holding(s.live[i]) && Holding(s.live[j]) ::
      s.live[i].task == s.live[j].task ==> i == j
  }

  /** Every holder still owns the very entry it created, expired or not. */
  ghost predicate HoldersOwnEntries(s: System) {
    forall i :: i in s.live && Holding(s.live[i]) ==>
      var e := s.live[i];
      LockName(e.task) in s.locks && s.locks[LockName(e.task)] == Entry(e.worker, e.acquiredAt + s.ttl)
  }

  ghost predicate EntriesInv(s: System) {
    AtMostOneHolder(s) && HoldersOwnEntries(s)
  }

  ghost predicate LockInv(s: System) {
    LocksOutliveHolders(s) && EntriesInv(s)
  }

  /** A step that adds no holder and leaves the entries of the remaining holders alone. */
  lemma NoNewHolder(s: System, s': System)
    requires EntriesInv(s) && s'.ttl == s.ttl
    requires forall i :: i in s'.live && Holding(s'.live[i]) ==>
      && i in s.live && Holding(s.live[i])
      && s'.live[i].worker == s.live[i].worker && s'.live[i].task == s.live[i].task
      && s'.live[i].acquiredAt == s.live[i].acquiredAt
      && LockName(s.live[i].task) in s'.locks
      && s'.locks[LockName(s.live[i].task)] == s.locks[LockName(s.live[i].task)]
    ensures EntriesInv(s')
  {
  }

  ghost predicate Overdue(s: System, i: nat, task: string) {
    && i in s.live && Holding(s.live[i]) && s.live[i].task == task
    && s.now >= s.live[i].acquiredAt + s.ttl
  }

  /** A live worker is handed a task whose lock has run out under a holder that is still there. */
  ghost predicate MeetsOverdueHolder(s: System, step: Step) {
    && step.Deliver? && step.id !in s.live && step.worker !in s.dead
    && exists i :: Overdue(s, i, step.task)
  }

  lemma DeliverExact(s: System, id: nat, w: string, t: string)
    requires EntriesInv(s)
    ensures var step := Deliver(id, w, t);
      && (AtMostOneHolder(Apply(s, step)) <==> !MeetsOverdueHolder(s, step))
      && (AtMostOneHolder(Apply(s, step)) ==> EntriesInv(Apply(s, step)))
  {
    var s' := Apply(s, Deliver(id, w, t));
    forall i | i in s.live && LockName(s.live[i].task) == LockName(t) ensures s.live[i].task == t {
      LockNameInjective(s.live[i].task, t);
    }
    if i :| id !in s.live && w !in s.dead && Overdue(s, i, t) {
      assert Holding(s'.live[i]) && Holding(s'.live[id]) && s'.live[i].task == s'.live[id].task;
    } else if s' != s {
      NoHolderOf(s, t);
    }
  }

  /** A lock that looks free has no holder, unless that one is overdue. */
  lemma NoHolderOf(s: System, t: string)
    requires EntriesInv(s) && !Live(s.locks, LockName(t), s.now) && forall i :: !Overdue(s, i, t)
    ensures forall i :: i in s.live && Holding(s.live[i]) ==> s.live[i].task != t
  {
    forall i | i in s.live && Holding(s.live[i]) ensures s.live[i].task != t {
      assert !Overdue(s, i, t);
    }
  }

  lemma ReleaseKeepsEntries(s: System, id: nat)
    requires EntriesInv(s) && At(s, id, Finishing)
    ensures EntriesInv(Apply(s, ReleaseLock(id)))
  {
    forall i | i in s.live && LockName(s.live[i].task) == LockName(s.live[id].task)
      ensures s.live[i].task == s.live[id].task
    {
      LockNameInjective(s.live[i].task, s.live[id].task);
    }
    NoNewHolder(s, Apply(s, ReleaseLock(id)));
  }

  predicate SameHold(e: Execution, e': Execution) {
    && e.worker == e'.worker && e.task == e'.task && e.acquiredAt == e'.acquiredAt
    && (Holding(e') ==> Holding(e))
  }

  /** Inside the `try` body nothing touches the lock table, the clock or who is executing what. */
  lemma BodyStepShape(s: System, step: Step)
    requires step.Inspect? || step.Claim? || step.Checkpoint? || step.Finalize? || step.Escape?
    ensures var s' := Apply(s, step);
      && s'.locks == s.locks && s'.ttl == s.ttl && s'.now == s.now && s'.live.Keys == s.live.Keys
      && forall i :: i in s.live ==> SameHold(s.live[i], s'.live[i])
  {
  }

  lemma BodyStepKeepsEntries(s: System, step: Step)
    requires step.Inspect? || step.Claim? || step.Checkpoint? || step.Finalize? || step.Escape?
    requires EntriesInv(s)
    ensures EntriesInv(Apply(s, step))
  {
    BodyStepShape(s, step);
    hide Apply;
    NoNewHolder(s, Apply(s, step));
  }

  lemma OtherStepKeepsEntries(s: System, step: Step)
    requires step.Create? || step.Pass? || step.ReleaseLease? || step.Crash? || step.Abandon? || step.Decide?
    requires EntriesInv(s)
    ensures EntriesInv(Apply(s, step))
  {
    NoNewHolder(s, Apply(s, step));
  }

  /** While lock entries do not vanish, exactly one kind of step lets a second holder in. */
  lemma StepExcludesIff(s: System, step: Step)
    requires EntriesInv(s) && !step.Evict?
    ensures AtMostOneHolder(Apply(s, step)) <==> !MeetsOverdueHolder(s, step)
    ensures AtMostOneHolder(Apply(s, step)) ==> EntriesInv(Apply(s, step))
  {
    hide HoldersOwnEntries, AtMostOneHolder;
    match step
    case Deliver(id, w, t) => DeliverExact(s, id, w, t);
    case ReleaseLock(id) => if At(s, id, Finishing) { ReleaseKeepsEntries(s, id); }
    case Inspect(_) => BodyStepKeepsEntries(s, step);
    case Claim(_) => BodyStepKeepsEntries(s, step);
    case Checkpoint(_, _) => BodyStepKeepsEntries(s, step);
    case Finalize(_, _) => BodyStepKeepsEntries(s, step);
    case Escape(_) => BodyStepKeepsEntries(s, step);
    case _ => OtherStepKeepsEntries(s, step);
  }

  ghost function OneHolder(): System -> bool {
    s => AtMostOneHolder(s)
  }

  ghost function HoldersWithEntries(): System -> bool {
    s => EntriesInv(s)
  }

  ghost function MeetingOverdueHolder(): (System, Step) -> bool {
    (s, step) => MeetsOverdueHolder(s, step)
  }

  const STABLE_LOCKS := NOTHING_ASSUMED.(stableLocks := true)

  /** Over every run in which no lock entry vanishes: at most one execution of a task is between acquire and
      release throughout if and only if no live worker is handed a task under an overdue holder. */
  lemma ExclusionExact(ttl: int, steps: seq<Step>)
    requires Fair(STABLE_LOCKS, Initial(ttl), steps)
    ensures Throughout(OneHolder(), ttl, steps) <==> Never(MeetingOverdueHolder(), ttl, steps)
  {
    forall s, step | EntriesInv(s) && Permitted(STABLE_LOCKS, s, step)
      ensures AtMostOneHolder(Apply(s, step)) <==> !MeetsOverdueHolder(s, step)
      ensures AtMostOneHolder(Apply(s, step)) ==> EntriesInv(Apply(s, step))
    {
      StepExcludesIff(s, step);
    }
    assert EntriesInv(Initial(ttl));
    assert forall s :: EntriesInv(s) ==> AtMostOneHolder(s);
    hide Apply, EntriesInv, AtMostOneHolder, MeetsOverdueHolder, Initial, Permitted;
    ExactOverRun(HoldersWithEntries(), OneHolder(), MeetingOverdueHolder(), STABLE_LOCKS, ttl, steps);
  }

  /** A delivery is accepted while the task still has a holder. */
  ghost predicate MeetsHolder(s: System, step: Step) {
    && step.Deliver? && step.id !in s.live && step.worker !in s.dead && !Live(s.locks, LockName(step.task), s.now)
    && exists i :: HoldsTask(s, i, step.task)
  }

  ghost predicate HoldsTask(s: System, i: nat, task: string) {
    i in s.live && Holding(s.live[i]) && s.live[i].task == task
  }

  lemma StepHoldsIff(s: System, step: Step)
    requires AtMostOneHolder(s)
    ensures AtMostOneHolder(Apply(s, step)) <==> !MeetsHolder(s, step)
  {
    var s' := Apply(s, step);
    if step.Deliver? {
      if i :| MeetsHolder(s, step) && HoldsTask(s, i, step.task) {
        assert Holding(s'.live[i]) && Holding(s'.live[step.id]) && s'.live[i].task == s'.live[step.id].task;
      } else if s' != s {
        assert forall i :: i in s.live && Holding(s.live[i]) ==> HoldsTask(s, i, s.live[i].task);
      }
    } else {
      NobodyElseHolds(s, step);
    }
  }

  lemma NobodyElseHolds(s: System, step: Step)
    requires AtMostOneHolder(s) && !step.Deliver?
    ensures AtMostOneHolder(Apply(s, step))
  {
    OnlyOldHolders(s, step);
    hide Apply;
  }

  lemma OnlyOldHolders(s: System, step: Step)
    requires !step.Deliver?
    ensures var s' := Apply(s, step);
      forall i :: i in s'.live ==> i in s.live && SameHold(s.live[i], s'.live[i])
  {
    hide AtMostOneHolder;
  }

  ghost function MeetingHolder(): (System, Step) -> bool {
    (s, step) => MeetsHolder(s, step)
  }

  /** Over every run, with no assumption at all: at most one execution of a task is between acquire and release
      throughout if and only if no delivery is accepted while one is - its entry expired or gone. */
  lemma HoldersExact(ttl: int, steps: seq<Step>)
    ensures Throughout(OneHolder(), ttl, steps) <==> Never(MeetingHolder(), ttl, steps)
  {
    AnythingIsFair(Initial(ttl), steps);
    forall s, step | AtMostOneHolder(s) ensures AtMostOneHolder(Apply(s, step)) <==> !MeetsHolder(s, step) {
      StepHoldsIff(s, step);
    }
    assert AtMostOneHolder(Initial(ttl));
    hide Apply, AtMostOneHolder, MeetsHolder, Initial;
    ExactOverRun(OneHolder(), OneHolder(), MeetingHolder(), NOTHING_ASSUMED, ttl, steps);
  }

  lemma StepKeepsLockInv(s: System, step: Step)
    requires LockInv(s) && Permitted(LOCK_ONLY, s, step)
    ensures LockInv(Apply(s, step))
  {
    StepExcludesIff(s, step);
    hide Apply, EntriesInv, AtMostOneHolder, HoldersOwnEntries;
  }

  lemma {:induction false} RunKeepsLockInv(ttl: int, steps: seq<Step>)
    requires Fair(LOCK_ONLY, Initial(ttl), steps)
    ensures LockInv(After(Initial(ttl), steps))
  {
    if steps != [] {
      var n := |steps| - 1;
      RunKeepsLockInv(ttl, steps[..n]);
      StepKeepsLockInv(After(Initial(ttl), steps[..n]), steps[n]);
    }
  }

  /** In particular over every interleaving in which no live execution outlives its lock. */
  lemma MutualExclusion(ttl: int, steps: seq<Step>)
    requires Fair(LOCK_ONLY, Initial(ttl), steps)
    ensures AtMostOneHolder(After(Initial(ttl), steps))
  {
    RunKeepsLockInv(ttl, steps);
  }
}
