/** When exactly a task drops out of sight of the sweep, and what the sweep then does for all others. */
module Coverage {
  import opened Domain
  import opened Locks
  import opened Tasks
  import opened Ownership
  import opened Recovery
  import Lease

  /** The two steps that can take a task out of sight: `finally` frees a row that is neither queued nor
      parked, or a checkpoint reopens a row whose lease a decision has ended. */
  predicate Orphans(s: System, step: Step) {
    match step
    case ReleaseLease(id) =>
      && At(s, id, Unlocked)
      && var e := s.live[id];
         e.task in s.rows && s.rows[e.task].lockedBy == Some(e.worker) && !SafeToFree(s.rows[e.task])
    case Checkpoint(id, node) =>
      && At(s, id, Running)
      && var t := s.live[id].task;
         t in s.rows && s.rows[t].lockedBy.None? && !Parked(WithStatus(s.rows[t], NodeStatus(node)))
    case _ => false
  }

  lemma ReleaseCoversIff(s: System, id: nat)
    requires EveryTaskCovered(s) && At(s, id, Unlocked)
    ensures EveryTaskCovered(Apply(s, ReleaseLease(id))) <==> !Orphans(s, ReleaseLease(id))
  {
    var s', t := Apply(s, ReleaseLease(id)), s.live[id].task;
    if Orphans(s, ReleaseLease(id)) {
      assert t in s'.rows && !Unclaimed(s'.rows[t]);
    }
  }

  lemma CheckpointCoversIff(s: System, id: nat, node: Node)
    requires EveryTaskCovered(s) && At(s, id, Running)
    ensures EveryTaskCovered(Apply(s, Checkpoint(id, node))) <==> !Orphans(s, Checkpoint(id, node))
  {
    var s', t := Apply(s, Checkpoint(id, node)), s.live[id].task;
    if Orphans(s, Checkpoint(id, node)) {
      assert t in s'.rows && !Unclaimed(s'.rows[t]);
    }
  }

  lemma OthersCover(s: System, step: Step)
    requires EveryTaskCovered(s) && !step.ReleaseLease? && !step.Checkpoint?
    ensures EveryTaskCovered(Apply(s, step))
  {
  }

  /** From a state in which every task is in sight, exactly these steps lose one. */
  lemma StepCoversIff(s: System, step: Step)
    requires EveryTaskCovered(s)
    ensures EveryTaskCovered(Apply(s, step)) <==> !Orphans(s, step)
  {
    match step
    case ReleaseLease(id) => if At(s, id, Unlocked) { ReleaseCoversIff(s, id); }
    case Checkpoint(id, node) => if At(s, id, Running) { CheckpointCoversIff(s, id, node); }
    case _ => OthersCover(s, step);
  }

  ghost function Covered(): System -> bool {
    s => EveryTaskCovered(s)
  }

  ghost function Orphaning(): (System, Step) -> bool {
    (s, step) => Orphans(s, step)
  }

  /** Over every run, with no assumption at all: the sweep keeps every task in sight throughout if and only if
      no step is one of the two that lose one. */
  lemma CoverageExact(ttl: int, steps: seq<Step>)
    ensures Throughout(Covered(), ttl, steps) <==> Never(Orphaning(), ttl, steps)
  {
    AnythingIsFair(Initial(ttl), steps);
    forall s, step | EveryTaskCovered(s) ensures EveryTaskCovered(Apply(s, step)) <==> !Orphans(s, step) {
      StepCoversIff(s, step);
    }
    assert EveryTaskCovered(Initial(ttl));
    hide Apply, EveryTaskCovered, Orphans, Initial;
    ExactOverRun(Covered(), Covered(), Orphaning(), NOTHING_ASSUMED, ttl, steps);
  }

  /** `finally` after an exception in a running workflow. */
  function Unwound(s: System, id: nat): System {
    Apply(Apply(Apply(s, Escape(id)), ReleaseLock(id)), ReleaseLease(id))
  }

  lemma UnwoundRows(s: System, id: nat)
    requires At(s, id, Running) && s.live[id].task in s.rows
    ensures var e := s.live[id]; Unwound(s, id).rows == s.rows[e.task := ReleasedBy(s.rows[e.task], e.worker)]
  {
  }

  /** An exception that escapes a running workflow loses the task if and only if its row is neither queued
      nor parked: a row that nobody has checkpointed yet, or that awaits review, is handed back whole. */
  lemma EscapeOrphansIff(ttl: int, steps: seq<Step>, id: nat)
    requires Fair(Crashes(false), Initial(ttl), steps) && At(After(Initial(ttl), steps), id, Running)
    ensures var s := After(Initial(ttl), steps);
      && s.live[id].task in s.rows
      && (EveryTaskCovered(Unwound(s, id)) <==> SafeToFree(s.rows[s.live[id].task]))
  {
    hide After, Fair;
    var s := After(Initial(ttl), steps);
    RunKeepsSweepInv(false, ttl, steps);
    assert EveryTaskCovered(s) && Lease.OwnsLease(s, s.live[id]);
    hide SweepInv;
    UnwoundRows(s, id);
    var s', t := Unwound(s, id), s.live[id].task;
    hide Unwound;
    assert s'.rows[t] == Row(s.rows[t].status, None, None);
  }

  // All pieces together

  ghost predicate WithinLimits(rows: map<string, Row>, now: int) {
    && |set id | id in rows && Unclaimed(rows[id])| <= SWEEP_LIMIT
    && |set id | id in rows && Recoverable(rows[id], now)| <= SWEEP_LIMIT
  }

  ghost predicate Resumes(s: System, order: seq<string>, scan: seq<string>, t: string, id: nat, w: string) {
    t in SweepBatch(order, scan, s.rows, s.now) && At(Takeover(s, id, w, t), id, Running)
  }

  /** In sight of the sweep: queued and free, or leased. */
  predicate InSight(row: Row) {
    Unclaimed(row) || row.lockedBy.Some?
  }

  lemma AfterWaiting(s: System, t: string)
    requires TimesBounded(s) && t in s.rows && !Parked(s.rows[t])
    ensures var now := s.now + s.ttl + 1;
      && (Unclaimed(s.rows[t]) || Recoverable(s.rows[t], now) <==> InSight(s.rows[t]))
      && CanClaim(s.rows[t], now) && !Live(s.locks, LockName(t), now)
  {
  }

  lemma ResumesFrom(s: System, s': System, order: seq<string>, scan: seq<string>, t: string, id: nat, w: string)
    requires TimesBounded(s) && s' == s.(now := s.now + s.ttl + 1) && WithinLimits(s.rows, s'.now)
    requires t in s.rows && !Parked(s.rows[t]) && id !in s.live && w !in s.dead
    requires Arranges(order, s.rows) && Arranges(scan, s.rows)
    ensures At(Takeover(s', id, w, t), id, Running)
    ensures Resumes(s', order, scan, t, id, w) <==> InSight(s.rows[t])
  {
    hide SweepBatch, Takeover, Arranges, CanClaim, Live, TimesBounded, InSight;
    AfterWaiting(s, t);
    SweepBatchExact(order, scan, s'.rows, s'.now);
    if t in SweepBatch(order, scan, s'.rows, s'.now) { SweepBatchSound(order, scan, s'.rows, s'.now, t); }
    FreeTaskStarts(s', id, w, t);
  }

  lemma OnlyTimePasses(s: System, n: nat)
    ensures Apply(s, Pass(n)) == s.(now := s.now + n)
  {
  }

  /** Over every run, with no assumption: once every lease has had time to run out, a task that is not parked
      starts at the first live worker that receives it, and the next sweep (within its limits) sees to that if
      and only if the task is queued and free, or leased. */
  lemma ResumesIff(ttl: nat, steps: seq<Step>, order: seq<string>, scan: seq<string>, t: string, id: nat, w: string)
    requires var s := After(Initial(ttl), steps);
      && t in s.rows && !Parked(s.rows[t]) && id !in s.live && w !in s.dead
      && Arranges(order, s.rows) && Arranges(scan, s.rows) && WithinLimits(s.rows, s.now + ttl + 1)
    ensures var s := After(Initial(ttl), steps); var s' := Apply(s, Pass(ttl + 1));
      && At(Takeover(s', id, w, t), id, Running)
      && (Resumes(s', order, scan, t, id, w) <==> InSight(s.rows[t]))
  {
    hide After, Apply, TimesBounded, Resumes, WithinLimits, Arranges, Parked, InSight, Takeover;
    var s := After(Initial(ttl), steps);
    RunKeepsTimesBounded(ttl, steps);
    TtlConstant(Initial(ttl), steps);
    OnlyTimePasses(s, ttl + 1);
    ResumesFrom(s, Apply(s, Pass(ttl + 1)), order, scan, t, id, w);
  }

  /** So in every run without an orphaning step each task that is not parked resumes. */
  lemma EveryTaskResumes(ttl: nat, steps: seq<Step>, order: seq<string>, scan: seq<string>,
                         t: string, id: nat, w: string)
    requires Never(Orphaning(), ttl, steps)
    requires var s := After(Initial(ttl), steps);
      && t in s.rows && !Parked(s.rows[t]) && id !in s.live && w !in s.dead
      && Arranges(order, s.rows) && Arranges(scan, s.rows) && WithinLimits(s.rows, s.now + ttl + 1)
    ensures Resumes(Apply(After(Initial(ttl), steps), Pass(ttl + 1)), order, scan, t, id, w)
  {
    CoverageExact(ttl, steps);
    CoveredAtEnd(ttl, steps);
    hide After, Apply, Resumes, WithinLimits, Arranges, Parked, Never, Throughout;
    ResumesIff(ttl, steps, order, scan, t, id, w);
  }

  lemma CoveredAtEnd(ttl: int, steps: seq<Step>)
    requires Throughout(Covered(), ttl, steps)
    ensures EveryTaskCovered(After(Initial(ttl), steps))
  {
    assert steps[..|steps|] == steps;
    assert Covered()(After(Initial(ttl), steps[..|steps|]));
  }
}
