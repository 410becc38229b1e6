/** What goes wrong without the assumptions: runs that break a guarantee once they are dropped. */
module OwnershipLimits {
  import opened Domain
  import opened Locks
  import opened Tasks
  import opened Ownership
  import Exclusion
  import Lease
  import Recovery

  const ALL := Assumptions(true, true, true, true, true, true, true)

  /** A step that takes no time, is allowed by `a` whatever the state, and is delivered by the book. */
  predicate Plain(a: Assumptions, ids: map<string, nat>, step: Step) {
    match step
    case Pass(_) => false
    case Decide(_, _) => !a.quietApi
    case Evict(_) => !a.stableLocks
    case Abandon(_) => !a.cleanUnwind
    case Deliver(id, w, _) => !a.oneDelivery || (w in ids && ids[w] == id)
    case _ => true
  }

  /** An exception only leaves a delivery that has not claimed the task. */
  predicate EscapesEarly(steps: seq<Step>) {
    forall k :: 0 <= k < |steps| && steps[k].Escape? ==> Claim(steps[k].id) !in steps[..k]
  }

  ghost predicate Instant(a: Assumptions, ids: map<string, nat>, steps: seq<Step>) {
    && (forall k :: 0 <= k < |steps| ==> Plain(a, ids, steps[k]))
    && (a.cleanExits ==> EscapesEarly(steps))
  }

  lemma {:induction false} RunnersHaveClaimed(ttl: int, steps: seq<Step>, id: nat)
    requires At(After(Initial(ttl), steps), id, Running)
    ensures Claim(id) in steps
  {
    if steps != [] {
      var n := |steps| - 1;
      if steps[n] != Claim(id) { StillRunning(After(Initial(ttl), steps[..n]), steps[n], id); }
      hide Apply;
      if At(After(Initial(ttl), steps[..n]), id, Running) { RunnersHaveClaimed(ttl, steps[..n], id); }
    }
  }

  lemma StillRunning(s: System, step: Step, id: nat)
    requires step != Claim(id)
    ensures At(Apply(s, step), id, Running) ==> At(s, id, Running)
  {
  }

  ghost predicate AtOrigin(s: System) {
    && s.now == 0 && s.ttl > 0
    && forall i :: i in s.live ==>
      s.live[i].acquiredAt == 0 && (s.live[i].claimedAt.Some? ==> s.live[i].claimedAt.value == 0)
  }

  lemma ClockStandsStill(s: System, step: Step)
    requires AtOrigin(s) && !step.Pass?
    ensures AtOrigin(Apply(s, step))
  {
  }

  ghost predicate ByTheBook(ids: map<string, nat>, s: System) {
    forall i :: i in s.live ==> s.live[i].worker in ids && ids[s.live[i].worker] == i
  }

  lemma DeliveriesByTheBook(a: Assumptions, ids: map<string, nat>, s: System, step: Step)
    requires a.oneDelivery && ByTheBook(ids, s) && Plain(a, ids, step)
    ensures ByTheBook(ids, Apply(s, step))
  {
  }

  /** With a positive TTL such a run meets every assumption its steps do not rule out. */
  lemma {:induction false} InstantRunIsFair(a: Assumptions, ids: map<string, nat>, ttl: nat, steps: seq<Step>)
    requires ttl > 0 && Instant(a, ids, steps)
    ensures Fair(a, Initial(ttl), steps) && AtOrigin(After(Initial(ttl), steps))
    ensures a.oneDelivery ==> ByTheBook(ids, After(Initial(ttl), steps))
  {
    hide Apply;
    if steps != [] {
      var n := |steps| - 1;
      InstantRunIsFair(a, ids, ttl, steps[..n]);
      var s := After(Initial(ttl), steps[..n]);
      assert Plain(a, ids, steps[n]);
      assert forall k :: 0 <= k < n ==> steps[..n][..k] == steps[..k];
      if steps[n].Escape? && At(s, steps[n].id, Running) { RunnersHaveClaimed(ttl, steps[..n], steps[n].id); }
      ClockStandsStill(s, steps[n]);
      if a.oneDelivery { DeliveriesByTheBook(a, ids, s, steps[n]); }
    }
  }

  lemma {:induction false} WithoutEvictionIsFair(s: System, steps: seq<Step>)
    requires forall k :: 0 <= k < |steps| ==> !steps[k].Evict?
    ensures Fair(Exclusion.LOCK_ONLY.(shortHolds := false), s, steps)
  {
    if steps != [] { WithoutEvictionIsFair(s, steps[..|steps| - 1]); }
  }

  /** A holder that reaches its TTL shares the critical section, for every TTL. */
  lemma SlowHolderBreaksExclusion(ttl: nat, t: string, u: string, v: string) returns (steps: seq<Step>)
    ensures Fair(Exclusion.LOCK_ONLY.(shortHolds := false), Initial(ttl), steps)
    ensures !Exclusion.AtMostOneHolder(After(Initial(ttl), steps))
  {
    steps := [Deliver(0, u, t)] + [Pass(ttl)] + [Deliver(1, v, t)];
    WithoutEvictionIsFair(Initial(ttl), steps);
    Then(Initial(ttl), [], Deliver(0, u, t));
    Then(Initial(ttl), [Deliver(0, u, t)], Pass(ttl));
    Then(Initial(ttl), [Deliver(0, u, t)] + [Pass(ttl)], Deliver(1, v, t));
    var s := After(Initial(ttl), steps);
    assert 0 in s.live && 1 in s.live && Holding(s.live[0]) && Holding(s.live[1]);
  }

  /** One task and one delivery of it, at time zero. */
  function Solo(ttl: nat, t: string, row: Row, e: Execution): System {
    System(0, ttl, map[t := row],
        if Holding(e) then map[LockName(t) := Entry(e.worker, ttl)] else map[], map[0 := e], {})
  }

  function Running0(u: string, t: string): Execution {
    Execution(u, t, Running, 0, Some(0))
  }

  /** Running one step ahead of the rest of a run. */
  lemma Go(s: System, step: Step, s': System, rest: seq<Step>)
    requires Apply(s, step) == s'
    ensures After(s, [step] + rest) == After(s', rest)
  {
    AfterConcat(s, [step], rest);
    Then(s, [], step);
    assert [] + [step] == [step];
  }

  /** Creation, delivery and claim of a task, ahead of the rest of a run. */
  lemma SoloStart(ttl: nat, t: string, u: string, rest: seq<Step>)
    ensures After(Initial(ttl), [Create(t)] + ([Deliver(0, u, t)] + ([Inspect(0)] + ([Claim(0)] + rest)))) ==
            After(Solo(ttl, t, Row(Queued, Some(u), Some(ttl)), Running0(u, t)), rest)
  {
    var s1, e := Initial(ttl).(rows := map[t := FRESH]), Execution(u, t, Locked, 0, None);
    var s2, s3 := Solo(ttl, t, FRESH, e), Solo(ttl, t, FRESH, e.(phase := Inspected));
    var s4 := Solo(ttl, t, Row(Queued, Some(u), Some(ttl)), Running0(u, t));
    hide After;
    Go(Initial(ttl), Create(t), s1, [Deliver(0, u, t)] + ([Inspect(0)] + ([Claim(0)] + rest)));
    Go(s1, Deliver(0, u, t), s2, [Inspect(0)] + ([Claim(0)] + rest));
    Go(s2, Inspect(0), s3, [Claim(0)] + rest);
    Go(s3, Claim(0), s4, rest);
  }

  /** Creation, delivery, claim, first checkpoint, an exception that escapes, and `finally`. */
  function EscapingRun(t: string, u: string): seq<Step> {
    [Create(t), Deliver(0, u, t), Inspect(0), Claim(0),
     Checkpoint(0, PlanNode), Escape(0), ReleaseLock(0), ReleaseLease(0)]
  }

  lemma FinallyReleases(ttl: nat, t: string, row: Row, e: Execution)
    requires e.task == t && row.lockedBy == Some(e.worker)
    ensures Apply(Solo(ttl, t, row, e.(phase := Finishing)), ReleaseLock(0)) == Solo(ttl, t, row, e.(phase := Unlocked))
    ensures Apply(Solo(ttl, t, row, e.(phase := Unlocked)), ReleaseLease(0)) ==
            System(0, ttl, map[t := Row(row.status, None, None)], map[], map[], {})
  {
    var e1, e2 := e.(phase := Finishing), e.(phase := Unlocked);
    assert Released(map[LockName(t) := Entry(e.worker, ttl)], LockName(t), e.worker) == map[];
    assert map[0 := e1][0 := e2] == map[0 := e2];
    assert map[0 := e2] - {0} == map[];
    assert map[t := row][t := Row(row.status, None, None)] == map[t := Row(row.status, None, None)];
  }

  lemma UnwindFreesRow(ttl: nat, t: string, u: string)
    ensures var s := Solo(ttl, t, Row(Queued, Some(u), Some(ttl)), Running0(u, t));
      After(s, [Checkpoint(0, PlanNode)] + ([Escape(0)] + ([ReleaseLock(0)] + ([ReleaseLease(0)] + [])))) ==
      System(0, ttl, map[t := Row(Planning, None, None)], map[], map[], {})
  {
    var row, e := Row(Planning, Some(u), Some(ttl)), Running0(u, t);
    var s5, s6 := Solo(ttl, t, row, e), Solo(ttl, t, row, e.(phase := Finishing));
    var s7 := Solo(ttl, t, row, e.(phase := Unlocked));
    var s8 := System(0, ttl, map[t := Row(Planning, None, None)], map[], map[], {});
    assert After(s8, []) == s8;
    assert Apply(Solo(ttl, t, row.(status := Queued), e), Checkpoint(0, PlanNode)) == s5;
    assert Apply(s5, Escape(0)) == s6;
    FinallyReleases(ttl, t, row, e);
    hide After, Apply;
    Go(Solo(ttl, t, row.(status := Queued), e), Checkpoint(0, PlanNode), s5,
       [Escape(0)] + ([ReleaseLock(0)] + ([ReleaseLease(0)] + [])));
    Go(s5, Escape(0), s6, [ReleaseLock(0)] + ([ReleaseLease(0)] + []));
    Go(s6, ReleaseLock(0), s7, [ReleaseLease(0)] + []);
    Go(s7, ReleaseLease(0), s8, []);
  }

  /** An exception that escapes a running workflow is unwound by `finally` into an unlocked row that is
      not queued: neither sweep query will ever report it. */
  lemma EscapeOrphansTask(ttl: nat, t: string, u: string)
    requires ttl > 0
    ensures Fair(ALL.(cleanExits := false), Initial(ttl), EscapingRun(t, u))
    ensures !Recovery.EveryTaskCovered(After(Initial(ttl), EscapingRun(t, u)))
  {
    hide After, Fair, Apply;
    InstantRunIsFair(ALL.(cleanExits := false), map[u := 0], ttl, EscapingRun(t, u));
    var rest := [Checkpoint(0, PlanNode)] + ([Escape(0)] + ([ReleaseLock(0)] + ([ReleaseLease(0)] + [])));
    assert EscapingRun(t, u) == [Create(t)] + ([Deliver(0, u, t)] + ([Inspect(0)] + ([Claim(0)] + rest)));
    SoloStart(ttl, t, u, rest);
    UnwindFreesRow(ttl, t, u);
    assert t in After(Initial(ttl), EscapingRun(t, u)).rows;
  }

  /** A second delivery of a task that looks free runs next to whatever is already there. */
  lemma SecondStart(s: System, t: string, w: string, rest: seq<Step>) returns (s': System)
    requires t in s.rows && CanClaim(s.rows[t], s.now) && !Live(s.locks, LockName(t), s.now)
    requires 1 !in s.live && w !in s.dead
    ensures After(s, [Deliver(1, w, t)] + ([Inspect(1)] + ([Claim(1)] + rest))) == After(s', rest)
    ensures s' == s.(locks := s.locks[LockName(t) := Entry(w, s.now + s.ttl)],
                     rows := s.rows[t := Row(s.rows[t].status, Some(w), Some(s.now + s.ttl))],
                     live := s.live[1 := Execution(w, t, Running, s.now, Some(s.now))])
  {
    var s1 := s.(locks := s.locks[LockName(t) := Entry(w, s.now + s.ttl)],
                 live := s.live[1 := Execution(w, t, Locked, s.now, None)]);
    var s2 := s1.(live := s.live[1 := Execution(w, t, Inspected, s.now, None)]);
    s' := s1.(rows := s.rows[t := Row(s.rows[t].status, Some(w), Some(s.now + s.ttl))],
              live := s.live[1 := Execution(w, t, Running, s.now, Some(s.now))]);
    assert Apply(s, Deliver(1, w, t)) == s1;
    assert Apply(s1, Inspect(1)) == s2;
    assert Apply(s2, Claim(1)) == s';
    hide After, Apply;
    Go(s, Deliver(1, w, t), s1, [Inspect(1)] + ([Claim(1)] + rest));
    Go(s1, Inspect(1), s2, [Claim(1)] + rest);
    Go(s2, Claim(1), s', rest);
  }

  /** A cancel mid-run, the runner's next checkpoint, a lost lock entry, and a second delivery. */
  function CancelledRun(t: string, u: string, v: string): seq<Step> {
    [Create(t), Deliver(0, u, t), Inspect(0), Claim(0), Decide(t, Cancel), Checkpoint(0, PlanNode),
     Evict(LockName(t)), Deliver(1, v, t), Inspect(1), Claim(1)]
  }

  lemma CancelOverwritten(ttl: nat, t: string, u: string, rest: seq<Step>)
    ensures After(Solo(ttl, t, Row(Queued, Some(u), Some(ttl)), Running0(u, t)),
                  [Decide(t, Cancel)] + ([Checkpoint(0, PlanNode)] + ([Evict(LockName(t))] + rest))) ==
            After(Solo(ttl, t, Row(Planning, None, None), Running0(u, t)).(locks := map[]), rest)
  {
    var e := Running0(u, t);
    var s4, s5 := Solo(ttl, t, Row(Queued, Some(u), Some(ttl)), e), Solo(ttl, t, Row(Cancelled, None, None), e);
    var s6 := Solo(ttl, t, Row(Planning, None, None), e);
    assert Apply(s4, Decide(t, Cancel)) == s5;
    assert Apply(s5, Checkpoint(0, PlanNode)) == s6;
    assert Apply(s6, Evict(LockName(t))) == s6.(locks := map[]);
    hide After, Apply;
    Go(s4, Decide(t, Cancel), s5, [Checkpoint(0, PlanNode)] + ([Evict(LockName(t))] + rest));
    Go(s5, Checkpoint(0, PlanNode), s6, [Evict(LockName(t))] + rest);
    Go(s6, Evict(LockName(t)), s6.(locks := map[]), rest);
  }

  /** The checkpoint overwrites the cancel and nothing holds the lease any more: two workflows run. */
  lemma CancelMidRunBreaksLease(ttl: nat, t: string, u: string, v: string)
    requires ttl > 0 && u != v
    ensures Fair(ALL.(quietApi := false, stableLocks := false), Initial(ttl), CancelledRun(t, u, v))
    ensures !Lease.AtMostOneRunner(After(Initial(ttl), CancelledRun(t, u, v)))
  {
    hide After, Fair, Apply;
    InstantRunIsFair(ALL.(quietApi := false, stableLocks := false), map[u := 0, v := 1], ttl, CancelledRun(t, u, v));
    var r3 := [Deliver(1, v, t)] + ([Inspect(1)] + ([Claim(1)] + []));
    var r2 := [Decide(t, Cancel)] + ([Checkpoint(0, PlanNode)] + ([Evict(LockName(t))] + r3));
    assert CancelledRun(t, u, v) == [Create(t)] + ([Deliver(0, u, t)] + ([Inspect(0)] + ([Claim(0)] + r2)));
    SoloStart(ttl, t, u, r2);
    CancelOverwritten(ttl, t, u, r3);
    var s' := SecondStart(Solo(ttl, t, Row(Planning, None, None), Running0(u, t)).(locks := map[]), t, v, []);
    Nothing(s');
    assert At(s', 0, Running) && At(s', 1, Running);
  }

  lemma Nothing(s: System)
    ensures After(s, []) == s
  {
  }

  // A workflow that outlives its lease

  const SLOW := Lease.LEASE_ONLY.(shortRuns := false)

  /** Each worker makes one delivery and nobody decides anything. */
  predicate Booked(ids: map<string, nat>, step: Step) {
    !step.Decide? && (step.Deliver? ==> step.worker in ids && ids[step.worker] == step.id)
  }

  lemma BookedStep(ids: map<string, nat>, s: System, step: Step)
    requires ByTheBook(ids, s) && Booked(ids, step)
    ensures ByTheBook(ids, Apply(s, step)) && Permitted(SLOW, s, step)
  {
  }

  lemma {:induction false} BookedRunIsFair(ids: map<string, nat>, ttl: nat, steps: seq<Step>)
    requires forall k :: 0 <= k < |steps| ==> Booked(ids, steps[k])
    ensures Fair(SLOW, Initial(ttl), steps) && ByTheBook(ids, After(Initial(ttl), steps))
  {
    hide Apply, Permitted;
    if steps != [] {
      var n := |steps| - 1;
      BookedRunIsFair(ids, ttl, steps[..n]);
      BookedStep(ids, After(Initial(ttl), steps[..n]), steps[n]);
    }
  }

  function OverlongRun(t: string, u: string, v: string, ttl: nat): seq<Step> {
    [Create(t), Deliver(0, u, t), Inspect(0), Claim(0), Pass(ttl + 1), Deliver(1, v, t), Inspect(1), Claim(1)]
  }

  /** A workflow that reaches the end of its lease is joined by a second one, for every TTL. */
  lemma SlowRunBreaksLease(ttl: nat, t: string, u: string, v: string)
    requires u != v
    ensures Fair(SLOW, Initial(ttl), OverlongRun(t, u, v, ttl))
    ensures !Lease.AtMostOneRunner(After(Initial(ttl), OverlongRun(t, u, v, ttl)))
  {
    OverlongRunIsFair(ttl, t, u, v);
    OverlongRunEnds(ttl, t, u, v);
  }

  lemma OverlongRunIsFair(ttl: nat, t: string, u: string, v: string)
    requires u != v
    ensures Fair(SLOW, Initial(ttl), OverlongRun(t, u, v, ttl))
  {
    hide After, Fair, Apply;
    BookedRunIsFair(map[u := 0, v := 1], ttl, OverlongRun(t, u, v, ttl));
  }

  lemma OverlongRunEnds(ttl: nat, t: string, u: string, v: string)
    ensures !Lease.AtMostOneRunner(After(Initial(ttl), OverlongRun(t, u, v, ttl)))
  {
    hide After, Fair, Apply;
    var r3 := [Deliver(1, v, t)] + ([Inspect(1)] + ([Claim(1)] + []));
    var r2 := [Pass(ttl + 1)] + r3;
    assert OverlongRun(t, u, v, ttl) == [Create(t)] + ([Deliver(0, u, t)] + ([Inspect(0)] + ([Claim(0)] + r2)));
    SoloStart(ttl, t, u, r2);
    var s := Solo(ttl, t, Row(Queued, Some(u), Some(ttl)), Running0(u, t));
    LaterIs(s, ttl + 1);
    Go(s, Pass(ttl + 1), s.(now := ttl + 1), r3);
    var s' := SecondStart(s.(now := ttl + 1), t, v, []);
    Nothing(s');
    assert At(s', 0, Running) && At(s', 1, Running);
  }

  lemma LaterIs(s: System, n: nat)
    ensures Apply(s, Pass(n)) == s.(now := s.now + n)
  {
  }

  /** A delivery whose row read raises, and a duplicate to the same worker between its two releases. */
  function RepeatedRun(t: string, u: string): seq<Step> {
    [Create(t), Deliver(0, u, t), Escape(0), ReleaseLock(0),
     Deliver(1, u, t), Inspect(1), Claim(1), Checkpoint(1, PlanNode), ReleaseLease(0)]
  }

  lemma FailedRead(ttl: nat, t: string, u: string, rest: seq<Step>)
    ensures After(Initial(ttl), [Create(t)] + ([Deliver(0, u, t)] + ([Escape(0)] + ([ReleaseLock(0)] + rest)))) ==
            After(Solo(ttl, t, FRESH, Execution(u, t, Unlocked, 0, None)), rest)
  {
    var e := Execution(u, t, Unlocked, 0, None);
    var s1 := Initial(ttl).(rows := map[t := FRESH]);
    var s2, s3 := Solo(ttl, t, FRESH, e.(phase := Locked)), Solo(ttl, t, FRESH, e.(phase := Finishing));
    assert Apply(s2, Escape(0)) == s3;
    assert Apply(s3, ReleaseLock(0)) == Solo(ttl, t, FRESH, e) by {
      assert Released(map[LockName(t) := Entry(u, ttl)], LockName(t), u) == map[];
    }
    hide After;
    Go(Initial(ttl), Create(t), s1, [Deliver(0, u, t)] + ([Escape(0)] + ([ReleaseLock(0)] + rest)));
    Go(s1, Deliver(0, u, t), s2, [Escape(0)] + ([ReleaseLock(0)] + rest));
    Go(s2, Escape(0), s3, [ReleaseLock(0)] + rest);
    Go(s3, ReleaseLock(0), Solo(ttl, t, FRESH, e), rest);
  }

  /** A worker handed the same task twice drops, in the first delivery's `finally`, the lease that its
      second delivery is running under. */
  lemma SecondDeliveryDropsLease(ttl: nat, t: string, u: string)
    requires ttl > 0
    ensures Fair(ALL.(oneDelivery := false), Initial(ttl), RepeatedRun(t, u))
    ensures !Recovery.EveryTaskCovered(After(Initial(ttl), RepeatedRun(t, u)))
  {
    hide After, Fair, Apply;
    InstantRunIsFair(ALL.(oneDelivery := false), map[], ttl, RepeatedRun(t, u));
    var r4 := [Checkpoint(1, PlanNode)] + ([ReleaseLease(0)] + []);
    var r3 := [Deliver(1, u, t)] + ([Inspect(1)] + ([Claim(1)] + r4));
    assert RepeatedRun(t, u) == [Create(t)] + ([Deliver(0, u, t)] + ([Escape(0)] + ([ReleaseLock(0)] + r3)));
    FailedRead(ttl, t, u, r3);
    var s7 := SecondStart(Solo(ttl, t, FRESH, Execution(u, t, Unlocked, 0, None)), t, u, r4);
    LeaseDropped(s7, t, u);
  }

  lemma LeaseDropped(s: System, t: string, u: string)
    requires t in s.rows && s.rows[t].lockedBy == Some(u) && At(s, 1, Running) && s.live[1].task == t
    requires At(s, 0, Unlocked) && s.live[0].task == t && s.live[0].worker == u
    ensures !Recovery.EveryTaskCovered(After(s, [Checkpoint(1, PlanNode)] + ([ReleaseLease(0)] + [])))
  {
    var s1 := Apply(s, Checkpoint(1, PlanNode));
    var s2 := Apply(s1, ReleaseLease(0));
    assert t in s2.rows && s2.rows[t] == Row(Planning, None, None);
    hide After, Apply;
    Go(s, Checkpoint(1, PlanNode), s1, [ReleaseLease(0)] + []);
    Go(s1, ReleaseLease(0), s2, []);
    Nothing(s2);
  }

  // A third worker in the way of recovery

  /** One worker dies running; a second takes the lock the moment it expires and dies before its claim. */
  function HandedOnRun(t: string, u: string, v: string, ttl: nat): seq<Step> {
    [Create(t), Deliver(0, u, t), Inspect(0), Claim(0), Crash(u)] +
        [Pass(ttl)] + [Deliver(1, v, t)] + [Crash(v)] + [Pass(1)]
  }

  lemma FairThen(a: Assumptions, s0: System, steps: seq<Step>, s: System, step: Step, s': System)
    requires Fair(a, s0, steps) && After(s0, steps) == s && Permitted(a, s, step) && Apply(s, step) == s'
    ensures Fair(a, s0, steps + [step]) && After(s0, steps + [step]) == s'
  {
    assert (steps + [step])[..|steps|] == steps;
  }

  /** Nobody is executing: only the API and the exits could go against an assumption. */
  lemma QuietStepPermitted(a: Assumptions, s: System, step: Step)
    requires step.Pass? || step.Crash?
    requires s.live == map[]
    ensures Permitted(a, s, step)
  {
  }

  lemma StartIsInstant(t: string, u: string)
    ensures Instant(ALL, map[u := 0], [Create(t), Deliver(0, u, t), Inspect(0), Claim(0), Crash(u)])
  {
  }

  lemma CrashEndsRun(ttl: nat, t: string, u: string)
    ensures Apply(Solo(ttl, t, Row(Queued, Some(u), Some(ttl)), Running0(u, t)), Crash(u)) ==
      System(0, ttl, map[t := Row(Queued, Some(u), Some(ttl))], map[LockName(t) := Entry(u, ttl)], map[], {u})
  {
  }

  lemma HandedOnStart(t: string, u: string, ttl: nat)
    requires ttl > 0
    ensures var steps := [Create(t), Deliver(0, u, t), Inspect(0), Claim(0), Crash(u)];
      && Fair(ALL, Initial(ttl), steps)
      && After(Initial(ttl), steps) ==
         System(0, ttl, map[t := Row(Queued, Some(u), Some(ttl))], map[LockName(t) := Entry(u, ttl)], map[], {u})
  {
    var steps := [Create(t), Deliver(0, u, t), Inspect(0), Claim(0), Crash(u)];
    var s := Solo(ttl, t, Row(Queued, Some(u), Some(ttl)), Running0(u, t));
    CrashEndsRun(ttl, t, u);
    hide After, Fair, Apply, Instant;
    StartIsInstant(t, u);
    Then(s, [], Crash(u));
    Nothing(s);
    InstantRunIsFair(ALL, map[u := 0], ttl, steps);
    assert steps == [Create(t)] + ([Deliver(0, u, t)] + ([Inspect(0)] + ([Claim(0)] + [Crash(u)])));
    assert [] + [Crash(u)] == [Crash(u)];
    SoloStart(ttl, t, u, [Crash(u)]);
  }

  lemma DeliveryAlonePermitted(s: System, id: nat, w: string, t: string)
    requires s.live == map[] && s.ttl > 0
    ensures Permitted(ALL, s, Deliver(id, w, t))
  {
  }

  /** The row still names the first worker; `lock` is the entry in the table. */
  function HandedOn(t: string, u: string, ttl: nat, now: int, lock: Entry,
                    live: map<nat, Execution>, dead: set<string>): System {
    System(now, ttl, map[t := Row(Queued, Some(u), Some(ttl))], map[LockName(t) := lock], live, dead)
  }

  lemma HandedOnDelivery(t: string, u: string, v: string, ttl: nat)
    requires ttl > 0 && u != v
    ensures var s1 := HandedOn(t, u, ttl, ttl, Entry(u, ttl), map[], {u});
      var s2 := HandedOn(t, u, ttl, ttl, Entry(v, 2 * ttl), map[1 := Execution(v, t, Locked, ttl, None)], {u});
      && Permitted(ALL, s1, Deliver(1, v, t)) && Apply(s1, Deliver(1, v, t)) == s2
  {
    var s1 := HandedOn(t, u, ttl, ttl, Entry(u, ttl), map[], {u});
    DeliveryAlonePermitted(s1, 1, v, t);
  }

  lemma HandedOnCrash(t: string, u: string, v: string, ttl: nat)
    ensures var s2 := HandedOn(t, u, ttl, ttl, Entry(v, 2 * ttl), map[1 := Execution(v, t, Locked, ttl, None)], {u});
      && Permitted(ALL, s2, Crash(v))
      && Apply(s2, Crash(v)) == HandedOn(t, u, ttl, ttl, Entry(v, 2 * ttl), map[], {u, v})
  {
  }

  lemma TimePasses(s: System, n: nat)
    requires s.live == map[]
    ensures Permitted(ALL, s, Pass(n)) && Apply(s, Pass(n)) == s.(now := s.now + n)
  {
    QuietStepPermitted(ALL, s, Pass(n));
  }

  lemma HandedOnIsBlocked(t: string, u: string, v: string, ttl: nat)
    requires ttl > 1 && u != v
    ensures var s := HandedOn(t, u, ttl, ttl + 1, Entry(v, 2 * ttl), map[], {u, v});
      t in s.rows && Recoverable(s.rows[t], s.now) && Recovery.Idle(s, t) && Recovery.BlockedByThirdWorker(s, t)
  {
  }

  /** Under every assumption, the task is reported recoverable and idle, yet a fresh delivery is turned away. */
  lemma ThirdWorkerBlocks(t: string, u: string, v: string, ttl: nat)
    requires ttl > 1 && u != v
    ensures Fair(ALL, Initial(ttl), HandedOnRun(t, u, v, ttl))
    ensures var s := After(Initial(ttl), HandedOnRun(t, u, v, ttl));
      t in s.rows && Recoverable(s.rows[t], s.now) && Recovery.Idle(s, t) && Recovery.BlockedByThirdWorker(s, t)
  {
    HandedOnIsBlocked(t, u, v, ttl);
    hide Apply, After, Fair, Permitted, Recoverable, Recovery.Idle, Recovery.BlockedByThirdWorker;
    var p0 := [Create(t), Deliver(0, u, t), Inspect(0), Claim(0), Crash(u)];
    var p1 := p0 + [Pass(ttl)];
    var p2 := p1 + [Deliver(1, v, t)];
    var p3 := p2 + [Crash(v)];
    var s0 := HandedOn(t, u, ttl, 0, Entry(u, ttl), map[], {u});
    var s1 := HandedOn(t, u, ttl, ttl, Entry(u, ttl), map[], {u});
    var s2 := HandedOn(t, u, ttl, ttl, Entry(v, 2 * ttl), map[1 := Execution(v, t, Locked, ttl, None)], {u});
    var s3 := HandedOn(t, u, ttl, ttl, Entry(v, 2 * ttl), map[], {u, v});
    HandedOnStart(t, u, ttl);
    TimePasses(s0, ttl);
    HandedOnDelivery(t, u, v, ttl);
    HandedOnCrash(t, u, v, ttl);
    TimePasses(s3, 1);
    FairThen(ALL, Initial(ttl), p0, s0, Pass(ttl), s1);
    FairThen(ALL, Initial(ttl), p1, s1, Deliver(1, v, t), s2);
    FairThen(ALL, Initial(ttl), p2, s2, Crash(v), s3);
    FairThen(ALL, Initial(ttl), p3, s3, Pass(1), HandedOn(t, u, ttl, ttl + 1, Entry(v, 2 * ttl), map[], {u, v}));
  }
}
