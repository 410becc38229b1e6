/** One uninterrupted delivery, as the worker's code runs it, tied to the steps of the ownership machine. */
module Execution {
  import opened Domain
  import opened Locks
  import opened Tasks
  import opened Ownership

  datatype Outcome = LockHeld | NotFound | AlreadyTerminal | LeaseHeld | Finished(status: TaskStatus) | Raised

  /** What the worker meets: clock readings, the nodes that run, and the final status - none when an
      exception leaves the workflow. */
  datatype Course = Course(acquiredAt: int, wait: nat, nodes: seq<Node>, final: Option<TaskStatus>)

  predicate PossibleFinal(final: Option<TaskStatus>) {
    final.None? || final.value in {HumanReviewRequired, ReadyForReview, TaskStatus.Failed}
  }

  function Opening(worker: string, task: string, wait: nat): seq<Step> {
    [] + [Deliver(0, worker, task)] + [Pass(wait)] + [Inspect(0)] + [Step.Claim(0)]
  }

  /** Two checkpoints per node. */
  function Body(nodes: seq<Node>): seq<Step> {
    if nodes == [] then []
    else
      var c := Checkpoint(0, nodes[|nodes| - 1]);
      Body(nodes[..|nodes| - 1]) + [c] + [c]
  }

  /** Node k is checkpointed by steps 2k and 2k + 1, before it and after it. */
  lemma {:induction false} BodyAt(nodes: seq<Node>, k: nat)
    requires k < |nodes|
    ensures |Body(nodes)| == 2 * |nodes|
    ensures Body(nodes)[2 * k] == Checkpoint(0, nodes[k]) && Body(nodes)[2 * k + 1] == Checkpoint(0, nodes[k])
  {
    var n := |nodes| - 1;
    if k < n { BodyAt(nodes[..n], k); } else if n > 0 { BodyAt(nodes[..n], 0); }
  }

  function Closing(final: Option<TaskStatus>): seq<Step> {
    [] + [EndStep(final)] + [ReleaseLock(0)] + [ReleaseLease(0)]
  }

  /** The steps of one delivery; those that do not apply leave the system as it was. */
  function Script(worker: string, task: string, c: Course): seq<Step> {
    Opening(worker, task, c.wait) + Body(c.nodes) + Closing(c.final)
  }

  lemma OpeningState(s: System, worker: string, task: string, wait: nat)
    ensures After(s, Opening(worker, task, wait)) ==
      Apply(Apply(Apply(Apply(s, Deliver(0, worker, task)), Pass(wait)), Inspect(0)), Step.Claim(0))
  {
    var steps := [] + [Deliver(0, worker, task)];
    Then(s, [], Deliver(0, worker, task));
    Then(s, steps, Pass(wait));
    Then(s, steps + [Pass(wait)], Inspect(0));
    Then(s, steps + [Pass(wait)] + [Inspect(0)], Step.Claim(0));
    assert After(s, []) == s;
    hide Apply, After;
  }

  lemma BodyNext(s: System, nodes: seq<Node>, n: nat)
    requires n < |nodes|
    ensures var c := Checkpoint(0, nodes[n]);
      After(s, Body(nodes[..n + 1])) == Apply(Apply(After(s, Body(nodes[..n])), c), c)
  {
    var c := Checkpoint(0, nodes[n]);
    var done := Body(nodes[..n]);
    assert nodes[..n + 1][..n] == nodes[..n];
    Then(s, done, c);
    Then(s, done + [c], c);
  }

  lemma ClosingState(s: System, final: Option<TaskStatus>)
    ensures After(s, Closing(final)) == Apply(Apply(Apply(s, EndStep(final)), ReleaseLock(0)), ReleaseLease(0))
  {
    var step := EndStep(final);
    Then(s, [], step);
    Then(s, [] + [step], ReleaseLock(0));
    Then(s, [] + [step] + [ReleaseLock(0)], ReleaseLease(0));
    assert After(s, []) == s;
    hide Apply, After;
  }

  ghost predicate Held(s: System, worker: string, task: string, phase: Phase) {
    At(s, 0, phase) && s.live[0].worker == worker && s.live[0].task == task
  }

  function EndStep(final: Option<TaskStatus>): Step {
    if final.Some? then Finalize(0, final.value) else Escape(0)
  }

  lemma EndEffect(s: System, worker: string, task: string, final: Option<TaskStatus>)
    requires Held(s, worker, task, Running) && task in s.rows && PossibleFinal(final)
    ensures var s' := Apply(s, EndStep(final));
      && Held(s', worker, task, Finishing) && s'.locks == s.locks
      && s'.rows == if final.Some? then s.rows[task := WithStatus(s.rows[task], final.value)] else s.rows
  {
  }

  lemma EndSkipped(s: System, final: Option<TaskStatus>)
    requires !At(s, 0, Running)
    ensures 0 !in s.live || At(s, 0, Finishing) ==> Apply(s, EndStep(final)) == s
    ensures 0 !in s.live ==> Apply(Apply(s, ReleaseLock(0)), ReleaseLease(0)) == s
  {
  }

  lemma FinallyEffect(s: System, worker: string, task: string)
    requires Held(s, worker, task, Finishing)
    ensures var s' := Apply(Apply(s, ReleaseLock(0)), ReleaseLease(0));
      && s'.locks == Released(s.locks, LockName(task), worker)
      && s'.rows == if task in s.rows then s.rows[task := ReleasedBy(s.rows[task], worker)] else s.rows
  {
  }

  /** Checkpoints of a body that was never entered do nothing. */
  lemma {:induction false} BodySkipped(s: System, nodes: seq<Node>)
    requires !At(s, 0, Running)
    ensures After(s, Body(nodes)) == s
  {
    if nodes != [] {
      var n := |nodes| - 1;
      BodySkipped(s, nodes[..n]);
      BodyNext(s, nodes, n);
      assert nodes[..n + 1] == nodes;
    }
  }

  lemma Unfolded(s0: System, worker: string, task: string, c: Course)
    ensures var s := After(After(s0, Opening(worker, task, c.wait)), Body(c.nodes));
      After(s0, Script(worker, task, c)) == Apply(Apply(Apply(s, EndStep(c.final)), ReleaseLock(0)), ReleaseLease(0))
  {
    hide After, Apply, Opening, Body, Closing;
    var opening, body := Opening(worker, task, c.wait), Body(c.nodes);
    AfterConcat(s0, opening, body);
    AfterConcat(s0, opening + body, Closing(c.final));
    ClosingState(After(After(s0, opening), body), c.final);
  }

  /** A delivery that did not get to run goes straight to `finally`, if it has the lock at all. */
  lemma Skipped(s: System, worker: string, task: string, c: Course)
    requires Held(s, worker, task, Finishing) || s.live == map[]
    ensures Apply(After(s, Body(c.nodes)), EndStep(c.final)) == s
    ensures s.live == map[] ==> Apply(Apply(s, ReleaseLock(0)), ReleaseLease(0)) == s
  {
    hide After;
    BodySkipped(s, c.nodes);
    EndSkipped(s, c.final);
  }

  class TaskExecutor {
    const worker: string
    const ttl: int
    const locks: MemoryLockManager
    const tasks: TaskRepository

    constructor (worker: string, ttl: int, locks: MemoryLockManager, tasks: TaskRepository)
      ensures this.worker == worker && this.ttl == ttl && this.locks == locks && this.tasks == tasks
    {
      this.worker, this.ttl, this.locks, this.tasks := worker, ttl, locks, tasks;
    }

    ghost function Alone(now: int): System
      reads locks, tasks
    {
      System(now, ttl, tasks.rows, locks.locks, map[], {})
    }

    /** The real tables are those of the machine. */
    ghost predicate Shows(s: System)
      reads locks, tasks
    {
      tasks.Valid() && s.locks == locks.locks && s.rows == tasks.rows
    }

    /** The workflow of this delivery is in progress and its worker holds the lease. */
    ghost predicate Runs(s: System, task: string)
      reads tasks
    {
      Held(s, worker, task, Running) && task in tasks.rows && tasks.rows[task].lockedBy == Some(worker)
    }

    /** The lock, the row, the lease: `None` when the workflow may start. */
    method Open(task: string, c: Course) returns (r: Option<Outcome>, ghost s: System)
      requires tasks.Valid()
      modifies locks, tasks
      ensures s == After(old(Alone(c.acquiredAt)), Opening(worker, task, c.wait)) && Shows(s)
      ensures r == Some(LockHeld) <==> Live(old(locks.locks), LockName(task), c.acquiredAt)
      ensures r == Some(LockHeld) ==> s.live == map[] && locks.locks == old(locks.locks)
      ensures r.None? ==> Runs(s, task)
      ensures r.Some? ==> tasks.rows == old(tasks.rows) && r.value in {LockHeld, NotFound, AlreadyTerminal, LeaseHeld}
      ensures r.Some? && r.value != LockHeld ==> Held(s, worker, task, Finishing)
      ensures r != Some(LockHeld) ==> LockName(task) in locks.locks && locks.locks[LockName(task)].owner == worker
    {
      ghost var s0 := Alone(c.acquiredAt);
      OpeningState(s0, worker, task, c.wait);
      s := After(s0, Opening(worker, task, c.wait));
      ghost var s1 := Apply(Apply(s0, Deliver(0, worker, task)), Pass(c.wait));
      hide After, Opening;
      var acquired := locks.Acquire(LockName(task), ttl, worker, c.acquiredAt);
      if !acquired {
        return Some(LockHeld), s;
      }
      r := Look(task, c.acquiredAt + c.wait, s1);
    }

    /** The row, then the lease, under the lock. */
    method Look(task: string, now: int, ghost s: System) returns (r: Option<Outcome>)
      requires Shows(s) && Held(s, worker, task, Locked) && s.now == now && s.ttl == ttl
      modifies tasks`rows
      ensures var s' := Apply(Apply(s, Inspect(0)), Step.Claim(0));
        && Shows(s')
        && (r.None? ==> Runs(s', task))
        && (r.Some? ==> Held(s', worker, task, Finishing))
      ensures r.Some? ==> tasks.rows == old(tasks.rows) && r.value in {NotFound, AlreadyTerminal, LeaseHeld}
    {
      if task !in tasks.rows {
        return Some(NotFound);
      }
      if Terminal(tasks.rows[task].status) {
        return Some(AlreadyTerminal);
      }
      var claimed := tasks.Claim(task, worker, ttl, now);
      r := if claimed then None else Some(LeaseHeld);
    }

    /** One checkpoint of a running node. */
    method Mark(task: string, node: Node, ghost s: System) returns (ghost s': System)
      requires Shows(s) && Runs(s, task)
      modifies tasks`rows
      ensures s' == Apply(s, Checkpoint(0, node)) && Shows(s') && Runs(s', task) && s'.locks == s.locks
    {
      tasks.SetStatus(task, NodeStatus(node));
      s' := Apply(s, Checkpoint(0, node));
    }

    /** The supervisor writes the status of a node before and after it. */
    method RunNodes(task: string, nodes: seq<Node>, ghost s: System) returns (ghost s': System)
      requires Shows(s) && Runs(s, task)
      modifies tasks`rows
      ensures s' == After(s, Body(nodes)) && Shows(s') && Runs(s', task)
    {
      s' := s;
      assert After(s, Body(nodes[..0])) == s;
      hide Apply, After, Body, Held;
      for k := 0 to |nodes|
        invariant s' == After(s, Body(nodes[..k])) && Shows(s') && Runs(s', task)
      {
        BodyNext(s, nodes, k);
        s' := Mark(task, nodes[k], s');
        s' := Mark(task, nodes[k], s');
      }
      assert nodes[..|nodes|] == nodes;
    }

    method End(task: string, final: Option<TaskStatus>) returns (r: Outcome)
      requires tasks.Valid() && task in tasks.rows && tasks.rows[task].lockedBy == Some(worker)
      modifies tasks`rows
      ensures tasks.Valid() && r == if final.Some? then Finished(final.value) else Raised
      ensures tasks.rows == if final.Some?
        then old(tasks.rows)[task := WithStatus(old(tasks.rows)[task], final.value)] else old(tasks.rows)
    {
      if final.None? { return Raised; }
      tasks.SetStatus(task, final.value);
      r := Finished(final.value);
    }

    /** `finally`: both releases, whatever happened before. */
    method Finally(task: string)
      requires tasks.Valid()
      modifies locks, tasks`rows
      ensures tasks.Valid() && locks.locks == Released(old(locks.locks), LockName(task), worker)
      ensures tasks.rows == if task in old(tasks.rows)
        then old(tasks.rows)[task := ReleasedBy(old(tasks.rows)[task], worker)] else old(tasks.rows)
    {
      locks.Release(LockName(task), worker);
      tasks.Release(task, worker);
    }

    /** A whole delivery is exactly its script of machine steps. It never leaves the lock behind; a finished
        task is handed back free; `finally` drops this worker's lease even when it claimed nothing. */
    method Execute(task: string, c: Course) returns (r: Outcome)
      requires tasks.Valid() && PossibleFinal(c.final)
      modifies locks, tasks
      ensures Shows(After(old(Alone(c.acquiredAt)), Script(worker, task, c)))
      ensures r == LockHeld <==> Live(old(locks.locks), LockName(task), c.acquiredAt)
      ensures r == LockHeld ==> tasks.rows == old(tasks.rows)
      ensures r != LockHeld ==> LockName(task) !in locks.locks
      ensures r.Finished? ==>
        task in tasks.rows && tasks.rows[task] == Row(r.status, None, None) && c.final == Some(r.status)
      ensures r == Raised ==>
        task in tasks.rows && tasks.rows[task].lockedBy.None? && tasks.rows[task].leaseExpires.None?
      ensures r in {NotFound, AlreadyTerminal, LeaseHeld} ==>
        tasks.rows == if task in old(tasks.rows)
          then old(tasks.rows)[task := ReleasedBy(old(tasks.rows)[task], worker)] else old(tasks.rows)
    {
      ghost var s0 := Alone(c.acquiredAt);
      Unfolded(s0, worker, task, c);
      hide After, Script, Opening, Body, Closing, Apply, Held;
      var skipped; ghost var s;
      skipped, s := Open(task, c);
      if skipped.Some? {
        r := skipped.value;
        Skipped(s, worker, task, c);
        if r == LockHeld { return; }
      } else {
        s := RunNodes(task, c.nodes, s);
        EndEffect(s, worker, task, c.final);
        s := Apply(s, EndStep(c.final));
        r := End(task, c.final);
      }
      FinallyEffect(s, worker, task);
      Finally(task);
    }
  }
}
