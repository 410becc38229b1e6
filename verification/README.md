# Control-plane verification

This project models the deterministic code around a coding agent: who may work on a task, how the
agent graph moves, how files are split, searched and patched, and which tool calls and changes the policy
lets through. Models, git, the test runner, CI and the wall clock are an environment that answers as it
likes; every theorem holds for every such environment unless a hypothesis names what it must not do.

- **Ownership** (`Locks`, `Tasks`, `Ownership`, `Execution`, `Exclusion`, `Lease`, `Recovery`, `Coverage`,
  `OwnershipLaws`, `OwnershipLimits`): the TTL lock table and the task rows are classes changed in place; the
  protocol is a state machine over any number of workers, tasks, deliveries, crashes and API decisions, one atomic
  action a step. The functions that specify the class methods are the ones the machine is built from, and
  `Execution.TaskExecutor.Execute` ties a whole delivery to its script of machine steps. `OwnershipLaws` says what
  exactly a step does to an entry, a lease, a status. What a theorem assumes is an explicit `Assumptions` value, and
  `OwnershipLimits` holds runs that break a guarantee once assumptions are dropped.
- **Workflow** (`TestOutcome`, `Runner`, `Workflow`, `Supervisor`, `WorkflowBound`, `WorkflowCommit`,
  `WorkflowRouting`, `WorkflowProgress`, `WorkflowBudget`, `WorkflowLimits`): a run is a trace of node events, each
  of which returns its update or fails and leaves the other fields stale. `Supervisor.WorkflowRun` is the driver in
  the source's own form; it is proved to produce such traces, and exactly the checkpoints the resume theorems speak
  of, for every answer of the environment.
- **Retrieval and editing** (`Symbols`, `Chunker`, `Lexical`, `Fusion`, `Patch`, with `Sorting`).
- **Gates** (`Policy`, `ToolLoop`).

Where the code and what its documentation promises differ, the model follows the code:

- The executor never renews its lock or lease and `set_status` is unconditional, so neither excludes by itself.
  While lock entries stay, the lock fails exactly when a live worker is handed a task under a holder past its TTL
  (`ExclusionExact`; such a run: `SlowHolderBreaksExclusion`). With one delivery per worker and no decision mid-run,
  the lease fails exactly when a claim meets a runner past its lease (`LeaseExact`, `SlowRunBreaksLease`).
  A cancel that lands mid-run is overwritten by the next checkpoint, after which nothing holds the lease
  (`CancelMidRunBreaksLease`); `HoldersExact` and `RunnersExact` characterize all runs that exclude, such ones
  included, without any assumption.
- An exception that leaves a running workflow is unwound by `finally` into an unlocked row. That is harmless
  exactly while the row is still QUEUED or already parked (`EscapeOrphansIff`); otherwise neither sweep query
  sees the task as it is left (`EscapeOrphansTask` is such a run).
- Lock and lease belong to the worker id, so a worker that handles one task twice drops, in the first
  `finally`, the lease of its second delivery (`SecondDeliveryDropsLease`). `ReleaseCoversIff` says when a
  release loses a task, and `CoverageExact` characterizes all runs that lose none, without any assumption.
- A task reported recoverable can still be turned away for up to one TTL, when a third worker took the
  lock as it expired and died before its claim (`ThirdWorkerBlocks`); `RecoverableIsRecovered` says exactly when.
- `READY_FOR_REVIEW` is not terminal: `claim` accepts such a row, and the recovery query skips it.
- Failures that a summary line counts but that have no readable name never trip the no-progress brake (`StuckIff`).
- When `debugging` itself fails, `iteration` does not advance and only the recursion limit ends the loop
  (`FailingLoopUnbounded`). That backstop then saves the state the session started from, so the counters
  rewind (`BackstopRewinds`, `RewindHappens`).
- When `run_tests` itself fails, the flag of an older test run still opens the way to a commit
  (`LaterCommitCanBeUntested`); `CommitTestedIff` says exactly when a commit is tested. A workspace without a
  test project counts as a passing test run.
- Each sweep query returns at most 20 rows: one pass re-publishes every due task if and only if neither query
  matches more than 20 (`SweepBatchExact`). The recovery query names no order, so the rows beyond its limit are
  whichever the database meets last.
- When `security_policy` itself fails, the verdict of an older assessment still opens the way to a commit,
  even to the first one (`FirstCommitCanBeUnjudged`; exactly when: `CommitJudgedIff`).
- The gate asks about the output of three git commands, of which at most 200,000 characters each are handed on,
  after a fourth that marks new files for adding; all four exit codes are ignored. A diff is judged in full exactly
  when the gate does not fail and sees all of it, which is, if all four commands exited cleanly in time, when the
  three outputs fit (`CommitJudgedIff`). In a run without any failure a secret in the elided middle of a long diff
  is committed (`HiddenSecretIsCommitted`).
- A patch reads its file with universal newlines and writes it verbatim. So one patch turns every CRLF of the
  file into LF, and a new text with a carriage return can never be patched back (`ReturnsAreNotRestored`);
  `RoundTripIff` says exactly when patch and reverse patch restore the stored file.
- A raising event or audit write ends the tool loop, and the call it belongs to can be left without a record
  although its tool has run (`OneRecordPerCall`).

## Model

| member | source | states |
|---|---|---|
| `Locks.MemoryLockManager.LiveEntry` | infrastructure/locks/memory_lock.py:14-20 | finds an entry exactly when it has not expired, and may drop an expired one without any later acquire, renew or query noticing |
| `Locks.MemoryLockManager.Acquire` | infrastructure/locks/memory_lock.py:22-26 | succeeds exactly when no live entry exists, so a dead holder never blocks; every other entry is untouched |
| `Locks.MemoryLockManager.Renew` | infrastructure/locks/memory_lock.py:28-33 | succeeds exactly for the live owner and extends only that entry; a refusal changes nothing observable |
| `Locks.MemoryLockManager.Release` | infrastructure/locks/memory_lock.py:35-38 | removes the entry exactly when the caller's id owns it, and touches no other |
| `OwnershipLaws.EntryGoneIff` | infrastructure/locks/memory_lock.py:35-38 | from any state and by any step, a lock entry goes exactly when it is evicted or its own worker lets go of it |
| `OwnershipLaws.EntryWrittenIff` | infrastructure/locks/memory_lock.py:22-26 | an entry is written exactly by an accepted delivery, for one TTL; otherwise it stays as it was |
| `OwnershipLaws.OvertakenReleaseKeeps` | apps/worker/execution.py:93-94 | the lock of the worker that took over survives the release of the one it overtook |
| `Tasks.TaskRepository.SetStatus` | persistence/repositories/tasks.py:76-93 | overwrites any status, drops the lease exactly when the new status is terminal, leaves other rows alone |
| `Tasks.TaskRepository.Claim` | persistence/repositories/tasks.py:114-144 | one conditional update: succeeds exactly on an existing, non-terminal row that is free or whose lease has run out |
| `Tasks.TaskRepository.Release` | persistence/repositories/tasks.py:155-161 | clears the lease columns only when they name this worker |
| `Tasks.TaskRepository.FindUnclaimed` | persistence/repositories/tasks.py:163-177 | the first QUEUED and free rows in creation order, cut at the limit |
| `Tasks.TaskRepository.FindRecoverable` | persistence/repositories/tasks.py:179-192 | the rows with an expired lease that are neither terminal nor READY_FOR_REVIEW, cut at the limit, in whatever order the database meets them |
| `Tasks.SelectExact` | persistence/repositories/tasks.py:171-192 | a limited query returns only matching rows and misses one only when its limit is used up |
| `Tasks.SelectInOrder` | persistence/repositories/tasks.py:171-192 | a query selects in its order, and nothing that matches before a selected row is passed over |
| `Tasks.SelectCompleteIff` | persistence/repositories/tasks.py:163-192 | a limited query misses nothing if and only if no more rows match than its limit |
| `Tasks.Sweep` | apps/worker/consumer.py:116-132 | re-publishes exactly the reported tasks, in order, and counts them |
| `Tasks.SweepBatchSound` | apps/worker/consumer.py:116-132 | a sweep re-publishes due tasks only |
| `Tasks.SweepBatchExact` | apps/worker/consumer.py:116-132 | it re-publishes every due task if and only if each of the two queries matches at most 20 rows |
| `OwnershipLaws.SweptIsClaimable` | persistence/repositories/tasks.py:163-192 | what a sweep re-publishes is neither over nor in review, and is queued and free or left behind past its lease |
| `OwnershipLaws.StartsIff` | persistence/repositories/tasks.py:114-144 | a workflow starts exactly by a claim of an open row that nobody holds or whose lease has run out, and then has the lease for one TTL |
| `OwnershipLaws.InspectedIff` | apps/worker/execution.py:70-77 | a delivery goes on past its row check exactly when the task exists and is in none of the five final statuses |
| `OwnershipLaws.LeaseEndsIff` | persistence/repositories/tasks.py:76-161 | a worker loses its lease exactly by its own release, a terminal outcome or decision, or a later claim |
| `OwnershipLaws.RunEndsIff` | apps/worker/execution.py:92-96 | a running workflow is left exactly by an outcome, an exception or the death of its worker |
| `OwnershipLaws.DeliveryEndsIff` | apps/worker/execution.py:93-96 | a delivery is over exactly after its lease release, an exception in `finally`, or the death of its worker |
| `OwnershipLaws.DecisionLeaves` | apps/api/services.py:124-168 | approve, reject and cancel are accepted exactly in their statuses, leave COMPLETED, REJECTED and CANCELLED, and end the lease |
| `OwnershipLaws.CheckpointParksIff` | agents/supervisor.py:59-63 | a checkpoint parks a task exactly at `human_review`, never queues it, and leaves its lease alone |
| `OwnershipLaws.StatusNamesNode` | core/domain.py:112-126 | read backwards, each status shown is that of one node, but for the test nodes and for `halt`, which shows PLANNING |
| `Execution.TaskExecutor.Open` | apps/worker/execution.py:59-90 | lock, row check and lease refine the machine's first four steps; each way of being skipped leaves the rows alone |
| `Execution.TaskExecutor.Look` | apps/worker/execution.py:70-82 | under the lock, the workflow starts exactly on an existing, open row whose lease could be taken |
| `Execution.BodyAt` | agents/supervisor.py:63-101 | each node is checkpointed twice, before it and after it, in order |
| `Execution.TaskExecutor.RunNodes` | agents/supervisor.py:54-105 | the status writes around nodes are the machine's checkpoints and never cost the runner its lease |
| `Execution.TaskExecutor.Execute` | apps/worker/execution.py:59-96 | a whole delivery equals its script of machine steps; it never leaves the lock behind, hands a finished task back free, and drops this worker's lease even when it claimed nothing |
| `Exclusion.RunKeepsLockInv` | apps/worker/execution.py:59-96 | while no live execution outlives its lock, in every reachable state each holder still owns the very entry it created |
| `Exclusion.StepExcludesIff` | infrastructure/locks/memory_lock.py:14-38 | while entries do not vanish, the only step that lets a second holder in is a delivery to a live worker under an overdue holder |
| `Exclusion.ExclusionExact` | apps/worker/execution.py:59-96 | over every run in which no lock entry vanishes: at most one execution of a task is between acquire and release throughout if and only if no such delivery occurs |
| `Exclusion.HoldersExact` | apps/worker/execution.py:59-96 | over every run, with no assumption: the same if and only if no delivery is accepted while the task has a holder |
| `Exclusion.MutualExclusion` | apps/worker/execution.py:59-96 | in particular over every interleaving of workers, crashes, duplicates and API decisions in which no live execution outlives its TTL |
| `OwnershipLimits.SlowHolderBreaksExclusion` | infrastructure/locks/memory_lock.py:22-26 | a holder that reaches its TTL is joined by a second one, for every TTL |
| `Lease.StepRunsIff` | persistence/repositories/tasks.py:114-144 | from any state with at most one workflow a task, the only step that starts a second is a claim that succeeds beside a runner |
| `Lease.RunnersExact` | persistence/repositories/tasks.py:114-161 | over every run, with no assumption: no two workflows of a task run together throughout if and only if no such claim occurs, mid-run cancels and dropped leases included |
| `Lease.StepKeepsRunnerInv` | persistence/repositories/tasks.py:114-161 | with one delivery per worker and no decision mid-run every running workflow keeps its lease, and a claim beside it can only succeed once it is overdue |
| `Lease.LeaseExact` | persistence/repositories/tasks.py:114-161 | over every such run, even if lock entries vanish: no two workflows of a task run together throughout if and only if no claim meets a runner past its lease |
| `Lease.LeaseExclusion` | persistence/repositories/tasks.py:114-161 | in particular while executions finish inside their lease, even if lock entries vanish at any moment |
| `OwnershipLimits.SlowRunBreaksLease` | persistence/repositories/tasks.py:114-144 | a workflow that outlives its lease is joined by a second one, for every TTL |
| `OwnershipLimits.CancelMidRunBreaksLease` | apps/api/services.py:162-168 | a cancel mid-run plus one checkpoint lets a second workflow start beside the first |
| `Recovery.RunKeepsSweepInv` | apps/worker/execution.py:59-96 | in every reachable state leases name a dead worker or a live claimant (or sit on a row that is safe to free, once `finally` may raise), and a holder's lock dies no later than its lease |
| `Recovery.SweepComplete` | persistence/repositories/tasks.py:163-192 | whatever crashes or raises, every task that is not parked is QUEUED and free, or leased, so one of the two queries will see it; an exception may leave a running workflow whose row is QUEUED or parked, and `finally` may raise |
| `Recovery.RecoverableIsRecovered` | apps/worker/consumer.py:116-132 | a reported idle task is taken over by a fresh delivery if and only if no third worker's live lock entry is in the way |
| `Recovery.DueTaskIsTakenOver` | apps/worker/consumer.py:116-132 | over every run, with no assumption: after one TTL any live worker's fresh delivery of a due task starts the workflow |
| `Coverage.ReleaseCoversIff` | persistence/repositories/tasks.py:155-161 | a lease release keeps every task in sight if and only if it does not free a row of its own worker that is neither QUEUED nor parked |
| `Coverage.StepCoversIff` | apps/worker/execution.py:59-96 | from a state with every task in sight, exactly two kinds of step lose one: such a release, and a checkpoint that reopens a row whose lease a decision has ended |
| `Coverage.CoverageExact` | apps/worker/execution.py:59-96 | over every run, with no assumption: all tasks stay in sight throughout if and only if no step is one of those two |
| `Coverage.EscapeOrphansIff` | apps/worker/execution.py:92-96 | an exception out of a running workflow loses its task if and only if the row is neither QUEUED nor parked |
| `Coverage.ResumesIff` | apps/worker/consumer.py:116-132 | over every run, with no assumption: one TTL and a tick later a task that is not parked starts at any fresh delivery, and the next sweep re-publishes it (within its limits) if and only if it is queued and free, or leased |
| `Coverage.EveryTaskResumes` | apps/worker/consumer.py:116-132 | in every run without an orphaning step each task that is not parked is so re-published and started |
| `OwnershipLimits.ThirdWorkerBlocks` | apps/worker/execution.py:62-82 | a run meeting every assumption in which the reported task is turned away |
| `OwnershipLimits.EscapeOrphansTask` | apps/worker/execution.py:92-96 | an escaping exception leaves a task that neither query covers |
| `OwnershipLimits.SecondDeliveryDropsLease` | apps/worker/execution.py:93-96 | a delivery whose row read raised releases, between its two releases, the lease of a duplicate at the same worker |
| `TestOutcome.ParseDotnetOutput` | tools/testing/test.py:63-102 | the in-place reconciliation of counts and failures refines the declarative outcome |
| `TestOutcome.FirstReportsExact` | tools/testing/test.py:78-92 | every failing test name is kept, once |
| `TestOutcome.KeptReportsAreFirst` | tools/testing/test.py:78-92 | a report is kept exactly when no earlier report has its name |
| `TestOutcome.OkHasNoFailures` | tools/testing/test.py:41-102 | an outcome is ok exactly when the run exited cleanly and neither the totals nor the text report a failure; an ok outcome lists none |
| `TestOutcome.ParseIs` | tools/testing/test.py:63-102 | which counts an outcome reports: from one summary line or the other, else from the parsed failures, else one for an unclean exit with nothing passed |
| `TestOutcome.UncleanExitFails` | tools/testing/test.py:94-102 | an unclean exit without a passed test always counts a failure, and lists none exactly when only a summary line counts some |
| `TestOutcome.CrashIsReported` | tools/testing/test.py:96-101 | a crashed run lists exactly one failure, made up from the end of its output |
| `TestOutcome.StuckIff` | graph/fingerprint.py:53-57 | two rounds are seen as stuck exactly when they list the same signatures, and some; failures that are only counted never are |
| `TestOutcome.SignaturesCompareAsMultisets` | graph/fingerprint.py:43-50 | two rounds compare equal exactly when they failed with the same signatures in any order |
| `Workflow.Continues` | graph/workflow.py:59-92 | a run can always go on unless its last node is `human_review` or `halt` |
| `Runner.TruncateIs` | tools/runner.py:48-52 | up to 200,000 characters everything is shown, beyond that the first and the last 100,000 and a line that says how many are missing |
| `Runner.ShownWholeIff` | tools/runner.py:48-52 | a command's output is handed on as it was exactly when it has at most 200,000 characters, or its middle already reads like the marker |
| `Runner.DecimalReadsBack` | tools/runner.py:52 | the number of characters that the marker names can be read back from it |
| `Runner.ShownChar` | tools/runner.py:48-52 | of a longer output nothing is shown but its first and last 100,000 characters and the marker |
| `Supervisor.AnySightOccurs` | tools/git/diff.py:21-53 | the driver leaves out nothing that a look at the worktree can show |
| `Supervisor.Gate` | graph/nodes.py:215-246 | the gate judges what it sees of the worktree diff with thresholds on, or the recorded files when there is no worktree |
| `Supervisor.RunTests` | graph/nodes.py:130-180 | a test run records its counts, its verdict and one more history round; without a test project it only sets the verdict |
| `Supervisor.Work` | graph/nodes.py:73-351 | every node, for every answer, makes a legal step whose result is that answer; it fails exactly on an exception or a missing worktree |
| `Supervisor.WorkflowRun.Instrument` | agents/supervisor.py:54-105 | whatever the node does, the state before and the merged state after it are saved, in that order |
| `Supervisor.WorkflowRun.RunGraph` | graph/workflow.py:59-99 | for every answer of the environment the driven trace is a run from `plan` in which node k got answer k, stopped at END or at the recursion limit, with two saves per node |
| `Supervisor.WorkflowRun.Invoke` | apps/worker/execution.py:148-179 | a session is a run that stops at END or at the recursion limit and leaves exactly that session's saves behind, and the status of its verdict |
| `WorkflowRouting.AfterRiskAssessment` | graph/routing.py:19-23 | the node after `risk_assessment` is `halt` exactly when it hit a boundary, a blocking rule matches a candidate, or it failed under an older BLOCK |
| `WorkflowRouting.ImplementationIsCleared` | graph/routing.py:19-23 | in any run `implementation` comes only directly after an assessment that hit no boundary and cleared every candidate |
| `WorkflowRouting.AfterGate` | graph/routing.py:57-60 | the node after the gate is `halt` exactly when it hit a boundary, a blocking rule matches what it sees, or it failed under an older BLOCK |
| `WorkflowRouting.GateAsksForPerson` | policies/evaluator.py:166-197 | when no rule fires, the gate asks for a person exactly because of too many files or changed lines |
| `WorkflowRouting.AfterTestNode` | graph/routing.py:26-54 | after `run_tests`: the gate exactly when nothing failed and the run was ok; else `halt` exactly when the budget is spent, two rounds failed alike or too many files changed |
| `WorkflowRouting.AfterCommitNode` | graph/routing.py:63-72 | after `git_commit`: CI exactly when there is a sha, its own or an older one |
| `WorkflowRouting.AfterCiNode` | graph/routing.py:75-84 | after CI: the pull request exactly on a good status, its own or an older one; else `halt` exactly when a person is required or the budget is spent |
| `WorkflowRouting.FixedEdges` | graph/workflow.py:59-92 | the other edges, over any run |
| `WorkflowRouting.VerdictIs` | graph/nodes.py:320-351 | a fresh run's verdict is that of its last node, if that is `human_review` or `halt` and returned |
| `WorkflowRouting.TestResultsOfStep` | graph/nodes.py:130-180 | test results change only by a test run that returns, which adds the signatures of its failures as one more round |
| `WorkflowRouting.ModifiedFilesOfStep` | graph/nodes.py:59-69 | the files on record are those of the last node that looked at the worktree and returned |
| `WorkflowRouting.CommitAndCiOfStep` | graph/nodes.py:248-312 | sha, CI status and the request for a person are each set by their own node only |
| `WorkflowRouting.PolicyActionOfStep` | agents/supervisor.py:72-80 | the policy action is a decision's own, or BLOCK after a boundary violation or an empty commit |
| `WorkflowRouting.WithoutWorktree` | tools/workspace.py:60-64 | without a worktree tests, commit, CI and pull request hit the workspace boundary |
| `WorkflowRouting.WorktreeOfStep` | graph/nodes.py:104-312 | the worktree changes only in nodes that edit, test or commit, and only `implementation` creates one |
| `WorkflowBound.CountersOfStep` | graph/nodes.py:182-312 | each counter moves only when its own loop node returns |
| `WorkflowBound.RemainingDecreases` | graph/routing.py:26-84 | the routing functions enter a loop node only while its budget lasts, and a measure over both loops falls at every node, up to what a failing loop node is charged |
| `WorkflowBound.ChargedBound` | graph/workflow.py:59-99 | any run, whatever fails, has at most 11 + 2 * debugging budget + 5 * CI budget nodes plus two per failure of `debugging` and five per failure of `ci_debugging` |
| `WorkflowBound.BoundedRun` | graph/workflow.py:59-99 | if the loop nodes return, whatever else fails, a run ends at `human_review` or `halt` within 11 + 2 * debugging budget + 5 * CI budget nodes |
| `WorkflowBound.BackstopUnreached` | graph/workflow.py:97-99 | at the default budgets that is 27, below the limit of 60 |
| `WorkflowBound.FailingLoopUnbounded` | agents/supervisor.py:88-96 | a failing `debugging` spends no budget: such runs get arbitrarily long |
| `WorkflowBound.FailingStartIsRun` | agents/supervisor.py:72-96 | such a loop is reachable from every fresh start |
| `WorkflowCommit.CommitNeighbours` | graph/routing.py:26-60 | any run enters a commit only from an unblocked gate directly behind a test run with the flag set, on an unchanged worktree |
| `WorkflowCommit.FirstCommitIsTested` | graph/nodes.py:130-265 | in a fresh run with any failures the first commit follows the gate and a test run that returned ok, on the same diff |
| `WorkflowCommit.CommitTestedIff` | graph/routing.py:26-33 | in any run a commit is tested if and only if the test run two nodes earlier did not itself fail |
| `WorkflowCommit.CommitJudgedIff` | graph/nodes.py:215-265 | in any run what a completed commit records was judged in full and not blocked if and only if the gate directly before it did not itself fail and saw all of it; when all four git commands exited cleanly in time, if and only if it did not fail and all outputs fit |
| `WorkflowCommit.WholeIff` | tools/git/diff.py:21-53 | a look at the worktree whose four commands exited cleanly in time misses nothing exactly when diff, names and counts all fit |
| `WorkflowCommit.HiddenBlockIff` | graph/nodes.py:215-265 | the engine, shown everything, would block a commit exactly when a blocking rule fires on the whole diff, and none fires on what a gate that returned has seen |
| `WorkflowCommit.EveryCommitIsTestedAndJudged` | graph/nodes.py:215-265 | in a failure-free run every commit records the tested diff, the engine's decision on what the gate saw of it is not BLOCK, and the gate saw all of it if all four git commands exited cleanly in time and the outputs fit |
| `WorkflowLimits.LaterCommitCanBeUntested` | graph/nodes.py:130-147 | a fresh run with one failing node commits an edit that no test run has seen |
| `WorkflowLimits.FirstCommitCanBeUnjudged` | graph/routing.py:57-60 | a fresh run whose failing gate lets the first commit record an edit that every decision of the engine blocks |
| `WorkflowLimits.HiddenSecretIsCommitted` | tools/git/diff.py:24-53 | a fresh, failure-free run in which every command finishes commits a secret in the elided middle of a long diff |
| `WorkflowCommit.ShaComesFromCommit` | graph/nodes.py:248-265 | a non-empty sha in a fresh run stems from an earlier completed commit |
| `WorkflowCommit.ReadyImpliesCommit` | graph/routing.py:63-84 | any fresh run that ends READY_FOR_REVIEW completed a commit |
| `WorkflowCommit.ReviewPath` | graph/workflow.py:79-92 | such a run ends with commit, CI, pull request, review |
| `WorkflowCommit.ReadyRunIsClean` | graph/nodes.py:267-336 | failure-free, it opened one pull request, asked once, and its last CI result was PASSED or SKIPPED |
| `WorkflowProgress.StuckRunsHalt` | graph/routing.py:35-54 | from any start, resumed ones included, equal non-empty neighbours that the run adds are the last two, and the very next routing decision halts |
| `WorkflowProgress.NoProgressBrake` | graph/fingerprint.py:53-57 | in a fresh run with any failures, equal non-empty neighbours of the history are its last two entries |
| `WorkflowBudget.RunKeepsBudget` | agents/supervisor.py:59-101 | in every checkpoint of a run both counters are within budget and never step back |
| `WorkflowBudget.BudgetsSurviveCrashes` | apps/worker/execution.py:124-138 | the same across any sequence of sessions, crashes between or inside nodes, and resumes; stepping back needs the recursion backstop |
| `WorkflowBudget.BackstopIff` | graph/workflow.py:97-99 | the backstop fires exactly on a run of sixty nodes of which the last does not lead to END |
| `WorkflowBudget.LastSave` | apps/worker/execution.py:148-179 | what the next worker finds: the state after the last node, before it if the crash came in its middle, or after the backstop the starting state |
| `WorkflowBudget.FreshSessionEnds` | apps/worker/execution.py:191-198 | a fresh session ends in review exactly when `human_review` returned, with a person exactly when `halt` returned or the backstop fired, and as failed when its last node failed |
| `WorkflowBudget.BackstopRewinds` | apps/worker/execution.py:151-168 | the backstop's save steps back exactly when the session had advanced a counter |
| `WorkflowBudget.RewindHappens` | apps/worker/execution.py:151-168 | a session that hits the limit after one completed debugging round |
| `Patch.Find` | tools/filesystem/apply_patch.py:71-82 | the first occurrence, or none exactly when there is no occurrence |
| `Patch.CountZero` | tools/filesystem/apply_patch.py:71-75 | the greedy count is zero exactly when the anchor does not occur |
| `Patch.CountOne` | tools/filesystem/apply_patch.py:71-80 | the greedy count is one exactly when every other occurrence overlaps the leftmost one |
| `Patch.CountIsReached` | tools/filesystem/apply_patch.py:71 | so many places of the anchor do not overlap, |
| `Patch.CountIsMost` | tools/filesystem/apply_patch.py:71 | and never more: the greedy count is the largest number of occurrences without overlap |
| `Patch.PatchedAtLeftmost` | tools/filesystem/apply_patch.py:82-83 | in the text as read, a successful patch is prefix + new text + suffix at the leftmost occurrence |
| `Patch.UnborderedAnchorIsUnique` | tools/filesystem/apply_patch.py:67-82 | for an anchor that cannot overlap itself a patch succeeds exactly when the anchor has one position |
| `Patch.ReverseTextRestores` | tools/filesystem/apply_patch.py:67-83 | in the text as read, the reverse patch undoes a patch whenever the new text occurs at one position only |
| `Patch.ReverseTextIff` | tools/filesystem/apply_patch.py:67-83 | it undoes the patch if and only if it is accepted at the place where the patch was made |
| `Patch.ReadHasNoReturns` | tools/filesystem/apply_patch.py:70 | a file is read without carriage returns, and as it is stored exactly when it holds none |
| `Patch.ReadPieces` | tools/filesystem/apply_patch.py:70 | a file is read piece by piece, except that a CR and the LF behind it are one newline |
| `Patch.ReturnsAreNeverFound` | tools/filesystem/apply_patch.py:70-75 | an anchor with a carriage return is always refused |
| `Patch.ReversePatchRestores` | tools/filesystem/apply_patch.py:67-83 | on files: the reverse patch is refused if the new text holds a carriage return; otherwise, if that text has one position, it stores the file as it was read |
| `Patch.RoundTripIff` | tools/filesystem/apply_patch.py:67-83 | patch and reverse patch restore the stored file if and only if neither it nor the new text holds a carriage return and the reverse patch is accepted at the place of the patch |
| `Patch.ReturnsAreNotRestored` | tools/filesystem/apply_patch.py:70-83 | two files that do not come back: one whose new text has a CRLF, one that held a CRLF itself |
| `Patch.Workspace.ApplyPatch` | tools/filesystem/apply_patch.py:50-92 | rewrites one existing, permitted file, as read and then patched, or refuses and changes nothing; each refusal is reported exactly in its case |
| `Symbols.BlockEnd` | retrieval/ingestion/parser.py:71-86 | the nested loops return the first line on which the scan stops, or the last line; always between the start line and the file end |
| `Symbols.StopIsFirstClose` | retrieval/ingestion/parser.py:71-86 | when no closing brace stands before the block's first open one, that is the line where the depth first returns to zero after it, or the last line if it never does; what follows the block does not matter |
| `Symbols.FirstCloseIsStop` | retrieval/ingestion/parser.py:75-85 | under the same condition no first return to zero is missed by looking only after `}` and at line ends |
| `Symbols.CrossedZero` | retrieval/ingestion/parser.py:71-86 | a depth below zero after the first open brace has come down through a return to zero |
| `Symbols.NestedOpensFirst` | retrieval/ingestion/parser.py:89-120 | the condition covers a method inside a class, although the enclosing brace makes the depth negative later |
| `Symbols.LateOpenIsMissed` | retrieval/ingestion/parser.py:75-85 | without the condition a first return to zero can be missed |
| `Symbols.BlocksLaminar` | retrieval/ingestion/parser.py:71-86 | two blocks that open first are disjoint or nested |
| `Symbols.ParsePython` | retrieval/ingestion/parser.py:123-146 | one symbol per definition line, in order, ending before the first later non-blank line indented no deeper |
| `Symbols.PythonSymbolsAre` | retrieval/ingestion/parser.py:123-146 | each symbol names what its line defines, a class or a function, and each defining line has one |
| `Symbols.BracedSymbolsAre` | retrieval/ingestion/parser.py:89-167 | each symbol carries the name and kind found on its line, and each defining line has one |
| `Symbols.IndentIsLeading` | retrieval/ingestion/parser.py:129-133 | the indentation of a line is the length of its leading whitespace |
| `Symbols.BodyIs` | retrieval/ingestion/parser.py:129-135 | a body ends before the first later line that starts with no more whitespace than its definition; lines of whitespace belong to it |
| `Symbols.ParseBraced` | retrieval/ingestion/parser.py:149-167 | one symbol per definition line, in order, spanning its brace-delimited block inside the file |
| `Symbols.BracedSpansLaminar` | retrieval/ingestion/parser.py:89-167 | any two C#, TypeScript or JavaScript spans of a file whose definitions open first are disjoint or nested |
| `Symbols.PythonSpansLaminar` | retrieval/ingestion/parser.py:123-146 | any two spans of a file are disjoint or nested |
| `Chunker.WindowChunks` | retrieval/ingestion/chunker.py:68-87 | the loop ends and yields the non-blank windows, each 65 lines after the one before |
| `Chunker.NonBlankLineCovered` | retrieval/ingestion/chunker.py:68-87 | every non-blank line lies in a chunk |
| `Chunker.WindowOverlaps` | retrieval/ingestion/chunker.py:68-87 | no chunk exceeds 80 lines; chunks that share a line are neighbours and share exactly 15, so no line lies in three |
| `Chunker.WindowsShare` | retrieval/ingestion/chunker.py:71-86 | a next window exists exactly when a window stops short of the end, and the two always share exactly 15 lines |
| `Chunker.ChunkFile` | retrieval/ingestion/chunker.py:35-65 | one chunk per usable symbol, windows only when no symbol is usable |
| `Chunker.ChunksAreSlices` | retrieval/ingestion/chunker.py:31-65 | every chunk is an in-range, non-blank slice of at most 161 lines: cut at its newlines it gives back exactly those lines of the file |
| `Chunker.SymbolHasChunk` | retrieval/ingestion/chunker.py:43-65 | every symbol of at most 161 lines that are not all blank has a chunk |
| `Chunker.WindowsIff` | retrieval/ingestion/chunker.py:43-51 | chunks are windows exactly when no symbol has at most 161 lines |
| `Chunker.PythonChunksLaminar` | retrieval/ingestion/chunker.py:43-65 | chunks made from Python symbols are disjoint or nested |
| `Chunker.BracedChunksLaminar` | retrieval/ingestion/chunker.py:43-65 | so are chunks made from braced symbols whose definitions open first |
| `Lexical.LexicalIndex.constructor` | retrieval/search/lexical.py:45-56 | the counters agree with direct counting: term frequencies, lengths, average, and in how many documents a term occurs |
| `Lexical.IdfPositive` | retrieval/search/lexical.py:70-71 | every weight is positive, for any logarithm positive above one |
| `Lexical.IdfIs` | retrieval/search/lexical.py:71 | a weight is the logarithm of (N + 1) / (n + 1/2) |
| `Lexical.RarerWeighsMore` | retrieval/search/lexical.py:70-71 | for an increasing logarithm a rarer term weighs more |
| `Lexical.LengthNormIs` | retrieval/search/lexical.py:72 | the length norm is a quarter plus three quarters of the length in units of the average |
| `Lexical.TermScoreIs` | retrieval/search/lexical.py:73 | a share times (occurrences + 1.5 * norm) is 2.5 * weight * occurrences |
| `Lexical.MoreOccurrencesScoreHigher` | retrieval/search/lexical.py:73 | more occurrences score higher |
| `Lexical.LongerScoresLower` | retrieval/search/lexical.py:72-73 | a longer document scores lower for the same occurrences |
| `Lexical.ScoreOfTerm` | retrieval/search/lexical.py:66-73 | a term's share follows from its multiplicity in the chunk and the number of chunks that contain it |
| `Lexical.ScoreAddsUp` | retrieval/search/lexical.py:65-73 | scores add up over the query, repetitions included |
| `Lexical.AverageIs` | retrieval/search/lexical.py:53 | the average length times the number of chunks is the number of all tokens |
| `Lexical.TiesByIndex` | retrieval/search/lexical.py:75 | chunks with the same score are ranked in index order |
| `Lexical.ScorePositiveIffShared` | retrieval/search/lexical.py:63-74 | a score is positive exactly when chunk and query share a token |
| `Lexical.LexicalIndex.ScoreOf` | retrieval/search/lexical.py:65-73 | the incremental score from the counters is the BM25 sum from direct counts |
| `Lexical.LexicalIndex.Search` | retrieval/search/lexical.py:58-76 | the loop and the in-place sort return the ranked positive chunks, cut at the limit |
| `Lexical.SearchExact` | retrieval/search/lexical.py:58-76 | unlimited, exactly the chunks that share a token with the query, each with its score |
| `Lexical.SearchTopK` | retrieval/search/lexical.py:75-76 | otherwise a descending top-k: nothing left out scores higher than anything kept |
| `Fusion.Fuse` | retrieval/search/hybrid.py:59-68 | the incremental map holds exactly the listed chunks, each with the sum of 1/(60+position) over all lists and exactly the sources that found it |
| `Fusion.FusionIgnoresListOrder` | retrieval/search/hybrid.py:60-68 | the fused score does not depend on the order of the lists |
| `Fusion.DominanceRespected` | retrieval/search/hybrid.py:60-68 | a chunk ahead of another in every list gets the higher score, strictly once it is listed |
| `Fusion.OnePlace` | retrieval/search/hybrid.py:61-63 | a chunk that stands once in a list, at position p from zero, gets 1 / (61 + p) for it |
| `Fusion.MoreListsAdd` | retrieval/search/hybrid.py:60-68 | scores add up over the lists |
| `Fusion.FirstSeenInOrder` | retrieval/search/hybrid.py:59-73 | the candidates stand in the order in which the lists first name them |
| `Fusion.TiesKept` | retrieval/search/hybrid.py:70-74 | candidates with the same score keep the order in which the lists first named them |
| `Fusion.HighestIsMaximum` | retrieval/search/reranker.py:54 | the score that normalizes the candidates is the highest among them |
| `Fusion.Rerank` | retrieval/search/reranker.py:50-59 | rescoring and sorting in place refine the reranked sequence |
| `Fusion.NewScores` | retrieval/search/reranker.py:54-57 | a result's score, without what its features add, times the highest fused score is its own fused score |
| `Fusion.ScaleDoesNotMatter` | retrieval/search/reranker.py:54-57 | one positive factor for all fused scores changes nothing |
| `Fusion.RerankedPermutes` | retrieval/search/reranker.py:50-59 | reranking permutes the candidates, orders them by the new score and keeps ids distinct |
| `Fusion.Search` | retrieval/search/hybrid.py:50-75 | ranks all listed chunks by fused score with ties as first seen, reranks the first 3 * limit and cuts at limit |
| `Fusion.SearchResultSound` | retrieval/search/hybrid.py:70-75 | the result has distinct ids, is ordered, has limit or all entries, is drawn from the lists, and nothing cut before reranking had a higher fused score |
| `ToolLoop.Agent.ExecuteTool` | agents/base.py:126-184 | the policy stops the task exactly at an available mutating call on a path that a blocking rule matches; a raising write ends the loop exactly when it is reached; one audit record on every way out on which it can still be written, and a file change exactly for a successful permitted write |
| `ToolLoop.Agent.RunCalls` | agents/base.py:108-120 | calls run in order until a stop; without one, results answer all calls with matching ids and error flags in order |
| `ToolLoop.Agent.Run` | agents/base.py:76-122 | for every model and tool behaviour the loop ends within the turn limit, roles alternate, completed tool turns are answered in full, and on every exit, raising writes included, the log accounts for every attempted call, every audit record and every file change; it stops for the policy if and only if its last attempt is a forbidden call, for a write if and only if that raised, and no earlier attempt is either |
| `ToolLoop.OneRecordPerCall` | agents/base.py:142-204 | on every exit each attempted call has exactly one record, in order, except that the last has none if and only if the event before its record, or the record itself, raised |
| `ToolLoop.GateIsPathBlocked` | agents/base.py:145-155 | the pre-write gate blocks a path exactly when a blocking rule matches it |
| `ToolLoop.ChangesExact` | agents/base.py:174-184 | a change is recorded exactly for the successful, audited attempts with a mutating tool that passed all gates and named a path, unless that very write raised |
| `Policy.MaxRisk` | core/domain.py:62-70 | the highest of the given levels, ignoring missing ones |
| `Policy.Resolve` | policies/evaluator.py:83-91 | the strongest action and the highest risk that any finding carries |
| `Policy.Evaluate` | policies/evaluator.py:124-199 | one finding per firing rule, in rule order, then the scope findings, resolved to the strongest |
| `Policy.OneFindingPerRule` | policies/evaluator.py:142-161 | exactly one finding for each firing rule, in the order of the rules |
| `Policy.CheckPathWritable` | policies/evaluator.py:201-203 | the decision for one path with thresholds off and no diff |
| `Policy.ActionReaches` | policies/evaluator.py:124-199 | the action is at least a given strength exactly when some firing rule or threshold demands it |
| `Policy.RiskReaches` | policies/evaluator.py:124-199 | the same for the risk level |
| `Policy.ScopeDecision` | policies/evaluator.py:166-197 | when no rule fires: never a block, a person exactly above a limit, high risk exactly above the file limit, medium above the line limit or from the medium file count on |
| `Policy.MoreNeverWeakens` | policies/evaluator.py:124-164 | adding files, rules or changed lines never weakens a decision, with thresholds and added text on or off |
| `Policy.DecisionIgnoresOrder` | policies/evaluator.py:124-164 | order and repetition of rules do not matter, nor does the order of files; their repetition does not while thresholds are off |
| `Policy.FileListIsJoin` | policies/evaluator.py:83-203 | action and risk of a file list are the maximum over its single-file checks |
| `Policy.CommitGateBlocksOnContentOnly` | policies/evaluator.py:142-203 | once every file passed the pre-write gate, the commit gate blocks exactly when a blocking rule matches the added text |

## Left out

- LLM, SCM and CI adapters, prompts, subprocesses, git, SQLAlchemy and Redis internals: environment.
- Regular expressions, glob matching, the hash, tokenization, the logarithm and the reranker's feature score are abstract functions; floats are reals and time is an integer clock shared by lock table and rows.
- Interleaving inside one atomic step, such as the row read and the API decision's two status writes; the clock is one for all workers.
- Redis locks and the Redis reclaim path of the sweep, `renew_lease` (no caller), idempotency keys, events and the concurrency semaphore.
- Ack and nack of queue messages: a redelivery is just another delivery step.
- The state fields that no route or budget reads: plan, summaries, halt texts, token usage, risk level, files touched, previous failures.
- Vector search, symbol search and citations; the ranked lists are arbitrary inputs of fusion.
- The C#, TypeScript and JavaScript definition patterns are one abstract pattern per file.
- Line counts of a patch, file creation, and the character encoding of files and of command output.
- How git's output is split into files, added lines and line counts; of a renamed file the source sees the new path only.
- Path spelling: the pre-write gate judges a path as the model spells it, the commit gate as git prints it.
- SSE replay, evaluation scoring, cost estimates, commit and pull-request text, web and API plumbing.
- Fusion.SearchResultSound: a negative limit, which Python counts from the end, is modelled by `Fusion.Search` but not covered here.
- Supervisor.WorkflowRun.Invoke: a session that a crash, or a raising event or checkpoint write, cuts short is modelled as a prefix of a run, not by the driver.
- Execution.TaskExecutor.Execute: one delivery without interference; interleavings are the subject of the state machine.
