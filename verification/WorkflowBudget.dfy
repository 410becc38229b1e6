/** Loop budgets across checkpoints, crashes and resumes. */
module WorkflowBudget {
  import opened Domain
  import opened Workflow
  import WorkflowBound
  import WorkflowRouting

  /** How one worker's hold on a task ends. */
  datatype Ending =
    | Crashed(midNode: bool)   // midNode: after the last node's first checkpoint, before its second
    | Finalized                // the final state is saved once more
    | Backstop                 // recursion limit: the *starting* state is saved, with a verdict

  datatype Session = Session(start: World, trace: Trace, ending: Ending)

  /** The supervisor saves the state before and after every node. */
  function Checkpoints(tr: Trace): seq<AgentState> {
    if tr == [] then []
    else Checkpoints(tr[..|tr| - 1]) + [tr[|tr| - 1].before.state, tr[|tr| - 1].after.state]
  }

  /** Everything one session writes to the task row, in order. */
  function Saves(session: Session): seq<AgentState> {
    var saved := Checkpoints(session.trace);
    match session.ending
    case Crashed(midNode) => if midNode && saved != [] then saved[..|saved| - 1] else saved
    case Finalized => if saved == [] then [] else saved + [saved[|saved| - 1]]
    case Backstop => saved + [session.start.state.(outcome := EscalatedToHuman)]
  }

  function AllSaves(sessions: seq<Session>): seq<AgentState> {
    if sessions == [] then [] else AllSaves(sessions[..|sessions| - 1]) + Saves(sessions[|sessions| - 1])
  }

  /** What the next worker starts from: the last state saved, or a fresh one. */
  function Persisted(sessions: seq<Session>, initial: AgentState): AgentState {
    var saved := AllSaves(sessions);
    if saved == [] then initial else saved[|saved| - 1]
  }

  /** One task handled by any number of workers in turn, each resuming the last saved state at `plan`. */
  ghost predicate Lifetime(setting: Setting, initial: AgentState, sessions: seq<Session>) {
    sessions == [] ||
    var n := |sessions| - 1;
    && Lifetime(setting, initial, sessions[..n])
    && sessions[n].start.state == Persisted(sessions[..n], initial)
    && Run(setting, sessions[n].start, sessions[n].trace)
    && EndsAs(sessions[n].trace, sessions[n].ending)
  }

  /** LangGraph stops a run that has executed RECURSION_LIMIT nodes without reaching END. */
  predicate EndsAs(tr: Trace, ending: Ending) {
    && |tr| <= RECURSION_LIMIT
    && (ending.Finalized? ==> tr != [] && tr[|tr| - 1].node in {HumanReviewNode, HaltNode})
    && (ending.Backstop? ==> |tr| == RECURSION_LIMIT && tr[|tr| - 1].node !in {HumanReviewNode, HaltNode})
  }

  /** The backstop fires exactly on a run of sixty nodes of which the last does not lead to END. */
  lemma BackstopIff(tr: Trace)
    ensures EndsAs(tr, Backstop) <==>
      |tr| == 60 && tr[59].node != HumanReviewNode && tr[59].node != HaltNode
    ensures EndsAs(tr, Finalized) <==>
      0 < |tr| <= 60 && (tr[|tr| - 1].node == HumanReviewNode || tr[|tr| - 1].node == HaltNode)
  {
  }

  predicate WithinBudget(s: AgentState) {
    s.iteration <= s.maxIterations && s.ciIteration <= s.maxCiIterations
  }

  predicate NotBehind(s: AgentState, s': AgentState) {
    && s.iteration <= s'.iteration && s.ciIteration <= s'.ciIteration
    && s.maxIterations == s'.maxIterations && s.maxCiIterations == s'.maxCiIterations
  }

  /** Counters never move backwards from one element to the next. */
  ghost predicate Monotone(states: seq<AgentState>) {
    forall i :: 0 < i < |states| ==> NotBehind(states[i - 1], states[i])
  }

  lemma {:induction false} RunKeepsBudget(setting: Setting, start: World, tr: Trace)
    requires Run(setting, start, tr) && WithinBudget(start.state)
    ensures forall s :: s in Checkpoints(tr) ==> WithinBudget(s)
    ensures Monotone([start.state] + Checkpoints(tr))
    ensures |Checkpoints(tr)| == 2 * |tr|
    ensures tr != [] ==> Checkpoints(tr)[2 * |tr| - 1] == tr[|tr| - 1].after.state
  {
    hide Step;
    if tr != [] {
      var n := |tr| - 1;
      Prefix(setting, start, tr, n);
      RunKeepsBudget(setting, start, tr[..n]);
      WorkflowBound.CountersOfStep(setting, tr[n]);
      var old', all := [start.state] + Checkpoints(tr[..n]), [start.state] + Checkpoints(tr);
      assert all == old' + [tr[n].before.state, tr[n].after.state];
      if n > 0 {
        assert Follows(tr[n - 1], tr[n]);
        assert Checkpoints(tr[..n])[2 * n - 1] == tr[..n][n - 1].after.state;
      }
      assert old'[2 * n] == tr[n].before.state;
      assert WithinBudget(tr[n].before.state);
    }
  }

  /** The states around node k are saved as numbers 2k and 2k + 1. */
  lemma {:induction false} CheckpointsAt(tr: Trace, k: nat)
    requires k < |tr|
    ensures |Checkpoints(tr)| == 2 * |tr|
    ensures Checkpoints(tr)[2 * k] == tr[k].before.state && Checkpoints(tr)[2 * k + 1] == tr[k].after.state
  {
    var n := |tr| - 1;
    if k < n { CheckpointsAt(tr[..n], k); } else if n > 0 { CheckpointsAt(tr[..n], 0); }
  }

  /** What the next worker finds: the state after the last node; before it, if the crash came in its middle; and
      after the backstop the state the session had started from, handed to a person. */
  lemma LastSave(session: Session)
    requires session.trace != []
    ensures var saves, last := Saves(session), session.trace[|session.trace| - 1]; var n := |saves|;
      && n == 2 * |session.trace| +
              (if session.ending == Crashed(true) then -1 else if session.ending == Crashed(false) then 0 else 1)
      && saves[n - 1] ==
           if session.ending == Crashed(true) then last.before.state
           else if session.ending == Backstop then session.start.state.(outcome := EscalatedToHuman)
           else last.after.state
  {
    CheckpointsAt(session.trace, |session.trace| - 1);
    if session.ending == Crashed(true) {
      assert Saves(session) == Checkpoints(session.trace)[..2 * |session.trace| - 1];
    }
  }

  /** `_finalize`: the status of a task whose final state carries this verdict. */
  function FinalStatus(verdict: Verdict): TaskStatus {
    match verdict
    case EscalatedToHuman => HumanReviewRequired
    case ReadyToReview => ReadyForReview
    case Undecided => Failed
  }

  /** A fresh session that was not cut short ends in review exactly when `human_review` returned, with a person
      exactly when `halt` returned or the backstop fired, and as failed when its last node itself failed. */
  lemma FreshSessionEnds(setting: Setting, session: Session)
    requires Run(setting, session.start, session.trace) && Fresh(session.start) && session.trace != []
    requires EndsAs(session.trace, session.ending) && !session.ending.Crashed?
    ensures var saves := Saves(session); var last := session.trace[|session.trace| - 1];
      var status, done := FinalStatus(saves[|saves| - 1].outcome), session.ending == Finalized && !last.result.Fails?;
      && (status == ReadyForReview <==> done && last.node == HumanReviewNode)
      && (status == HumanReviewRequired <==> (done && last.node == HaltNode) || session.ending == Backstop)
      && (status == Failed <==> session.ending == Finalized && last.result.Fails?)
  {
    hide Saves, Run, Fresh;
    LastSave(session);
    WorkflowRouting.VerdictIs(setting, session.start, session.trace);
  }

  /** One session, seen from the state it started in. */
  lemma SessionKeepsBudget(setting: Setting, session: Session)
    requires Run(setting, session.start, session.trace) && WithinBudget(session.start.state)
    ensures forall s :: s in Saves(session) ==> WithinBudget(s)
    ensures !session.ending.Backstop? ==> Monotone([session.start.state] + Saves(session))
  {
    var start, tr := session.start, session.trace;
    RunKeepsBudget(setting, start, tr);
    var saved := Checkpoints(tr);
    if session.ending.Crashed? && Saves(session) != saved {
      assert [start.state] + Saves(session) == ([start.state] + saved)[..|saved|];
    } else if session.ending.Finalized? && saved != [] {
      assert [start.state] + Saves(session) == ([start.state] + saved) + [saved[|saved| - 1]];
    }
  }

  lemma MonotoneConcat(first: seq<AgentState>, start: AgentState, second: seq<AgentState>)
    requires Monotone(first) && Monotone([start] + second) && (first != [] ==> start == first[|first| - 1])
    ensures Monotone(first + second)
  {
    var all := first + second;
    forall i | 0 < i < |all| ensures NotBehind(all[i - 1], all[i]) {
      if i >= |first| {
        var k := i - |first| + 1;
        assert NotBehind(([start] + second)[k - 1], ([start] + second)[k]);
      }
    }
  }

  ghost predicate AllWithin(states: seq<AgentState>) {
    forall s :: s in states ==> WithinBudget(s)
  }

  /** One more session on top of what is saved. */
  lemma SessionAppends(setting: Setting, initial: AgentState, before: seq<AgentState>, session: Session)
    requires Run(setting, session.start, session.trace) && WithinBudget(initial) && AllWithin(before)
    requires session.start.state == if before == [] then initial else before[|before| - 1]
    ensures AllWithin(before + Saves(session))
    ensures !session.ending.Backstop? && Monotone([initial] + before) ==>
        Monotone([initial] + (before + Saves(session)))
  {
    hide Run, Saves, WithinBudget, Monotone;
    var saves := Saves(session);
    SessionKeepsBudget(setting, session);
    if !session.ending.Backstop? && Monotone([initial] + before) {
      MonotoneConcat([initial] + before, session.start.state, saves);
      assert [initial] + (before + saves) == ([initial] + before) + saves;
    }
  }

  predicate NoBackstop(sessions: seq<Session>) {
    forall k :: 0 <= k < |sessions| ==> !sessions[k].ending.Backstop?
  }

  /** In every state ever saved, across any crashes and resumes, both counters are within their budgets;
      and they never move backwards unless the recursion backstop saved a starting state. */
  lemma {:induction false} BudgetsSurviveCrashes(setting: Setting, initial: AgentState, sessions: seq<Session>)
    requires Lifetime(setting, initial, sessions) && WithinBudget(initial)
    ensures AllWithin(AllSaves(sessions))
    ensures NoBackstop(sessions) ==> Monotone([initial] + AllSaves(sessions))
  {
    if sessions != [] {
      var n := |sessions| - 1;
      hide Run, EndsAs, Saves, WithinBudget, Monotone, AllWithin;
      BudgetsSurviveCrashes(setting, initial, sessions[..n]);
      SessionAppends(setting, initial, AllSaves(sessions[..n]), sessions[n]);
    } else {
      AllWithinNothing();
    }
  }

  lemma AllWithinNothing()
    ensures AllWithin([])
  {
  }

  /** The backstop saves the state the session started from: the counters rewind exactly when the session
      had advanced one. */
  lemma BackstopRewinds(setting: Setting, session: Session)
    requires Run(setting, session.start, session.trace) && WithinBudget(session.start.state)
    requires session.ending == Backstop && session.trace != []
    ensures var saves := Saves(session); var n := |saves| - 1;
        var last := session.trace[|session.trace| - 1].after.state;
      && n >= 1 && saves[n - 1] == last
      && (NotBehind(last, saves[n]) <==>
          last.iteration == session.start.state.iteration && last.ciIteration == session.start.state.ciIteration)
  {
    var start, tr := session.start, session.trace;
    RunKeepsBudget(setting, start, tr);
    MonotoneFromStart([start.state] + Checkpoints(tr), 2 * |tr|);
  }

  lemma {:induction false} MonotoneFromStart(states: seq<AgentState>, i: nat)
    requires Monotone(states) && i < |states|
    ensures NotBehind(states[0], states[i])
  {
    if i > 0 {
      MonotoneFromStart(states, i - 1);
      assert NotBehind(states[i - 1], states[i]);
    }
  }

  /** And it does happen: one completed debugging round, then a failing loop up to the limit. */
  function RewindingTrace(w: World): Trace {
    var w0 := WorkflowBound.Blocked(w);
    var w1 := w0.(state := w0.state.(iteration := 1));
    WorkflowBound.FailingLoop(
      WorkflowBound.FailingStart(w) +
      [Event(DebuggingNode, Returns, w0, w1, NO_SIGHT), WorkflowBound.Failure(RunTestsNode, w1)], w1, 25)
  }

  lemma RewindHappens(setting: Setting, w: World)
    requires Fresh(w) && w.state.maxIterations > 1 && w.state.maxFiles >= 0
    ensures var tr := RewindingTrace(w);
      && Run(setting, w, tr) && EndsAs(tr, Backstop)
      && tr[|tr| - 1].after.state.iteration == 1 && w.state.iteration == 0
  {
    var w0 := WorkflowBound.Blocked(w);
    var w1 := w0.(state := w0.state.(iteration := 1));
    var start := WorkflowBound.FailingStart(w);
    var base := start + [Event(DebuggingNode, Returns, w0, w1, NO_SIGHT), WorkflowBound.Failure(RunTestsNode, w1)];
    WorkflowBound.FailingStartIsRun(setting, w);
    forall i | 0 < i < |base| ensures Follows(base[i - 1], base[i]) {
      if i < |start| { assert Follows(start[i - 1], start[i]); }
    }
    assert Run(setting, w, base);
    WorkflowBound.FailingLoopUnbounded(setting, w, base, w1, 25);
  }
}
