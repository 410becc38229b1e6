/** The no-progress brake: two equal non-empty failure fingerprints in a row end the run. */
module WorkflowProgress {
  import opened Domain
  import opened TestOutcome
  import opened Workflow

  /** Equal non-empty neighbours, the second of them at `from` or later, are the last two or do not occur. */
  ghost predicate RepeatsOnlyAtEnd(history: seq<seq<Signature>>, from: nat) {
    forall k :: 0 <= k < |history| - 2 && from <= k + 1 ==> history[k] != history[k + 1] || history[k] == []
  }

  /** The last two rounds are equal, and the second of them is new. */
  predicate NewlyStuck(history: seq<seq<Signature>>, from: nat) {
    |history| > from && IsStuck(history)
  }

  lemma HistoryOfStep(setting: Setting, e: Event)
    requires Step(setting, e)
    ensures e.after.state.history == e.before.state.history
      || (e.node == RunTestsNode && exists round ::
            e.after.state.history == e.before.state.history + [round] && (e.after.state.testRunOk ==> round == []))
  {
    if e.node == RunTestsNode && e.result.Tested? {
      OkHasNoFailures(e.result.output);
      var round := SignaturesFor(setting.hash, Parse(e.result.output).failures);
      assert e.after.state.history == e.before.state.history + [round];
    }
  }

  /** From any start, resumed or fresh: a repeat that this run adds is caught by the very next routing decision. */
  lemma {:induction false} StuckRunsHalt(setting: Setting, start: World, tr: Trace, i: nat)
    requires Run(setting, start, tr) && i < |tr|
    ensures start.state.history <= tr[i].before.state.history <= tr[i].after.state.history
    ensures var n := |start.state.history|;
      && RepeatsOnlyAtEnd(tr[i].after.state.history, n)
      && (NewlyStuck(tr[i].before.state.history, n) ==> tr[i].node == HaltNode)
      && (NewlyStuck(tr[i].after.state.history, n) ==> tr[i].node in {RunTestsNode, HaltNode})
      && (NewlyStuck(tr[i].after.state.history, n) && tr[i].node == RunTestsNode ==>
            AfterTests(tr[i].after.state) == HaltNode)
  {
    hide Step;
    if i > 0 {
      StuckRunsHalt(setting, start, tr, i - 1);
      assert Follows(tr[i - 1], tr[i]);
    }
    HistoryOfStep(setting, tr[i]);
    var n, h, h' := |start.state.history|, tr[i].before.state.history, tr[i].after.state.history;
    assert i > 0 ==> RepeatsOnlyAtEnd(h, n);
    if h' != h {
      assert !NewlyStuck(h, n);
      assert h' == h + [h'[|h|]];
    }
  }

  /** Fresh run, any failures: the brake works, so a repeat can only be the last two rounds. */
  lemma NoProgressBrake(setting: Setting, start: World, tr: Trace)
    requires Run(setting, start, tr) && Fresh(start) && tr != []
    ensures RepeatsOnlyAtEnd(tr[|tr| - 1].after.state.history, 0)
    ensures IsStuck(tr[|tr| - 1].before.state.history) ==> tr[|tr| - 1].node == HaltNode
  {
    StuckRunsHalt(setting, start, tr, |tr| - 1);
  }
}
