/** Runs that show what the commit guarantees do not cover: failing nodes, and output that is cut. */
module WorkflowLimits {
  import opened Domain
  import Policy
  import opened TestOutcome
  import opened Workflow
  import opened Runner
  import WorkflowCommit

  /** Git's output read in the simplest way: at most one file, one changed line, every line an added one. */
  function Over(rules: seq<Policy.Rule>, hits: (Policy.Rule, string) -> bool,
                greps: (Policy.Rule, string) -> bool): Setting {
    Setting(Policy.Engine(rules, 12, 800, 4, hits, greps), f => 0,
            t => t, n => if n == "" then [] else [n], c => |c|)
  }

  /** No rules at all. */
  function Permissive(): Setting {
    Over([], (r, p) => false, (r, a) => false)
  }

  /** One rule that blocks every path. */
  function Blocking(): Setting {
    Over([Policy.Rule("everything", Policy.Block, Policy.High, [], [], [])], (r, p) => true, (r, a) => false)
  }

  /** One rule that blocks an added secret, here anything with an exclamation mark. */
  function Watching(): Setting {
    Over([Policy.Rule("secret", Policy.Block, Policy.High, [], [], ["!"])], (r, p) => false, (r, a) => '!' in a)
  }

  ghost predicate OneOfThem(setting: Setting) {
    setting == Permissive() || setting == Blocking() || setting == Watching()
  }

  const APPROVED := Policy.Decision(Policy.Allow, Policy.Low, [])

  const EDIT := Diff("", "a.cs", "+")
  const LATER_EDIT := Diff("", "b.cs", "+")

  /** Three hundred thousand characters with a secret in the middle. */
  function SecretText(): string {
    seq(300_000, i => if i == 150_000 then '!' else 'x')
  }

  function SecretEdit(): Diff {
    Diff(SecretText(), "a.cs", "+")
  }

  predicate SmallEdit(d: Diff) {
    |d.names| == 4 && |d.counts| == 1
  }

  function Seen(d: Diff): Sight {
    Sight(true, Capture(Truncate(d.text), true), Capture(Truncate(d.names), true), Capture(Truncate(d.counts), true))
  }

  function Start(): World {
    World(InitialState(3, 2, 25), Diff("", "", ""), false)
  }

  /** The worlds between the nodes: assessed, edited, tested, committed, CI failed, edited again. */
  function Assessed0(): World { Start().(state := Start().state.(policyAction := Some(Policy.Allow))) }
  function Edited(d: Diff): World { World(Assessed0().state.(modifiedFiles := [d.names]), d, true) }
  function Tested0(d: Diff): World { Edited(d).(state := Edited(d).state.(testRunOk := true)) }
  function Committed0(d: Diff): World { Tested0(d).(state := Tested0(d).state.(commitSha := "c1")) }
  function CiFailed0(): World { Committed0(EDIT).(state := Committed0(EDIT).state.(ciStatus := CiFailure)) }
  function EditedAgain(): World {
    World(CiFailed0().state.(ciIteration := 1, modifiedFiles := [LATER_EDIT.names]), LATER_EDIT, true)
  }

  function Beginning(d: Diff): Trace {
    [Event(PlanNode, Returns, Start(), Start(), NO_SIGHT),
     Event(RepositoryNode, Returns, Start(), Start(), NO_SIGHT),
     Event(RiskNode, Assessed([], APPROVED), Start(), Assessed0(), NO_SIGHT),
     Event(ImplementationNode, Returns, Assessed0(), Edited(d), Seen(d))]
  }

  /** The first commit; `gate` says how the policy gate ends. */
  function FirstCommit(d: Diff, gate: Result): Trace {
    [Event(TestGenerationNode, Returns, Edited(d), Edited(d), Seen(d)),
     Event(RunTestsNode, NoTestProject, Edited(d), Tested0(d), NO_SIGHT),
     Event(SecurityPolicyNode, gate, Tested0(d), Tested0(d), Seen(d)),
     Event(GitCommitNode, Committed("c1"), Tested0(d), Committed0(d), NO_SIGHT)]
  }

  /** CI fails and an agent edits again; */
  function SecondEdit(): Trace {
    [Event(CiValidationNode, CiRan(CiFailure), Committed0(EDIT), CiFailed0(), NO_SIGHT),
     Event(CiDebuggingNode, Diagnosed(false), CiFailed0(), EditedAgain(), Seen(LATER_EDIT))]
  }

  /** then the second test run fails to run, and the edit is committed all the same. */
  function SecondCommit(): Trace {
    [Event(RunTestsNode, Fails(false), EditedAgain(), EditedAgain(), NO_SIGHT),
     Event(SecurityPolicyNode, Judged(APPROVED), EditedAgain(), EditedAgain(), Seen(LATER_EDIT)),
     Event(GitCommitNode, Committed("c2"), EditedAgain(),
           EditedAgain().(state := EditedAgain().state.(commitSha := "c2")), NO_SIGHT)]
  }

  ghost predicate Segment(setting: Setting, tr: Trace) {
    && (forall i :: 0 <= i < |tr| ==> Step(setting, tr[i]))
    && (forall i :: 0 < i < |tr| ==> Follows(tr[i - 1], tr[i]))
  }

  lemma SegmentsJoin(setting: Setting, a: Trace, b: Trace)
    requires Segment(setting, a) && Segment(setting, b) && a != [] && b != [] && Follows(a[|a| - 1], b[0])
    ensures Segment(setting, a + b)
  {
    var tr := a + b;
    forall i | 0 < i < |tr| ensures Follows(tr[i - 1], tr[i]) {
      if i < |a| {
        assert Follows(a[i - 1], a[i]);
      } else if i > |a| {
        assert Follows(b[i - |a| - 1], b[i - |a|]);
      }
    }
  }

  lemma SegmentIsRun(setting: Setting, tr: Trace)
    requires Segment(setting, tr) && tr != [] && tr[0].node == PlanNode
    ensures Run(setting, tr[0].before, tr)
  {
  }

  /** Short outputs are seen as they are. */
  lemma SeenShort(setting: Setting, d: Diff)
    requires OneOfThem(setting) && SmallEdit(d)
    ensures Sees(Seen(d), d) && Clear(Seen(d)) && setting.files(Seen(d).names.text) == [d.names]
    ensures ShownQuestion(setting, Seen(d)) == Policy.Input([d.names], Truncate(d.text), Some(1), true)
    ensures FullQuestion(setting, d) == Policy.Input([d.names], d.text, Some(1), true)
  {
  }

  lemma NoPathNoBlock(setting: Setting)
    requires OneOfThem(setting)
    ensures Policy.Decides(setting.engine, [], "", None, false, APPROVED)
  {
    NoFindings(setting.engine, setting.engine.rules, [], "");
  }

  lemma ReadingSteps(setting: Setting, d: Diff)
    requires OneOfThem(setting)
    ensures |Beginning(d)| == 4 && forall i :: 0 <= i < 3 ==> Step(setting, Beginning(d)[i])
  {
    NoPathNoBlock(setting);
    hide OneOfThem, Policy.Decides, InitialState;
  }

  lemma EditingStep(setting: Setting, d: Diff)
    requires OneOfThem(setting) && SmallEdit(d)
    ensures Step(setting, Beginning(d)[3])
  {
    SeenShort(setting, d);
    hide Seen, OneOfThem, InitialState;
  }

  lemma BeginningSteps(setting: Setting, d: Diff)
    requires OneOfThem(setting) && SmallEdit(d)
    ensures forall i :: 0 <= i < |Beginning(d)| ==> Step(setting, Beginning(d)[i])
  {
    hide Step, Beginning;
    ReadingSteps(setting, d);
    EditingStep(setting, d);
  }

  lemma BeginningIsSegment(setting: Setting, d: Diff)
    requires OneOfThem(setting) && SmallEdit(d)
    ensures Segment(setting, Beginning(d))
  {
    BeginningSteps(setting, d);
    hide Step, Seen, Permissive, Blocking, Watching;
  }

  lemma FirstCommitSteps(setting: Setting, d: Diff, gate: Result)
    requires OneOfThem(setting) && SmallEdit(d)
    requires gate == Fails(false)
      || (gate == Judged(APPROVED) && Policy.DecidesOn(setting.engine, ShownQuestion(setting, Seen(d)), APPROVED))
    ensures forall i :: 0 <= i < |FirstCommit(d, gate)| ==> Step(setting, FirstCommit(d, gate)[i])
  {
    SeenShort(setting, d);
    hide Seen, Permissive, Blocking, Watching, Policy.Decides, ShownQuestion;
  }

  lemma FirstCommitIsSegment(setting: Setting, d: Diff, gate: Result)
    requires OneOfThem(setting) && SmallEdit(d)
    requires gate == Fails(false)
      || (gate == Judged(APPROVED) && Policy.DecidesOn(setting.engine, ShownQuestion(setting, Seen(d)), APPROVED))
    ensures Segment(setting, FirstCommit(d, gate))
  {
    FirstCommitSteps(setting, d, gate);
    hide Step, Seen, Permissive, Blocking, Watching;
  }

  lemma SecondEditIsSegment()
    ensures Segment(Permissive(), SecondEdit())
  {
    SeenShort(Permissive(), LATER_EDIT);
    hide Seen, Permissive;
  }

  lemma SecondCommitSteps()
    ensures forall i :: 0 <= i < |SecondCommit()| ==> Step(Permissive(), SecondCommit()[i])
  {
    SeenShort(Permissive(), LATER_EDIT);
    NothingToFind(Permissive(), LATER_EDIT);
    hide Seen, Permissive, Policy.Decides, ShownQuestion, Route;
  }

  lemma SecondCommitIsSegment()
    ensures Segment(Permissive(), SecondCommit())
  {
    SecondCommitSteps();
    hide Step, Seen, Permissive;
  }

  /** Nothing fires on a small edit whose text, as seen, gives no rule a hit. */
  lemma NothingToFind(setting: Setting, d: Diff)
    requires setting == Permissive() || (setting == Watching() && '!' !in Truncate(d.text))
    requires SmallEdit(d)
    ensures Policy.DecidesOn(setting.engine, ShownQuestion(setting, Seen(d)), APPROVED)
  {
    SeenShort(setting, d);
    QuietQuestion(setting, ShownQuestion(setting, Seen(d)));
  }

  lemma QuietQuestion(setting: Setting, x: Policy.Input)
    requires setting == Permissive() || (setting == Watching() && '!' !in x.added)
    requires |x.files| == 1 && x.lines == Some(1) && x.scope
    ensures Policy.DecidesOn(setting.engine, x, APPROVED)
  {
    var e := setting.engine;
    NoFindings(e, e.rules, x.files, x.added);
  }

  lemma {:induction false} NoFindings(e: Policy.Engine, rules: seq<Policy.Rule>, files: seq<string>, added: string)
    requires forall r :: r in rules ==> !Policy.Fires(e, r, files, added)
    ensures Policy.RuleFindings(e, rules, files, added) == []
  {
    if rules != [] { NoFindings(e, rules[..|rules| - 1], files, added); }
  }

  /** A fresh run up to its first commit. */
  lemma RunToFirstCommit(setting: Setting, d: Diff, gate: Result)
    requires Segment(setting, Beginning(d)) && Segment(setting, FirstCommit(d, gate))
    ensures var tr := Beginning(d) + FirstCommit(d, gate);
      && |tr| == 8 && Segment(setting, tr) && Run(setting, Start(), tr) && Fresh(Start())
      && tr[5] == FirstCommit(d, gate)[1] && tr[6] == FirstCommit(d, gate)[2] && tr[7] == FirstCommit(d, gate)[3]
  {
    var a, b := Beginning(d), FirstCommit(d, gate);
    assert |a| == 4 && |b| == 4 && Follows(a[3], b[0]) && a[0].node == PlanNode && a[0].before == Start();
    hide Segment, Follows;
    SegmentsJoin(setting, a, b);
    SegmentIsRun(setting, a + b);
  }

  lemma FirstPart()
    ensures Segment(Permissive(), Beginning(EDIT)) && Segment(Permissive(), FirstCommit(EDIT, Judged(APPROVED)))
  {
    hide Segment, Beginning, FirstCommit, Policy.DecidesOn, ShownQuestion, Permissive;
    NothingToFind(Permissive(), EDIT);
    BeginningIsSegment(Permissive(), EDIT);
    FirstCommitIsSegment(Permissive(), EDIT, Judged(APPROVED));
  }

  lemma SecondPart()
    ensures Segment(Permissive(), SecondEdit() + SecondCommit())
  {
    SecondEditIsSegment();
    SecondCommitIsSegment();
    assert |SecondEdit()| == 2 && Follows(SecondEdit()[1], SecondCommit()[0]);
    hide Segment, SecondEdit, SecondCommit, Follows;
    SegmentsJoin(Permissive(), SecondEdit(), SecondCommit());
  }

  lemma LastCommitIsUntested()
    ensures var tr := SecondEdit() + SecondCommit();
      && |tr| == 5 && Follows(FirstCommit(EDIT, Judged(APPROVED))[3], tr[0])
      && tr[4].node == GitCommitNode && tr[4].result == Committed("c2")
      && !WorkflowCommit.TestsPassed(tr[2]) && tr[4].before.diff == LATER_EDIT
    ensures FirstCommit(EDIT, Judged(APPROVED))[1].after.diff == EDIT != LATER_EDIT
  {
    assert EDIT.names[0] != LATER_EDIT.names[0];
  }

  /** The flag of an older test run lets a later, untested edit be committed when `run_tests` itself fails. */
  lemma LaterCommitCanBeUntested()
    ensures var tr := (Beginning(EDIT) + FirstCommit(EDIT, Judged(APPROVED))) + (SecondEdit() + SecondCommit());
      && Run(Permissive(), Start(), tr) && Fresh(Start()) && |tr| == 13
      && tr[12].node == GitCommitNode && tr[12].result == Committed("c2")
      && !WorkflowCommit.TestsPassed(tr[10]) && tr[12].before.diff != tr[5].after.diff
  {
    hide Segment, Step, Follows, Beginning, FirstCommit, SecondEdit, SecondCommit, WorkflowCommit.TestsPassed, Fresh,
         Start, Permissive, Run;
    FirstPart();
    SecondPart();
    LastCommitIsUntested();
    RunToFirstCommit(Permissive(), EDIT, Judged(APPROVED));
    var first, second := Beginning(EDIT) + FirstCommit(EDIT, Judged(APPROVED)), SecondEdit() + SecondCommit();
    StartsAtPlan(EDIT, first);
    SegmentsJoin(Permissive(), first, second);
    SegmentIsRun(Permissive(), first + second);
  }

  lemma StartsAtPlan(d: Diff, first: Trace)
    requires Beginning(d) <= first
    ensures first[0].node == PlanNode && first[0].before == Start()
  {
    assert first[0] == Beginning(d)[0];
  }

  lemma EveryEditIsBlocked(d: Policy.Decision)
    ensures !WorkflowCommit.Approves(Blocking(), FullQuestion(Blocking(), EDIT), d)
  {
    var s := Blocking();
    if Policy.DecidesOn(s.engine, FullQuestion(s, EDIT), d) {
      assert s.engine.rules[0] in s.engine.rules && s.engine.hits(s.engine.rules[0], FullQuestion(s, EDIT).files[0]);
      assert WorkflowCommit.BlocksOn(s, s.engine.rules[0], FullQuestion(s, EDIT));
      WorkflowCommit.BlockIff(s, FullQuestion(s, EDIT), d);
    }
  }

  /** When the gate itself fails, the very first commit of a fresh run records an edit that the engine blocks. */
  lemma FirstCommitCanBeUnjudged(d: Policy.Decision)
    ensures var tr := Beginning(EDIT) + FirstCommit(EDIT, Fails(false));
      && Run(Blocking(), Start(), tr) && Fresh(Start())
      && tr[7].node == GitCommitNode && tr[7].result == Committed("c1")
      && !WorkflowCommit.Approves(Blocking(), FullQuestion(Blocking(), tr[7].before.diff), d)
  {
    BeginningIsSegment(Blocking(), EDIT);
    FirstCommitIsSegment(Blocking(), EDIT, Fails(false));
    hide Segment, Blocking, WorkflowCommit.Approves;
    RunToFirstCommit(Blocking(), EDIT, Fails(false));
    EveryEditIsBlocked(d);
  }

  lemma SecretIsCutOut()
    ensures '!' !in Truncate(SecretText()) && '!' in SecretText()
  {
    var text := SecretText();
    assert text[150_000] == '!';
    assert '!' !in text[..HALF] && '!' !in text[|text| - HALF..];
    assert '!' !in "\n...[ chars truncated]";
    if '!' in Truncate(text) { ShownChar(text, '!'); }
  }

  lemma SecretIsBlocked(d: Policy.Decision)
    ensures !WorkflowCommit.Approves(Watching(), FullQuestion(Watching(), SecretEdit()), d)
  {
    SecretIsCutOut();
    var s, x := Watching(), FullQuestion(Watching(), SecretEdit());
    SeenShort(s, SecretEdit());
    hide SecretText;
    if Policy.DecidesOn(s.engine, x, d) {
      assert s.engine.rules[0] in s.engine.rules && Policy.GrepsAdded(s.engine, s.engine.rules[0], x.added);
      assert WorkflowCommit.BlocksOn(s, s.engine.rules[0], x);
      WorkflowCommit.BlockIff(s, x, d);
    }
  }

  lemma NothingFails(d: Diff, tr: Trace)
    requires tr == Beginning(d) + FirstCommit(d, Judged(APPROVED))
    ensures FailureFree(tr) && |tr| == 8 && tr[6].seen == Seen(d)
    ensures tr[7].node == GitCommitNode && tr[7].result == Committed("c1") && tr[7].before.diff == d
  {
  }

  /** Nothing fails and every command finishes, yet a secret in the elided middle of a long diff is committed:
      the gate allows what it sees, and any decision on all of it would be to block. */
  lemma HiddenSecretIsCommitted(d: Policy.Decision)
    ensures var tr := Beginning(SecretEdit()) + FirstCommit(SecretEdit(), Judged(APPROVED));
      && Run(Watching(), Start(), tr) && Fresh(Start()) && FailureFree(tr) && |tr| == 8
      && Clear(tr[6].seen) && tr[7].node == GitCommitNode && tr[7].result == Committed("c1")
      && !WorkflowCommit.Approves(Watching(), FullQuestion(Watching(), tr[7].before.diff), d)
  {
    hide SecretText;
    SecretIsCutOut();
    var edit := SecretEdit();
    NothingToFind(Watching(), edit);
    BeginningIsSegment(Watching(), edit);
    FirstCommitIsSegment(Watching(), edit, Judged(APPROVED));
    hide Segment, Watching, WorkflowCommit.Approves, SecretEdit, Beginning, FirstCommit;
    RunToFirstCommit(Watching(), edit, Judged(APPROVED));
    NothingFails(edit, Beginning(edit) + FirstCommit(edit, Judged(APPROVED)));
    SecretIsBlocked(d);
  }
}
