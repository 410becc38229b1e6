/** The policy engine: strongest action wins, highest risk wins. Glob and regex matching stay abstract. */
module Policy {
  import opened Domain
  import opened Sorting

  datatype RiskLevel = Low | Medium | High

  datatype Action = Allow | HumanApproval | Block

  function RiskOrder(r: RiskLevel): nat {
    match r case Low => 0 case Medium => 1 case High => 2
  }

  function Strength(a: Action): nat {
    match a case Allow => 0 case HumanApproval => 1 case Block => 2
  }

  datatype Rule = Rule(name: string, action: Action, risk: RiskLevel, patterns: seq<string>,
                       paths: seq<string>, content: seq<string>)

  datatype Finding = Finding(rule: string, action: Action, risk: RiskLevel)

  datatype Decision = Decision(action: Action, risk: RiskLevel, findings: seq<Finding>)

  /** Thresholds and the two matchers; `hits` is a path match, `greps` a match in the added lines. */
  datatype Engine = Engine(rules: seq<Rule>, maxFiles: int, maxLines: int, mediumFiles: int,
                           hits: (Rule, string) -> bool, greps: (Rule, string) -> bool)

  predicate HitsAny(engine: Engine, rule: Rule, files: seq<string>) {
    exists i :: 0 <= i < |files| && engine.hits(rule, files[i])
  }

  predicate GrepsAdded(engine: Engine, rule: Rule, added: string) {
    rule.content != [] && added != "" && engine.greps(rule, added)
  }

  predicate Fires(engine: Engine, rule: Rule, files: seq<string>, added: string) {
    HitsAny(engine, rule, files) || GrepsAdded(engine, rule, added)
  }

  function RuleFindings(engine: Engine, rules: seq<Rule>, files: seq<string>, added: string): seq<Finding> {
    if rules == [] then []
    else
      var n := |rules| - 1;
      RuleFindings(engine, rules[..n], files, added) +
      if Fires(engine, rules[n], files, added)
      then [Finding(rules[n].name, rules[n].action, rules[n].risk)] else []
  }

  function ScopeFindings(engine: Engine, files: seq<string>, lines: Option<int>): seq<Finding> {
    (if |files| > engine.maxFiles then [Finding("scope-sprawl", HumanApproval, High)] else []) +
    (if lines.Some? && lines.value > engine.maxLines then [Finding("large-change", HumanApproval, Medium)] else []) +
    (if |files| >= engine.mediumFiles then [Finding("multi-file-change", Allow, Medium)] else [])
  }

  /** The maximum of the findings, stated without saying how it is found. */
  ghost predicate StrongestAction(findings: seq<Finding>, action: Action) {
    && (forall i :: 0 <= i < |findings| ==> Strength(findings[i].action) <= Strength(action))
    && (action == Allow || exists i :: 0 <= i < |findings| && findings[i].action == action)
  }

  ghost predicate HighestRisk(findings: seq<Finding>, risk: RiskLevel) {
    && (forall i :: 0 <= i < |findings| ==> RiskOrder(findings[i].risk) <= RiskOrder(risk))
    && (risk == Low || exists i :: 0 <= i < |findings| && findings[i].risk == risk)
  }

  method MaxRisk(levels: seq<Option<RiskLevel>>) returns (best: RiskLevel)
    ensures forall i :: 0 <= i < |levels| && levels[i].Some? ==> RiskOrder(levels[i].value) <= RiskOrder(best)
    ensures best == Low || exists i :: 0 <= i < |levels| && levels[i] == Some(best)
  {
    best := Low;
    for k := 0 to |levels|
      invariant forall i :: 0 <= i < k && levels[i].Some? ==> RiskOrder(levels[i].value) <= RiskOrder(best)
      invariant best == Low || exists i :: 0 <= i < k && levels[i] == Some(best)
    {
      if levels[k].Some? && RiskOrder(levels[k].value) > RiskOrder(best) {
        best := levels[k].value;
      }
    }
  }

  method Resolve(findings: seq<Finding>) returns (d: Decision)
    ensures d.findings == findings
    ensures StrongestAction(findings, d.action) && HighestRisk(findings, d.risk)
  {
    var action := Allow;
    for k := 0 to |findings|
      invariant StrongestAction(findings[..k], action)
    {
      if Strength(findings[k].action) > Strength(action) {
        action := findings[k].action;
      }
      ghost var next := findings[..k + 1];
      assert next[k] == findings[k] && forall i :: 0 <= i < k ==> next[i] == findings[..k][i];
    }
    assert findings[..|findings|] == findings;
    var risks := seq(|findings|, i requires 0 <= i < |findings| => Some(findings[i].risk));
    var risk := MaxRisk(risks);
    assert forall i :: 0 <= i < |findings| ==> risks[i] == Some(findings[i].risk);
    d := Decision(action, risk, findings);
  }

  ghost function AllFindings(engine: Engine, files: seq<string>, added: string,
                             lines: Option<int>, scope: bool): seq<Finding> {
    RuleFindings(engine, engine.rules, files, added) + if scope then ScopeFindings(engine, files, lines) else []
  }

  /** `d` is what the engine decides about these files and added lines. */
  ghost predicate Decides(engine: Engine, files: seq<string>, added: string,
                          lines: Option<int>, scope: bool, d: Decision) {
    && d.findings == AllFindings(engine, files, added, lines, scope)
    && StrongestAction(d.findings, d.action) && HighestRisk(d.findings, d.risk)
  }

  method Evaluate(engine: Engine, files: seq<string>, added: string, lines: Option<int>, scope: bool)
      returns (d: Decision)
    ensures Decides(engine, files, added, lines, scope, d)
  {
    var findings := [];
    for k := 0 to |engine.rules|
      invariant findings == RuleFindings(engine, engine.rules[..k], files, added)
    {
      var rule := engine.rules[k];
      assert engine.rules[..k + 1][..k] == engine.rules[..k];
      if HitsAny(engine, rule, files) {
        findings := findings + [Finding(rule.name, rule.action, rule.risk)];
      } else if rule.content != [] && added != "" && engine.greps(rule, added) {
        findings := findings + [Finding(rule.name, rule.action, rule.risk)];
      }
    }
    assert engine.rules[..|engine.rules|] == engine.rules;
    if !scope {
      d := Resolve(findings);
      assert findings + [] == findings;
      return;
    }
    var ruleFindings := findings;
    if |files| > engine.maxFiles {
      findings := findings + [Finding("scope-sprawl", HumanApproval, High)];
    }
    if lines.Some? && lines.value > engine.maxLines {
      findings := findings + [Finding("large-change", HumanApproval, Medium)];
    }
    if |files| >= engine.mediumFiles {
      findings := findings + [Finding("multi-file-change", Allow, Medium)];
    }
    assert findings == ruleFindings + ScopeFindings(engine, files, lines);
    d := Resolve(findings);
  }

  /** Pre-write gate for one path. */
  method CheckPathWritable(engine: Engine, path: string) returns (d: Decision)
    ensures Decides(engine, [path], "", None, false, d)
  {
    d := Evaluate(engine, [path], "", None, false);
  }

  ghost function FiresOn(engine: Engine, files: seq<string>, added: string): Rule -> bool {
    r => Fires(engine, r, files, added)
  }

  /** One finding for each firing rule, in the order of the rules. */
  lemma {:induction false} OneFindingPerRule(engine: Engine, rules: seq<Rule>, files: seq<string>, added: string)
    ensures var firing := Matching(rules, FiresOn(engine, files, added));
      var findings := RuleFindings(engine, rules, files, added);
      && |findings| == |firing|
      && forall i :: 0 <= i < |firing| ==> findings[i] == Finding(firing[i].name, firing[i].action, firing[i].risk)
  {
    hide Fires;
    if rules != [] {
      var n := |rules| - 1;
      OneFindingPerRule(engine, rules[..n], files, added);
      MatchingAppend(rules[..n], rules[n], FiresOn(engine, files, added));
      assert rules == rules[..n] + [rules[n]];
    }
  }

  lemma {:induction false} RuleFindingsExact(engine: Engine, rules: seq<Rule>, files: seq<string>,
                                             added: string, f: Finding)
    ensures f in RuleFindings(engine, rules, files, added) <==>
      exists r :: r in rules && Fires(engine, r, files, added) && f == Finding(r.name, r.action, r.risk)
  {
    if rules != [] {
      var n := |rules| - 1;
      RuleFindingsExact(engine, rules[..n], files, added, f);
      assert rules == rules[..n] + [rules[n]];
    }
  }

  /** The action is at least `k` exactly when some firing rule, or a scope threshold, demands it. */
  lemma ActionReaches(engine: Engine, files: seq<string>, added: string,
                      lines: Option<int>, scope: bool, d: Decision, k: nat)
    requires Decides(engine, files, added, lines, scope, d) && k > 0
    ensures Strength(d.action) >= k <==>
      || (exists r :: r in engine.rules && Fires(engine, r, files, added) && Strength(r.action) >= k)
      || (scope && exists f :: f in ScopeFindings(engine, files, lines) && Strength(f.action) >= k)
  {
    if Strength(d.action) >= k {
      var i :| 0 <= i < |d.findings| && d.findings[i].action == d.action;
      RuleFindingsExact(engine, engine.rules, files, added, d.findings[i]);
    }
    forall r | r in engine.rules && Fires(engine, r, files, added) ensures Strength(r.action) <= Strength(d.action) {
      RuleFindingsExact(engine, engine.rules, files, added, Finding(r.name, r.action, r.risk));
      assert Finding(r.name, r.action, r.risk) in d.findings;
    }
    forall f | scope && f in ScopeFindings(engine, files, lines) ensures Strength(f.action) <= Strength(d.action) {
      assert f in d.findings;
    }
  }

  lemma RiskReaches(engine: Engine, files: seq<string>, added: string,
                    lines: Option<int>, scope: bool, d: Decision, k: nat)
    requires Decides(engine, files, added, lines, scope, d) && k > 0
    ensures RiskOrder(d.risk) >= k <==>
      || (exists r :: r in engine.rules && Fires(engine, r, files, added) && RiskOrder(r.risk) >= k)
      || (scope && exists f :: f in ScopeFindings(engine, files, lines) && RiskOrder(f.risk) >= k)
  {
    if RiskOrder(d.risk) >= k {
      var i :| 0 <= i < |d.findings| && d.findings[i].risk == d.risk;
      RuleFindingsExact(engine, engine.rules, files, added, d.findings[i]);
    }
    forall r | r in engine.rules && Fires(engine, r, files, added) ensures RiskOrder(r.risk) <= RiskOrder(d.risk) {
      RuleFindingsExact(engine, engine.rules, files, added, Finding(r.name, r.action, r.risk));
      assert Finding(r.name, r.action, r.risk) in d.findings;
    }
    forall f | scope && f in ScopeFindings(engine, files, lines) ensures RiskOrder(f.risk) <= RiskOrder(d.risk) {
      assert f in d.findings;
    }
  }

  ghost predicate SameRules(a: Engine, b: Engine) {
    a.hits == b.hits && a.greps == b.greps && forall r :: r in a.rules ==> r in b.rules
  }

  /** What a decision is about. */
  datatype Input = Input(files: seq<string>, added: string, lines: Option<int>, scope: bool)

  ghost predicate DecidesOn(engine: Engine, x: Input, d: Decision) {
    Decides(engine, x.files, x.added, x.lines, x.scope, d)
  }

  /** `y` has all the files of `x`; with thresholds on, also at least as many files and changed lines. */
  ghost predicate Covers(y: Input, x: Input) {
    && y.added == x.added && y.scope == x.scope && (forall f :: f in x.files ==> f in y.files)
    && (x.scope ==> |x.files| <= |y.files| && (x.lines.Some? ==> y.lines.Some? && x.lines.value <= y.lines.value))
  }

  ghost predicate SameLimits(a: Engine, b: Engine) {
    a.maxFiles == b.maxFiles && a.maxLines == b.maxLines && a.mediumFiles == b.mediumFiles
  }

  lemma MoreStillFires(a: Engine, x: Input, b: Engine, y: Input)
    requires SameRules(a, b) && Covers(y, x)
    ensures forall r :: r in a.rules && Fires(a, r, x.files, x.added) ==> r in b.rules && Fires(b, r, y.files, y.added)
  {
    forall r | r in a.rules && HitsAny(a, r, x.files) ensures HitsAny(b, r, y.files) {
      var i :| 0 <= i < |x.files| && a.hits(r, x.files[i]);
      assert x.files[i] in y.files;
      var j :| 0 <= j < |y.files| && y.files[j] == x.files[i];
      assert b.hits(r, y.files[j]);
    }
  }

  lemma MoreScopeFindings(a: Engine, x: Input, b: Engine, y: Input)
    requires SameLimits(a, b) && Covers(y, x) && x.scope
    ensures forall f :: f in ScopeFindings(a, x.files, x.lines) ==> f in ScopeFindings(b, y.files, y.lines)
  {
  }

  /** More rules, files or changed lines never weaken a decision, with or without thresholds and added text. */
  lemma MoreNeverWeakens(a: Engine, x: Input, d: Decision, b: Engine, y: Input, d': Decision)
    requires DecidesOn(a, x, d) && DecidesOn(b, y, d')
    requires SameRules(a, b) && Covers(y, x) && (x.scope ==> SameLimits(a, b))
    ensures Strength(d.action) <= Strength(d'.action) && RiskOrder(d.risk) <= RiskOrder(d'.risk)
  {
    MoreStillFires(a, x, b, y);
    if x.scope { MoreScopeFindings(a, x, b, y); }
    hide Decides, Fires, ScopeFindings;
    if d.action != Allow {
      ActionReaches(a, x.files, x.added, x.lines, x.scope, d, Strength(d.action));
      ActionReaches(b, y.files, y.added, y.lines, y.scope, d', Strength(d.action));
    }
    if d.risk != Low {
      RiskReaches(a, x.files, x.added, x.lines, x.scope, d, RiskOrder(d.risk));
      RiskReaches(b, y.files, y.added, y.lines, y.scope, d', RiskOrder(d.risk));
    }
  }

  /** When no rule fires and thresholds are on: never a block; a person is asked for exactly above a limit; the
      risk is high above the file limit, medium above the line limit or from the medium number of files on. */
  lemma ScopeDecision(engine: Engine, x: Input, d: Decision)
    requires DecidesOn(engine, x, d) && x.scope
    requires forall r :: r in engine.rules ==> !Fires(engine, r, x.files, x.added)
    ensures var many, long := |x.files| > engine.maxFiles, x.lines.Some? && x.lines.value > engine.maxLines;
      && d.action == (if many || long then HumanApproval else Allow)
      && d.risk == (if many then High else if long || |x.files| >= engine.mediumFiles then Medium else Low)
  {
    ActionReaches(engine, x.files, x.added, x.lines, x.scope, d, 1);
    ActionReaches(engine, x.files, x.added, x.lines, x.scope, d, 2);
    RiskReaches(engine, x.files, x.added, x.lines, x.scope, d, 1);
    RiskReaches(engine, x.files, x.added, x.lines, x.scope, d, 2);
    hide Decides, Fires;
    ScopeHolds(engine, x.files, x.lines);
  }

  lemma ScopeHolds(engine: Engine, files: seq<string>, lines: Option<int>)
    ensures var fs := ScopeFindings(engine, files, lines);
      var many, long := |files| > engine.maxFiles, lines.Some? && lines.value > engine.maxLines;
      && ((exists f :: f in fs && Strength(f.action) >= 1) <==> many || long)
      && ((exists f :: f in fs && Strength(f.action) >= 2) <==> false)
      && ((exists f :: f in fs && RiskOrder(f.risk) >= 1) <==> many || long || |files| >= engine.mediumFiles)
      && ((exists f :: f in fs && RiskOrder(f.risk) >= 2) <==> many)
  {
    var fs := ScopeFindings(engine, files, lines);
    if |files| > engine.maxFiles { assert Finding("scope-sprawl", HumanApproval, High) in fs; }
    if lines.Some? && lines.value > engine.maxLines { assert Finding("large-change", HumanApproval, Medium) in fs; }
    if |files| >= engine.mediumFiles { assert Finding("multi-file-change", Allow, Medium) in fs; }
  }

  function Paths(files: seq<string>): Input {
    Input(files, "", None, false)
  }

  /** Neither the order nor the repetition of rules changes a decision, nor the order of files; nor does the
      repetition of files, as long as thresholds are off. */
  lemma DecisionIgnoresOrder(a: Engine, x: Input, d: Decision, b: Engine, y: Input, d': Decision)
    requires DecidesOn(a, x, d) && DecidesOn(b, y, d')
    requires SameRules(a, b) && SameRules(b, a) && Covers(x, y) && Covers(y, x) && (x.scope ==> SameLimits(a, b))
    ensures d.action == d'.action && d.risk == d'.risk
  {
    MoreNeverWeakens(a, x, d, b, y, d');
    MoreNeverWeakens(b, y, d', a, x, d);
  }

  lemma WorstAction(engine: Engine, files: seq<string>, d: Decision, singles: seq<Decision>) returns (i: nat)
    requires Decides(engine, files, "", None, false, d) && |singles| == |files| && d.action != Allow
    requires forall i :: 0 <= i < |files| ==> Decides(engine, [files[i]], "", None, false, singles[i])
    ensures i < |files| && singles[i].action == d.action
  {
    ActionReaches(engine, files, "", None, false, d, Strength(d.action));
    var r :| r in engine.rules && Fires(engine, r, files, "") && Strength(r.action) >= Strength(d.action);
    i :| 0 <= i < |files| && engine.hits(r, files[i]);
    assert engine.hits(r, [files[i]][0]);
    ActionReaches(engine, [files[i]], "", None, false, singles[i], Strength(d.action));
    MoreNeverWeakens(engine, Paths([files[i]]), singles[i], engine, Paths(files), d);
  }

  lemma WorstRisk(engine: Engine, files: seq<string>, d: Decision, singles: seq<Decision>) returns (i: nat)
    requires Decides(engine, files, "", None, false, d) && |singles| == |files| && d.risk != Low
    requires forall i :: 0 <= i < |files| ==> Decides(engine, [files[i]], "", None, false, singles[i])
    ensures i < |files| && singles[i].risk == d.risk
  {
    RiskReaches(engine, files, "", None, false, d, RiskOrder(d.risk));
    var r :| r in engine.rules && Fires(engine, r, files, "") && RiskOrder(r.risk) >= RiskOrder(d.risk);
    i :| 0 <= i < |files| && engine.hits(r, files[i]);
    assert engine.hits(r, [files[i]][0]);
    RiskReaches(engine, [files[i]], "", None, false, singles[i], RiskOrder(d.risk));
    MoreNeverWeakens(engine, Paths([files[i]]), singles[i], engine, Paths(files), d);
  }

  /** With thresholds off and no diff, a file list is decided exactly by its worst single-file check. */
  lemma FileListIsJoin(engine: Engine, files: seq<string>, d: Decision, singles: seq<Decision>)
    requires Decides(engine, files, "", None, false, d) && |singles| == |files|
    requires forall i :: 0 <= i < |files| ==> Decides(engine, [files[i]], "", None, false, singles[i])
    ensures forall i :: 0 <= i < |files| ==>
      Strength(singles[i].action) <= Strength(d.action) && RiskOrder(singles[i].risk) <= RiskOrder(d.risk)
    ensures d.action == Allow || exists i :: 0 <= i < |files| && singles[i].action == d.action
    ensures d.risk == Low || exists i :: 0 <= i < |files| && singles[i].risk == d.risk
  {
    forall i | 0 <= i < |files|
      ensures Strength(singles[i].action) <= Strength(d.action) && RiskOrder(singles[i].risk) <= RiskOrder(d.risk)
    {
      MoreNeverWeakens(engine, Paths([files[i]]), singles[i], engine, Paths(files), d);
    }
    if d.action != Allow { var i := WorstAction(engine, files, d, singles); }
    if d.risk != Low { var i := WorstRisk(engine, files, d, singles); }
  }

  /** If every file passed the pre-write gate, the commit gate blocks exactly when a blocking rule
      matches the added text - never because of a path or a scope threshold. */
  lemma CommitGateBlocksOnContentOnly(engine: Engine, files: seq<string>, added: string,
                                      lines: Option<int>, d: Decision,
                                      gates: seq<Decision>)
    requires Decides(engine, files, added, lines, true, d) && |gates| == |files|
    requires forall i :: 0 <= i < |files| ==>
      Decides(engine, [files[i]], "", None, false, gates[i]) && gates[i].action != Block
    ensures d.action == Block <==> exists r :: r in engine.rules && r.action == Block && GrepsAdded(engine, r, added)
  {
    NoBlockedPath(engine, files, gates);
    ActionReaches(engine, files, added, lines, true, d, 2);
    hide Decides, HitsAny;
  }

  lemma NoBlockedPath(engine: Engine, files: seq<string>, gates: seq<Decision>)
    requires |gates| == |files| && forall i :: 0 <= i < |files| ==>
      Decides(engine, [files[i]], "", None, false, gates[i]) && gates[i].action != Block
    ensures forall r :: r in engine.rules && r.action == Block ==> !HitsAny(engine, r, files)
  {
    forall r | r in engine.rules && r.action == Block && HitsAny(engine, r, files) ensures false {
      var i :| 0 <= i < |files| && engine.hits(r, files[i]);
      assert engine.hits(r, [files[i]][0]);
      ActionReaches(engine, [files[i]], "", None, false, gates[i], 2);
    }
  }
}
