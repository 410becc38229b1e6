/** Parsing a test run and fingerprinting its failures. Regular expressions and the hash are abstract. */
module TestOutcome {
  import opened Domain
  import opened Sorting

  datatype TestFailure = TestFailure(name: string, exception: string, message: string)

  /** What the regular expressions find in the combined output of one `dotnet test`. */
  datatype Output = Output(exitCode: int, timedOut: bool, totals: Option<(nat, nat, nat)>,
                           vstest: Option<(nat, nat)>, failed: seq<TestFailure>, tail: string)

  datatype Outcome = Outcome(passed: nat, failed: nat, skipped: nat, failures: seq<TestFailure>,
                             exitCode: int, timedOut: bool)

  predicate Ok(o: Outcome) {
    o.exitCode == 0 && o.failed == 0 && !o.timedOut
  }

  function Names(failures: seq<TestFailure>): set<string> {
    set i | 0 <= i < |failures| :: failures[i].name
  }

  /** Only the first report of each test name is kept. */
  function FirstReports(failures: seq<TestFailure>): seq<TestFailure> {
    if failures == [] then []
    else
      var n := |failures| - 1;
      FirstReports(failures[..n]) +
      if failures[n].name in Names(failures[..n]) then [] else [failures[n]]
  }

  function Counts(o: Output): (nat, nat, nat) {
    if o.totals.Some? then o.totals.value
    else if o.vstest.Some? then (o.vstest.value.1, o.vstest.value.0, 0)
    else (0, 0, 0)
  }

  const RUN_FAILURE := "<test run>"

  function Parse(o: Output): Outcome {
    var (failed, passed, skipped) := Counts(o);
    var failures := FirstReports(o.failed);
    var counted := if failed == 0 then |failures| else failed;
    if o.exitCode != 0 && counted == 0 && passed == 0
    then Outcome(passed, 1, skipped,
        failures + [TestFailure(RUN_FAILURE, "RunFailure", o.tail)], o.exitCode, o.timedOut)
    else Outcome(passed, counted, skipped, failures, o.exitCode, o.timedOut)
  }

  /** The loop over the matches: a name already seen is skipped. */
  method KeepFirst(matches: seq<TestFailure>) returns (failures: seq<TestFailure>)
    ensures failures == FirstReports(matches)
  {
    failures := [];
    var seen: set<string> := {};
    for k := 0 to |matches|
      invariant failures == FirstReports(matches[..k]) && seen == Names(matches[..k])
    {
      assert matches[..k + 1][..k] == matches[..k];
      assert Names(matches[..k + 1]) == Names(matches[..k]) + {matches[k].name} by {
        assert forall i :: 0 <= i < k ==> matches[..k + 1][i] == matches[..k][i];
        assert matches[..k + 1][k] == matches[k];
      }
      if matches[k].name !in seen {
        seen := seen + {matches[k].name};
        failures := failures + [matches[k]];
      }
    }
    assert matches[..|matches|] == matches;
  }

  method ParseDotnetOutput(o: Output) returns (r: Outcome)
    ensures r == Parse(o)
  {
    r := Outcome(0, 0, 0, [], o.exitCode, o.timedOut);
    if o.totals.Some? {
      r := r.(failed := o.totals.value.0, passed := o.totals.value.1, skipped := o.totals.value.2);
    } else if o.vstest.Some? {
      r := r.(passed := o.vstest.value.0, failed := o.vstest.value.1);
    }
    var failures := KeepFirst(o.failed);
    r := r.(failures := failures);
    if r.failed == 0 && r.failures != [] {
      r := r.(failed := |r.failures|);
    }
    if r.exitCode != 0 && r.failed == 0 && r.passed == 0 {
      r := r.(failed := 1, failures := r.failures + [TestFailure(RUN_FAILURE, "RunFailure", o.tail)]);
    }
  }

  /** No failure is counted without being reported, and each reported name is reported once. */
  lemma {:induction false} FirstReportsExact(failures: seq<TestFailure>)
    ensures var r := FirstReports(failures);
      && Names(r) == Names(failures) && |r| == |Names(r)|
      && (failures == [] <==> r == [])
  {
    if failures != [] {
      var n := |failures| - 1;
      FirstReportsExact(failures[..n]);
      var r, r0 := FirstReports(failures), FirstReports(failures[..n]);
      assert Names(failures) == Names(failures[..n]) + {failures[n].name} by {
        assert forall i :: 0 <= i < n ==> failures[..n][i] == failures[i];
      }
      if failures[n].name in Names(failures[..n]) {
        assert r == r0;
      } else {
        assert Names(r) == Names(r0) + {failures[n].name} by {
          assert forall i :: 0 <= i < |r0| ==> r[i] == r0[i];
          assert r[|r0|] == failures[n];
        }
      }
    }
  }

  /** What is kept are the reports that no earlier report of the same test precedes. */
  lemma {:induction false} KeptReportsAreFirst(failures: seq<TestFailure>, f: TestFailure)
    ensures f in FirstReports(failures) <==>
      exists k :: 0 <= k < |failures| && failures[k] == f && f.name !in Names(failures[..k])
  {
    if failures != [] {
      var n := |failures| - 1;
      KeptReportsAreFirst(failures[..n], f);
      assert forall k :: 0 <= k <= n ==> failures[..n][..k] == failures[..k];
    }
  }

  /** A zero failure count means nothing was reported as failed; in particular an ok run has no failures. */
  lemma OkHasNoFailures(o: Output)
    ensures Parse(o).failed == 0 ==> Parse(o).failures == [] && o.failed == []
    ensures Ok(Parse(o)) <==>
      o.exitCode == 0 && !o.timedOut && Counts(o).0 == 0 && o.failed == []
  {
    FirstReportsExact(o.failed);
  }

  /** What the outcome reports. Totals come from one summary line or the other; without a failed total the parsed
      failures are counted; a run that exits uncleanly with nothing passed and nothing failed counts as one. */
  lemma ParseIs(o: Output)
    ensures var r := Parse(o);
      && r.exitCode == o.exitCode && r.timedOut == o.timedOut
      && (o.totals.Some? ==> r.passed == o.totals.value.1 && r.skipped == o.totals.value.2)
      && (o.totals.Some? && o.totals.value.0 > 0 ==> r.failed == o.totals.value.0)
      && (o.totals.None? && o.vstest.Some? ==> r.passed == o.vstest.value.0 && r.skipped == 0)
      && (o.totals.None? && o.vstest.Some? && o.vstest.value.1 > 0 ==> r.failed == o.vstest.value.1)
      && (o.totals.None? && o.vstest.None? ==> r.passed == 0 && r.skipped == 0)
      && (Counts(o).0 == 0 && o.failed != [] ==> r.failed == |Names(o.failed)|)
      && (Counts(o).0 == 0 && o.failed == [] ==> r.failed == if o.exitCode != 0 && r.passed == 0 then 1 else 0)
  {
    FirstReportsExact(o.failed);
  }

  /** An unclean exit without a passed test is never without failures; it lists none exactly when a summary line
      counts some of which no name is found. */
  lemma UncleanExitFails(o: Output)
    requires o.exitCode != 0 && Parse(o).passed == 0
    ensures Parse(o).failed > 0
    ensures Parse(o).failures == [] <==> o.failed == [] && Counts(o).0 > 0
  {
    FirstReportsExact(o.failed);
  }

  /** A crashed run lists one failure, made up from the end of its output. */
  lemma CrashIsReported(o: Output)
    requires o.exitCode != 0 && o.failed == [] && Counts(o).0 == 0 && Parse(o).passed == 0
    ensures Parse(o).failures == [TestFailure("<test run>", "RunFailure", o.tail)]
  {
  }

  type Signature = nat

  function SignatureOf(hash: TestFailure -> Signature, failures: seq<TestFailure>): seq<Signature> {
    seq(|failures|, i requires 0 <= i < |failures| => hash(failures[i]))
  }

  function Ascending(a: Signature, b: Signature): bool {
    a <= b
  }

  function SignaturesFor(hash: TestFailure -> Signature, failures: seq<TestFailure>): (r: seq<Signature>)
    ensures |r| == |failures|
  {
    SortPermutes(SignatureOf(hash, failures), Ascending);
    assert |multiset(Sort(SignatureOf(hash, failures), Ascending))| == |failures|;
    Sort(SignatureOf(hash, failures), Ascending)
  }

  /** Two rounds look alike exactly when they failed with the same signatures, in whatever order. */
  lemma SignaturesCompareAsMultisets(hash: TestFailure -> Signature, a: seq<TestFailure>, b: seq<TestFailure>)
    ensures SignaturesFor(hash, a) == SignaturesFor(hash, b) <==>
            multiset(SignatureOf(hash, a)) == multiset(SignatureOf(hash, b))
  {
    SortPermutes(SignatureOf(hash, a), Ascending);
    SortPermutes(SignatureOf(hash, b), Ascending);
    if multiset(SignatureOf(hash, a)) == multiset(SignatureOf(hash, b)) {
      SortOrdered(SignatureOf(hash, a), Ascending);
      SortOrdered(SignatureOf(hash, b), Ascending);
      OrderedUnique(SignaturesFor(hash, a), SignaturesFor(hash, b), Ascending);
    }
  }

  predicate IsStuck(history: seq<seq<Signature>>) {
    |history| >= 2 && history[|history| - 1] == history[|history| - 2] && history[|history| - 1] != []
  }

  /** Two rounds in a row are seen as stuck exactly when they failed with the same signatures, and with some: a run
      whose failures are only counted, not named, never is. */
  lemma StuckIff(hash: TestFailure -> Signature, history: seq<seq<Signature>>, a: Outcome, b: Outcome)
    ensures IsStuck(history + [SignaturesFor(hash, a.failures)] + [SignaturesFor(hash, b.failures)]) <==>
      b.failures != [] && multiset(SignatureOf(hash, a.failures)) == multiset(SignatureOf(hash, b.failures))
  {
    SignaturesCompareAsMultisets(hash, a.failures, b.failures);
    var h := history + [SignaturesFor(hash, a.failures)] + [SignaturesFor(hash, b.failures)];
    assert h[|h| - 1] == SignaturesFor(hash, b.failures) && h[|h| - 2] == SignaturesFor(hash, a.failures);
  }
}
