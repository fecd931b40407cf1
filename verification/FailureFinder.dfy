/** The finder from the console log to the reported command: the stripped list feeds the bisection. */
module FailureFinder {
  import opened Common
  import opened ConsoleLog
  import Bisection

  function Concluded(lines: seq<Line>, suite: string, fast: bool, oracle: Bisection.Oracle): Bisection.Verdict {
    if FirstFailed(lines) == |lines| then Bisection.NoFailureInLog
    else
      StrippedEndsWithFailure(lines, suite, fast);
      Bisection.Conclusion(suite, oracle, 0, Stripped(lines, suite, fast))
  }

  method FindFailure(lines: seq<Line>, suite: string, fast: bool, oracle: Bisection.Oracle)
      returns (verdict: Bisection.Verdict)
    ensures verdict == Concluded(lines, suite, fast, oracle)
  {
    var failing := StripConsole(lines, suite, fast);
    if FirstFailed(lines) < |lines| {
      StrippedEndsWithFailure(lines, suite, fast);
    }
    hide Stripped, Bisection.Conclusion, Bisection.Replay;
    var finder := new Bisection.Finder(suite, oracle, map[]);
    verdict := finder.Investigate(failing);
  }

  /** What each verdict means, in terms of the log and of what pytest answers. */
  lemma VerdictFromLog(lines: seq<Line>, suite: string, fast: bool, oracle: Bisection.Oracle)
    ensures var verdict, f := Concluded(lines, suite, fast, oracle), FirstFailed(lines);
            && (verdict.NoFailureInLog? <==> forall i :: 0 <= i < |lines| ==> !FailedLine(lines[i]))
            && (f < |lines| ==>
                  && Stripped(lines, suite, fast).Some?
                  && var tests := Stripped(lines, suite, fast).value;
                     var failsAlone := oracle(0, [TestName(suite, lines[f].test)]);
                     && (verdict.FailsAlone? <==> failsAlone)
                     && (verdict.Reproduced? <==> !failsAlone && |tests| > 1 && oracle(1, tests))
                     && (verdict.NotReproduced? <==> !failsAlone && (|tests| == 1 || !oracle(1, tests))))
  {
    hide TestName, Stripped, Bisection.Conclusion;
    if FirstFailed(lines) < |lines| {
      StrippedEndsWithFailure(lines, suite, fast);
      Bisection.VerdictIs(suite, oracle, 0, Stripped(lines, suite, fast));
      NotFoundFirst(suite, oracle, Stripped(lines, suite, fast));
      assert FailedLine(lines[FirstFailed(lines)]);
    }
  }

  lemma NotFoundFirst(suite: string, oracle: Bisection.Oracle, failing: Option<seq<string>>)
    requires failing.Some? && failing.value != []
    ensures !Bisection.Conclusion(suite, oracle, 0, failing).NoFailureInLog?
  {
    Bisection.VerdictMeans(suite, oracle, 0, failing);
  }

  /** Whatever the log and the runs: a reported list holds at least two tests, was seen failing, and is a
      subsequence of what one worker ran up to the first FAILED line, ending with that line's test, which
      was seen passing alone. */
  lemma ReportedListIsFromTheLog(lines: seq<Line>, suite: string, fast: bool, oracle: Bisection.Oracle)
      returns (list: seq<string>, kind: Bisection.Kind, runs: seq<Bisection.Run>)
    requires Concluded(lines, suite, fast, oracle).Reproduced?
    ensures Concluded(lines, suite, fast, oracle).count == |list| >= 2
    ensures var f := FirstFailed(lines);
            && f < |lines|
            && Subsequence(list, TestsOf(lines[..f + 1], suite, lines[f].worker))
            && list[|list| - 1] == TestName(suite, lines[f].test)
    ensures Stripped(lines, suite, fast).Some? && Stripped(lines, suite, fast).value != []
    ensures runs == Bisection.RunsMade(oracle, 0, Stripped(lines, suite, fast))
    ensures Bisection.Run(kind, list, true) in runs
    ensures Bisection.Run(Bisection.Single, list[|list| - 1..], false) in runs
  {
    hide TestName, Bisection.Replay, Bisection.RunsMade, Bisection.Conclusion, Bisection.Text, Subsequence;
    StrippedEndsWithFailure(lines, suite, fast);
    var failing := Stripped(lines, suite, fast);
    var h := Bisection.ReportedCommandIsGood(suite, oracle, 0, failing);
    list, kind, runs := h.tests, h.kind, Bisection.RunsMade(oracle, 0, failing);
    StrippedIsFromWorker(lines, suite, fast);
    var f := FirstFailed(lines);
    SubsequenceTransitive(list, failing.value, TestsOf(lines[..f + 1], suite, lines[f].worker));
    assert list[|list| - 1..] == [list[|list| - 1]];
  }

  lemma StrippedIsFromWorker(lines: seq<Line>, suite: string, fast: bool)
    requires FirstFailed(lines) < |lines|
    ensures var f := FirstFailed(lines);
            Subsequence(Stripped(lines, suite, fast).value, TestsOf(lines[..f + 1], suite, lines[f].worker))
  {
    hide TestName, TestsOf, FastTestsOf, FirstFailed;
    var f := FirstFailed(lines);
    if fast {
      var at := FastSelectsFromPlain(lines[..f + 1], suite, lines[f].worker);
    } else {
      SubsequenceOfItself(TestsOf(lines[..f + 1], suite, lines[f].worker));
    }
  }
}
