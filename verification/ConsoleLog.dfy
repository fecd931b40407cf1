/** Stripping a pytest-xdist console log into per-worker test lists: the plain grouping of
    get_worker_test_list.py and the stripper that feeds the bisection. */
module ConsoleLog {
  import opened Common

  datatype Status = Passed | Failed | Skipped | Error

  /** A line of the log as the pattern `[gw<n>] STATUS test` reads it. */
  datatype Line = Other | Report(worker: string, status: Status, test: string)

  /** The test name that is listed: shared library tests are renamed to their path in the repository. */
  function TestName(suite: string, test: string): string {
    if suite == "commonlib-unit" && !Contains(test, "pavelib") && !("scripts" <= test)
    then "common/lib/" + test
    else test
  }

  // ---------- The base of a test name ----------

  /** The class or module of a test: its name without the last "::" part. */
  function Base(test: string): string {
    var parts := Split(test, "::");
    Join(parts[..|parts| - 1], "::")
  }

  /** A test of a class or module: the base and the last part give the name back. */
  lemma {:induction false} BaseAndLast(parts: seq<string>)
    requires |parts| >= 2
    ensures Join(parts, "::") == Join(parts[..|parts| - 1], "::") + "::" + parts[|parts| - 1]
    decreases |parts|
  {
    var n := |parts|;
    if n == 2 {
      assert parts[1..] == [parts[1]] && parts[..1] == [parts[0]];
    } else {
      BaseAndLast(parts[1..]);
      assert parts[1..][..n - 2] == parts[..n - 1][1..];
      assert parts[..n - 1][0] == parts[0];
    }
  }

  /** The base drops the last "::" of a test and what is behind it, and nothing else; a test without one has
      an empty base. */
  lemma BaseIs(test: string)
    ensures Contains(test, "::") ==>
              exists last :: test == Base(test) + "::" + last && !Contains(last, "::")
    ensures !Contains(test, "::") ==> Base(test) == ""
  {
    hide Split, Join, Contains;
    var parts := Split(test, "::");
    PartsLackSep(test, "::");
    JoinUndoesSplit(test, "::");
    if |parts| > 1 {
      BaseAndLast(parts);
      assert parts[|parts| - 1] in parts;
      assert test == Base(test) + "::" + parts[|parts| - 1];
    } else {
      assert parts[..|parts| - 1] == [];
      NothingJoined();
    }
  }

  lemma NothingJoined()
    ensures Join([], "::") == ""
  {
  }

  /** Tests of the shared libraries, and no others, are listed under common/lib. */
  lemma TestNameIs(suite: string, test: string)
    ensures var elsewhere := "scripts" <= test || exists i: nat :: OccursAt(test, "pavelib", i);
            TestName(suite, test) == if suite != "commonlib-unit" || elsewhere then test else "common/lib/" + test
  {
    hide Contains;
    ContainsIff(test, "pavelib");
  }

  // ---------- The plain grouping ----------

  /** All tests a worker reported, in log order. */
  function TestsOf(lines: seq<Line>, suite: string, worker: string): seq<string> {
    if lines == [] then []
    else
      var last := lines[|lines| - 1];
      TestsOf(lines[..|lines| - 1], suite, worker) +
      if last.Report? && last.worker == worker then [TestName(suite, last.test)] else []
  }

  /** The positions in the log of the lines on a worker's plain list. */
  function PlainAt(lines: seq<Line>, worker: string): seq<nat> {
    if lines == [] then []
    else
      var n := |lines| - 1;
      PlainAt(lines[..n], worker) + if IsReportOf(lines, worker, n) then [n] else []
  }

  predicate IsReportOf(lines: seq<Line>, worker: string, p: nat) {
    p < |lines| && lines[p].Report? && lines[p].worker == worker
  }

  /** They are, in increasing order, exactly those of all lines the worker reported, whatever their status. */
  lemma {:induction false} PlainListComesFrom(lines: seq<Line>, suite: string, worker: string)
    ensures var at, list := PlainAt(lines, worker), TestsOf(lines, suite, worker);
            && |at| == |list|
            && (forall i :: 0 <= i < |at| ==>
                  IsReportOf(lines, worker, at[i]) && list[i] == TestName(suite, lines[at[i]].test))
            && (forall i, j :: 0 <= i < j < |at| ==> at[i] < at[j])
            && (forall p: nat :: IsReportOf(lines, worker, p) ==> p in at)
    decreases |lines|
  {
    hide TestName;
    if lines != [] {
      var n := |lines| - 1;
      var before := lines[..n];
      PlainListComesFrom(before, suite, worker);
      var at, list := PlainAt(before, worker), TestsOf(before, suite, worker);
      forall p: nat ensures p < n ==> IsReportOf(lines, worker, p) == IsReportOf(before, worker, p) {
      }
      forall i | 0 <= i < |at|
        ensures IsReportOf(lines, worker, at[i]) && list[i] == TestName(suite, lines[at[i]].test)
      {
        assert IsReportOf(before, worker, at[i]) && before[at[i]] == lines[at[i]];
      }
    }
  }

  predicate Reports(lines: seq<Line>, worker: string) {
    exists i :: 0 <= i < |lines| && lines[i].Report? && lines[i].worker == worker
  }

  method GroupByWorker(lines: seq<Line>, suite: string) returns (tests: map<string, seq<string>>)
    ensures forall w :: w in tests <==> Reports(lines, w)
    ensures forall w :: w in tests ==> tests[w] == TestsOf(lines, suite, w)
  {
    hide TestName;
    tests := map[];
    for i := 0 to |lines|
      invariant forall w :: w in tests <==> Reports(lines[..i], w)
      invariant forall w :: w in tests ==> tests[w] == TestsOf(lines[..i], suite, w)
    {
      assert lines[..i + 1][..i] == lines[..i];
      ReportsSnoc(lines, i);
      if lines[i].Report? {
        var worker := lines[i].worker;
        if worker !in tests {
          Silent(lines[..i], suite, worker);
          tests := tests[worker := []];
        }
        tests := tests[worker := tests[worker] + [TestName(suite, lines[i].test)]];
      }
    }
    assert lines[..|lines|] == lines;
  }

  lemma ReportsSnoc(lines: seq<Line>, i: nat)
    requires i < |lines|
    ensures forall w :: Reports(lines[..i + 1], w) <==>
              Reports(lines[..i], w) || (lines[i].Report? && lines[i].worker == w)
  {
    forall w
      ensures Reports(lines[..i + 1], w) <==> Reports(lines[..i], w) || (lines[i].Report? && lines[i].worker == w)
    {
      if Reports(lines[..i], w) {
        var j :| 0 <= j < i && lines[..i][j].Report? && lines[..i][j].worker == w;
        assert lines[..i + 1][j] == lines[..i][j];
      }
      if lines[i].Report? && lines[i].worker == w {
        assert lines[..i + 1][i] == lines[i];
      }
      if Reports(lines[..i + 1], w) {
        var j :| 0 <= j < i + 1 && lines[..i + 1][j].Report? && lines[..i + 1][j].worker == w;
        if j < i {
          assert lines[..i][j] == lines[j];
        }
      }
    }
  }

  lemma {:induction false} Silent(lines: seq<Line>, suite: string, worker: string)
    requires !Reports(lines, worker)
    ensures TestsOf(lines, suite, worker) == []
  {
    if lines != [] {
      var n := |lines| - 1;
      assert lines == lines[..n + 1];
      ReportsSnoc(lines, n);
      Silent(lines[..n], suite, worker);
    }
  }

  // ---------- The fast selection ----------

  predicate PassedLine(line: Line) {
    line.Report? && line.status == Passed
  }

  predicate FailedLine(line: Line) {
    line.Report? && line.status == Failed
  }

  function LineBase(line: Line, suite: string): string
    requires line.Report?
  {
    Base(TestName(suite, line.test))
  }

  /** Line i is the first PASSED line, of any worker, for its test base. */
  predicate FirstOfBase(lines: seq<Line>, suite: string, i: nat)
    requires i < |lines|
  {
    && PassedLine(lines[i])
    && forall j :: 0 <= j < i && PassedLine(lines[j]) ==> LineBase(lines[j], suite) != LineBase(lines[i], suite)
  }

  predicate Kept(lines: seq<Line>, suite: string, i: nat)
    requires i < |lines|
  {
    FailedLine(lines[i]) || FirstOfBase(lines, suite, i)
  }

  /** A worker's failed tests, and its passed ones that came first for their base, in log order. */
  function FastTestsOf(lines: seq<Line>, suite: string, worker: string): seq<string> {
    if lines == [] then []
    else
      var n := |lines| - 1;
      FastTestsOf(lines[..n], suite, worker) +
      if lines[n].Report? && lines[n].worker == worker && Kept(lines, suite, n)
      then [TestName(suite, lines[n].test)] else []
  }

  function Listed(lines: seq<Line>, suite: string, fast: bool, worker: string): seq<string> {
    if fast then FastTestsOf(lines, suite, worker) else TestsOf(lines, suite, worker)
  }

  /** Position of the first FAILED line, or |lines|. */
  function FirstFailed(lines: seq<Line>): (i: nat)
    ensures i <= |lines| && (i < |lines| ==> FailedLine(lines[i]))
    ensures forall j :: 0 <= j < i ==> !FailedLine(lines[j])
  {
    if lines == [] then 0 else if FailedLine(lines[0]) then 0 else 1 + FirstFailed(lines[1..])
  }

  /** The list of the worker that failed first, on the log cut after that failure. */
  function Stripped(lines: seq<Line>, suite: string, fast: bool): Option<seq<string>> {
    var f := FirstFailed(lines);
    if f == |lines| then None else Some(Listed(lines[..f + 1], suite, fast, lines[f].worker))
  }

  /** The dictionary of the stripper after some lines: per worker its list. */
  ghost predicate Tracks(tests: map<string, seq<string>>, lines: seq<Line>, suite: string, fast: bool) {
    && (forall w :: w in tests ==> tests[w] == Listed(lines, suite, fast, w))
    && (forall w :: w !in tests ==> Listed(lines, suite, fast, w) == [])
  }

  /** The bases of the PASSED lines seen so far, shared by all workers. */
  ghost predicate Includes(included: map<string, bool>, lines: seq<Line>, suite: string) {
    forall b :: b in included <==> SeenBase(lines, suite, b)
  }

  predicate SeenBase(lines: seq<Line>, suite: string, b: string) {
    exists j :: 0 <= j < |lines| && PassedLine(lines[j]) && LineBase(lines[j], suite) == b
  }

  lemma SeenBaseSnoc(lines: seq<Line>, suite: string, i: nat)
    requires i < |lines|
    ensures forall b :: SeenBase(lines[..i + 1], suite, b) <==>
              SeenBase(lines[..i], suite, b) || (PassedLine(lines[i]) && LineBase(lines[i], suite) == b)
    ensures PassedLine(lines[i]) ==>
              (FirstOfBase(lines[..i + 1], suite, i) <==> !SeenBase(lines[..i], suite, LineBase(lines[i], suite)))
  {
    hide LineBase;
    var p, q := lines[..i], lines[..i + 1];
    assert forall j :: 0 <= j < i ==> p[j] == q[j] == lines[j];
    assert q[i] == lines[i];
    forall b
      ensures SeenBase(q, suite, b) <==>
                SeenBase(p, suite, b) || (PassedLine(lines[i]) && LineBase(lines[i], suite) == b)
    {
      if SeenBase(p, suite, b) {
        var j :| 0 <= j < i && PassedLine(p[j]) && LineBase(p[j], suite) == b;
        assert PassedLine(q[j]);
      }
      if SeenBase(q, suite, b) {
        var j :| 0 <= j < i + 1 && PassedLine(q[j]) && LineBase(q[j], suite) == b;
        assert j < i ==> PassedLine(p[j]);
      }
    }
  }

  /** What line i adds to its worker's list. */
  function Added(lines: seq<Line>, suite: string, fast: bool, i: nat): seq<string>
    requires i < |lines| && lines[i].Report?
  {
    if !fast || FailedLine(lines[i]) ||
       (PassedLine(lines[i]) && !SeenBase(lines[..i], suite, LineBase(lines[i], suite)))
    then [TestName(suite, lines[i].test)] else []
  }

  lemma ListedSnoc(lines: seq<Line>, suite: string, fast: bool, i: nat)
    requires i < |lines|
    ensures forall w :: Listed(lines[..i + 1], suite, fast, w) ==
              Listed(lines[..i], suite, fast, w) +
              if lines[i].Report? && lines[i].worker == w then Added(lines, suite, fast, i) else []
  {
    hide TestName, LineBase, SeenBase;
    assert lines[..i + 1][..i] == lines[..i];
    SeenBaseSnoc(lines, suite, i);
  }

  lemma TracksSnoc(tests: map<string, seq<string>>, lines: seq<Line>, suite: string, fast: bool, i: nat)
    requires i < |lines| && Tracks(tests, lines[..i], suite, fast)
    ensures lines[i].Report? ==>
              var worker := lines[i].worker;
              var list := if worker in tests then tests[worker] else [];
              Tracks(tests[worker := list + Added(lines, suite, fast, i)], lines[..i + 1], suite, fast)
    ensures lines[i].Other? ==> Tracks(tests, lines[..i + 1], suite, fast)
  {
    hide Listed, Added;
    ListedSnoc(lines, suite, fast, i);
  }

  lemma IncludesSnoc(included: map<string, bool>, lines: seq<Line>, suite: string, i: nat)
    requires i < |lines| && Includes(included, lines[..i], suite)
    ensures PassedLine(lines[i]) ==>
              && Includes(included[LineBase(lines[i], suite) := true], lines[..i + 1], suite)
              && (LineBase(lines[i], suite) in included ==> Includes(included, lines[..i + 1], suite))
    ensures !PassedLine(lines[i]) ==> Includes(included, lines[..i + 1], suite)
  {
    hide LineBase, SeenBase;
    SeenBaseSnoc(lines, suite, i);
  }

  method StripConsole(lines: seq<Line>, suite: string, fast: bool) returns (failing: Option<seq<string>>)
    ensures failing == Stripped(lines, suite, fast)
  {
    hide TestName, LineBase, SeenBase, Listed, FirstFailed, Tracks;
    var tests: map<string, seq<string>> := map[];
    var included: map<string, bool> := map[];
    var failingWorker: Option<string> := None;
    NothingListed(suite, fast);
    for i := 0 to |lines|
      invariant failingWorker.None?
      invariant forall j :: 0 <= j < i ==> !FailedLine(lines[j])
      invariant Tracks(tests, lines[..i], suite, fast)
      invariant fast ==> Includes(included, lines[..i], suite)
    {
      TracksSnoc(tests, lines, suite, fast, i);
      if fast {
        IncludesSnoc(included, lines, suite, i);
      }
      ghost var before := tests;
      if lines[i].Report? {
        var worker := lines[i].worker;
        if worker !in tests {
          tests := tests[worker := []];
        }
        assert tests[worker] + [] == tests[worker];
        var test := TestName(suite, lines[i].test);
        if fast && lines[i].status == Passed {
          var base := LineBase(lines[i], suite);
          if base !in included {
            tests := tests[worker := tests[worker] + [test]];
            included := included[base := true];
          }
        } else if !fast || lines[i].status == Failed {
          tests := tests[worker := tests[worker] + [test]];
        }
        ghost var list := if worker in before then before[worker] else [];
        assert tests == before[worker := list + Added(lines, suite, fast, i)];
        if lines[i].status == Failed {
          failingWorker := Some(worker);
          ListOf(tests, lines, suite, fast, i);
          FirstFailedIs(lines, i);
          return Some(tests[worker]);
        }
      }
    }
    assert lines[..|lines|] == lines;
    NoneFailed(lines);
    return None;
  }

  lemma NothingListed(suite: string, fast: bool)
    ensures Tracks(map[], [], suite, fast) && Includes(map[], [], suite)
  {
  }

  lemma ListOf(tests: map<string, seq<string>>, lines: seq<Line>, suite: string, fast: bool, i: nat)
    requires i < |lines| && lines[i].Report? && lines[i].worker in tests && Tracks(tests, lines[..i + 1], suite, fast)
    ensures tests[lines[i].worker] == Listed(lines[..i + 1], suite, fast, lines[i].worker)
  {
  }

  lemma {:induction false} FirstFailedIs(lines: seq<Line>, i: nat)
    requires i < |lines| && FailedLine(lines[i]) && forall j :: 0 <= j < i ==> !FailedLine(lines[j])
    ensures FirstFailed(lines) == i
  {
  }

  lemma NoneFailed(lines: seq<Line>)
    requires forall j :: 0 <= j < |lines| ==> !FailedLine(lines[j])
    ensures FirstFailed(lines) == |lines|
  {
  }

  // ---------- What the lists mean ----------

  /** The fast list is a selection from the plain list of the worker, and whenever the log ends with a
      failure of that worker both lists end with the failing test. */
  lemma {:induction false} FastSelectsFromPlain(lines: seq<Line>, suite: string, worker: string) returns (at: seq<nat>)
    ensures Selects(at, TestsOf(lines, suite, worker), FastTestsOf(lines, suite, worker))
    ensures lines != [] && FailedLine(lines[|lines| - 1]) && lines[|lines| - 1].worker == worker ==>
              var plain, fast := TestsOf(lines, suite, worker), FastTestsOf(lines, suite, worker);
              && plain != [] && fast != [] && at[|at| - 1] == |plain| - 1
              && fast[|fast| - 1] == plain[|plain| - 1] == TestName(suite, lines[|lines| - 1].test)
    decreases |lines|
  {
    hide TestName, LineBase, FirstOfBase, Selects;
    at := [];
    if lines == [] {
      NoneSelected();
    } else {
      var n := |lines| - 1;
      at := FastSelectsFromPlain(lines[..n], suite, worker);
      var plain := TestsOf(lines[..n], suite, worker);
      var test := if lines[n].Report? then lines[n].test else "";
      SelectsSnoc(at, plain, FastTestsOf(lines[..n], suite, worker), TestName(suite, test));
      if lines[n].Report? && lines[n].worker == worker && Kept(lines, suite, n) {
        at := at + [|plain|];
      }
    }
  }

  lemma NoneSelected()
    ensures Selects<string>([], [], [])
  {
  }

  lemma SelectsSnoc(at: seq<nat>, s: seq<string>, t: seq<string>, x: string)
    requires Selects(at, s, t)
    ensures Selects(at, s + [x], t) && Selects(at, s + [], t) && Selects(at, s + [x], t + [])
    ensures Selects(at, s + [], t + []) && Selects(at + [|s|], s + [x], t + [x])
  {
    assert s + [] == s && t + [] == t;
  }

  /** The stripper returns the failing test last, whatever the mode. */
  lemma StrippedEndsWithFailure(lines: seq<Line>, suite: string, fast: bool)
    requires FirstFailed(lines) < |lines|
    ensures var s := Stripped(lines, suite, fast);
            && s.Some? && s.value != []
            && s.value[|s.value| - 1] == TestName(suite, lines[FirstFailed(lines)].test)
  {
    hide TestName;
    var f := FirstFailed(lines);
    var cut := lines[..f + 1];
    assert cut[|cut| - 1] == lines[f];
    var at := FastSelectsFromPlain(cut, suite, lines[f].worker);
  }

  /** The positions in the log of the lines on a worker's fast list. */
  function FastAt(lines: seq<Line>, suite: string, worker: string): seq<nat> {
    if lines == [] then []
    else
      var n := |lines| - 1;
      FastAt(lines[..n], suite, worker) +
      if lines[n].Report? && lines[n].worker == worker && Kept(lines, suite, n) then [n] else []
  }

  /** They are, in increasing order, exactly the positions of the worker's kept lines. */
  lemma {:induction false} FastListComesFrom(lines: seq<Line>, suite: string, worker: string)
    ensures var at, list := FastAt(lines, suite, worker), FastTestsOf(lines, suite, worker);
            && |at| == |list|
            && (forall i :: 0 <= i < |at| ==>
                  IsKeptLine(lines, suite, worker, at[i]) && list[i] == TestName(suite, lines[at[i]].test))
            && (forall i, j :: 0 <= i < j < |at| ==> at[i] < at[j])
            && (forall p: nat :: IsKeptLine(lines, suite, worker, p) ==> p in at)
    decreases |lines|
  {
    hide TestName, Kept;
    if lines != [] {
      var n := |lines| - 1;
      var before := lines[..n];
      FastListComesFrom(before, suite, worker);
      var at, list := FastAt(before, suite, worker), FastTestsOf(before, suite, worker);
      forall p: nat ensures p < n ==> IsKeptLine(lines, suite, worker, p) == IsKeptLine(before, suite, worker, p) {
        if p < n {
          KeptBefore(lines, suite, n, p);
        }
      }
      forall i | 0 <= i < |at|
        ensures IsKeptLine(lines, suite, worker, at[i]) && list[i] == TestName(suite, lines[at[i]].test)
      {
        assert IsKeptLine(before, suite, worker, at[i]) && before[at[i]] == lines[at[i]];
      }
    }
  }

  predicate IsKeptLine(lines: seq<Line>, suite: string, worker: string, p: nat) {
    p < |lines| && lines[p].Report? && lines[p].worker == worker && Kept(lines, suite, p)
  }

  lemma KeptBefore(lines: seq<Line>, suite: string, n: nat, p: nat)
    requires p < n <= |lines|
    ensures Kept(lines, suite, p) == Kept(lines[..n], suite, p)
  {
    hide LineBase;
    var before := lines[..n];
    assert forall j :: 0 <= j < n ==> before[j] == lines[j];
  }

  /** Position of the first PASSED line for a base, of any worker, or |lines|. */
  function FirstPassed(lines: seq<Line>, suite: string, b: string): (p: nat)
    ensures p <= |lines|
  {
    if lines == [] then 0 else if PassedFor(lines[0], suite, b) then 0 else 1 + FirstPassed(lines[1..], suite, b)
  }

  predicate PassedFor(line: Line, suite: string, b: string) {
    PassedLine(line) && LineBase(line, suite) == b
  }

  lemma {:induction false} FirstPassedIs(lines: seq<Line>, suite: string, b: string)
    ensures var p := FirstPassed(lines, suite, b);
            && (p < |lines| ==> PassedFor(lines[p], suite, b))
            && forall j :: 0 <= j < p ==> !PassedFor(lines[j], suite, b)
  {
    hide PassedFor;
    if lines != [] && !PassedFor(lines[0], suite, b) {
      FirstPassedIs(lines[1..], suite, b);
      assert forall j :: 0 < j < |lines| ==> lines[j] == lines[1..][j - 1];
    }
  }

  /** The worker's is the first PASSED line for the base. */
  predicate PassedFirst(lines: seq<Line>, suite: string, worker: string, b: string) {
    var p := FirstPassed(lines, suite, b);
    p < |lines| && lines[p].Report? && lines[p].worker == worker
  }

  /** Entry i of the worker's fast list comes from a PASSED line for base b. */
  predicate ListsPassed(lines: seq<Line>, suite: string, worker: string, b: string, i: nat) {
    var at := FastAt(lines, suite, worker);
    i < |at| && at[i] < |lines| && PassedFor(lines[at[i]], suite, b)
  }

  lemma PassedEntryIsFirst(lines: seq<Line>, suite: string, worker: string, b: string, i: nat)
    requires ListsPassed(lines, suite, worker, b, i)
    ensures FirstPassed(lines, suite, b) == FastAt(lines, suite, worker)[i] && PassedFirst(lines, suite, worker, b)
  {
    hide LineBase, FastAt, FirstPassed;
    FastListComesFrom(lines, suite, worker);
    FirstPassedIs(lines, suite, b);
    var p, q := FastAt(lines, suite, worker)[i], FirstPassed(lines, suite, b);
    assert IsKeptLine(lines, suite, worker, p) && FirstOfBase(lines, suite, p);
  }

  /** A worker's fast list has an entry from a PASSED line for a base if and only if the log's first
      PASSED line for that base is the worker's. */
  lemma PassedEntryIff(lines: seq<Line>, suite: string, worker: string, b: string)
    ensures (exists i: nat :: ListsPassed(lines, suite, worker, b, i)) <==> PassedFirst(lines, suite, worker, b)
  {
    hide LineBase, FastAt, ListsPassed;
    if PassedFirst(lines, suite, worker, b) {
      var i := FirstPassedIsListed(lines, suite, worker, b);
    }
    forall i: nat | ListsPassed(lines, suite, worker, b, i) ensures PassedFirst(lines, suite, worker, b) {
      PassedEntryIsFirst(lines, suite, worker, b, i);
    }
  }

  lemma FirstPassedIsListed(lines: seq<Line>, suite: string, worker: string, b: string) returns (i: nat)
    requires PassedFirst(lines, suite, worker, b)
    ensures ListsPassed(lines, suite, worker, b, i)
  {
    hide LineBase, FastAt, FirstPassed;
    FastListComesFrom(lines, suite, worker);
    FirstPassedIs(lines, suite, b);
    var p := FirstPassed(lines, suite, b);
    assert FirstOfBase(lines, suite, p) && IsKeptLine(lines, suite, worker, p);
    i :| 0 <= i < |FastAt(lines, suite, worker)| && FastAt(lines, suite, worker)[i] == p;
  }

  /** Over all workers together, each base of a PASSED line has exactly one entry from a PASSED line. */
  lemma EachBaseListedOnce(lines: seq<Line>, suite: string, b: string) returns (worker: string, i: nat)
    requires FirstPassed(lines, suite, b) < |lines|
    ensures ListsPassed(lines, suite, worker, b, i)
    ensures forall w, k: nat :: ListsPassed(lines, suite, w, b, k) ==> w == worker && k == i
  {
    hide LineBase, FastAt, FirstPassed;
    FirstPassedIs(lines, suite, b);
    worker := lines[FirstPassed(lines, suite, b)].worker;
    i := FirstPassedIsListed(lines, suite, worker, b);
    forall w, k: nat | ListsPassed(lines, suite, w, b, k) ensures w == worker && k == i {
      PassedEntryIsFirst(lines, suite, w, b, k);
      PassedEntryIsFirst(lines, suite, worker, b, i);
      FastListComesFrom(lines, suite, worker);
      SameEntry(FastAt(lines, suite, worker), k, i);
    }
  }

  lemma SameEntry(at: seq<nat>, k: nat, i: nat)
    requires forall i, j :: 0 <= i < j < |at| ==> at[i] < at[j]
    requires k < |at| && i < |at| && at[k] == at[i]
    ensures k == i
  {
  }

  predicate FailedFor(lines: seq<Line>, suite: string, worker: string, b: string) {
    exists p :: 0 <= p < |lines| && FailedLine(lines[p]) && lines[p].worker == worker && LineBase(lines[p], suite) == b
  }

  /** A worker's fast list has a test of a class or module if and only if the worker was the first to
      pass one, or failed one. */
  lemma FastListHasBaseIff(lines: seq<Line>, suite: string, worker: string, b: string)
    ensures (exists t :: t in FastTestsOf(lines, suite, worker) && Base(t) == b) <==>
              PassedFirst(lines, suite, worker, b) || FailedFor(lines, suite, worker, b)
  {
    hide Base, TestName, FastAt, FastTestsOf, FirstPassed;
    FastListComesFrom(lines, suite, worker);
    var at, list := FastAt(lines, suite, worker), FastTestsOf(lines, suite, worker);
    if t :| t in list && Base(t) == b {
      var i :| 0 <= i < |list| && list[i] == t;
      assert IsKeptLine(lines, suite, worker, at[i]) && LineBase(lines[at[i]], suite) == b;
      if PassedLine(lines[at[i]]) {
        PassedEntryIsFirst(lines, suite, worker, b, i);
      }
    }
    if PassedFirst(lines, suite, worker, b) {
      var i := FirstPassedIsListed(lines, suite, worker, b);
      assert list[i] in list && Base(list[i]) == b;
    }
    if FailedFor(lines, suite, worker, b) {
      var p: nat :| p < |lines| && FailedLine(lines[p]) && lines[p].worker == worker && LineBase(lines[p], suite) == b;
      assert IsKeptLine(lines, suite, worker, p);
      var i :| 0 <= i < |at| && at[i] == p;
      assert list[i] in list && Base(list[i]) == b;
    }
  }

  /** What the stripper returns in fast mode has a test of a class or module if and only if the failing
      worker was the first of all workers to pass one, or it is the failing test's own. */
  lemma StrippedHasBaseIff(lines: seq<Line>, suite: string, b: string)
    requires FirstFailed(lines) < |lines|
    ensures var f := FirstFailed(lines);
            && Stripped(lines, suite, true).Some?
            && ((exists t :: t in Stripped(lines, suite, true).value && Base(t) == b) <==>
                  PassedFirst(lines[..f + 1], suite, lines[f].worker, b) || LineBase(lines[f], suite) == b)
  {
    hide Base, TestName, LineBase, PassedFirst, FailedFor, FastTestsOf, FirstFailed;
    var f := FirstFailed(lines);
    FastListHasBaseIff(lines[..f + 1], suite, lines[f].worker, b);
    OnlyLastFailed(lines, suite, b);
  }

  lemma OnlyLastFailed(lines: seq<Line>, suite: string, b: string)
    requires FirstFailed(lines) < |lines|
    ensures var f := FirstFailed(lines);
            FailedFor(lines[..f + 1], suite, lines[f].worker, b) <==> LineBase(lines[f], suite) == b
  {
    hide LineBase, FirstFailed;
    var f := FirstFailed(lines);
    var cut := lines[..f + 1];
    assert forall j :: 0 <= j <= f ==> cut[j] == lines[j];
  }

  /** A log on which the failing worker's fast list lacks a class it ran: another worker ran it first. */
  lemma FailingWorkerCanLackBase(suite: string, other: string, worker: string, a: string, b: string, c: string)
    requires other != worker && Base(TestName(suite, a)) == Base(TestName(suite, b))
    ensures var log := [Report(other, Passed, a), Report(worker, Passed, b), Report(worker, Failed, c)];
            && Stripped(log, suite, true) == Some([TestName(suite, c)])
            && Stripped(log, suite, false) == Some([TestName(suite, b), TestName(suite, c)])
  {
    hide TestName, Base;
    var log := [Report(other, Passed, a), Report(worker, Passed, b), Report(worker, Failed, c)];
    FirstFailedIs(log, 2);
    assert log[..0] == [] && log[..3] == log;
    assert SeenBase(log[..1], suite, LineBase(log[1], suite)) by {
      assert PassedLine(log[..1][0]);
    }
    forall fast: bool
      ensures Listed(log, suite, fast, worker) == Added(log, suite, fast, 1) + Added(log, suite, fast, 2)
    {
      ListedSnoc(log, suite, fast, 0);
      ListedSnoc(log, suite, fast, 1);
      ListedSnoc(log, suite, fast, 2);
      assert Listed(log[..0], suite, fast, worker) == [];
    }
    assert Listed(log, suite, true, worker) == [TestName(suite, c)];
    assert Listed(log, suite, false, worker) == [TestName(suite, b), TestName(suite, c)];
  }
}
