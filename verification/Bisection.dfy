/** The order-dependent failure finder: halving a failing test list until neither half fails. */
module Bisection {
  import opened Common

  type Test = string

  const OUTPUT_FOLDER := "worker_list_files"

  /** Whether the k-th pytest run reports failures on a list. Any sequence of answers, however
      flaky, is one such function; a deterministic one ignores the run number. */
  type Oracle = (nat, seq<Test>) -> bool

  /** The test_type under which a list is run; it names the list's file. */
  datatype Kind = Single | All | GroupA | GroupB {
    function Name(): string {
      match this
      case Single => "SINGLE"
      case All => "ALL"
      case GroupA => "GROUP-A"
      case GroupB => "GROUP-B"
    }
  }

  datatype Run = Run(kind: Kind, tests: seq<Test>, failed: bool)
  datatype Hit = FailingList(tests: seq<Test>, kind: Kind)

  /** The calls of one search: the call's own run, then the calls on its halves. A half that is not
      looked at, like a list of at most one test, is Untested. */
  datatype Search = Untested | Tested(run: Run, a: Search, b: Search) {
    function Runs(): seq<Run> {
      if Untested? then [] else [run] + a.Runs() + b.Runs()
    }

    function Size(): (n: nat)
      ensures n == |Runs()|
    {
      if Untested? then 0 else 1 + a.Size() + b.Size()
    }

    /** The list the call returns, if any, and the kind under which it failed. */
    function Hit(): Option<Hit> {
      if Untested? || !run.failed then None
      else if a.Hit().Some? then a.Hit()
      else if b.Hit().Some? then b.Hit()
      else Some(FailingList(run.tests, run.kind))
    }

    /** How the calls of a search on `tests` hang together, whatever the runs answered. */
    predicate Searches(tests: seq<Test>, kind: Kind) {
      if |tests| <= 1 then Untested?
      else
        && Tested? && run.tests == tests && run.kind == kind
        && if !run.failed || |tests| == 2 then a == b == Untested
           else
             && a.Searches(HalfA(tests), GroupA)
             && if a.Hit().Some? then b == Untested else b.Searches(HalfB(tests), GroupB)
    }
  }

  /** Python's round(m / 2), counted up four at a time. */
  function RoundHalf(m: nat): (r: nat)
    ensures -1 <= 2 * r - m <= 1
  {
    if m < 2 then 0 else if m < 4 then m - 1 else 2 + RoundHalf(m - 4)
  }

  /** It is the nearest integer, and of two equally near ones the even one. */
  lemma {:induction false} RoundHalfTiesToEven(m: nat)
    ensures if m % 2 == 0 then RoundHalf(m) == m / 2 else RoundHalf(m) == m / 2 + (m / 2) % 2
  {
    if m >= 4 {
      RoundHalfTiesToEven(m - 4);
    }
  }

  function HalfA(tests: seq<Test>): (a: seq<Test>)
    requires |tests| >= 3
    ensures 2 <= |a| < |tests| && 2 * (|a| - 1) <= |tests| && a[|a| - 1] == tests[|tests| - 1]
  {
    tests[..RoundHalf(|tests| - 1)] + tests[|tests| - 1..]
  }

  function HalfB(tests: seq<Test>): (b: seq<Test>)
    requires |tests| >= 3
    ensures 2 <= |b| < |tests| && 2 * (|b| - 1) <= |tests| && b[|b| - 1] == tests[|tests| - 1]
  {
    tests[RoundHalf(|tests| - 1)..]
  }

  /** The search as a function of the oracle's answers, its first run being run number `k`. */
  function Bisect(oracle: Oracle, k: nat, tests: seq<Test>, kind: Kind): (s: Search)
    ensures s.Searches(tests, kind)
    decreases |tests|
  {
    if |tests| <= 1 then Untested
    else if !oracle(k, tests) || |tests| == 2 then Tested(Run(kind, tests, oracle(k, tests)), Untested, Untested)
    else
      var a := Bisect(oracle, k + 1, HalfA(tests), GroupA);
      var b := if a.Hit().Some? then Untested else Bisect(oracle, k + 1 + a.Size(), HalfB(tests), GroupB);
      Tested(Run(kind, tests, true), a, b)
  }

  /** A call comes back empty-handed exactly when it made no failing run of its own, and then it made
      no other run either. */
  lemma {:induction false} EmptyHandedIffFirstRunPasses(oracle: Oracle, k: nat, tests: seq<Test>, kind: Kind)
    ensures Bisect(oracle, k, tests, kind).Hit().None? <==> (|tests| <= 1 || !oracle(k, tests))
    ensures Bisect(oracle, k, tests, kind).Hit().None? ==>
              Bisect(oracle, k, tests, kind).Runs() == if |tests| <= 1 then [] else [Run(kind, tests, false)]
  {
    hide HalfA, HalfB;
  }

  lemma {:induction false} EmptyHandedRuns(s: Search, tests: seq<Test>, kind: Kind)
    requires s.Searches(tests, kind) && s.Hit().None?
    ensures s.Runs() == if |tests| <= 1 then [] else [Run(kind, tests, false)]
  {
    hide HalfA, HalfB;
  }

  /** What a call on three or more failing tests makes of the calls on its halves. */
  lemma Halving(oracle: Oracle, k: nat, tests: seq<Test>, kind: Kind)
    requires |tests| >= 3 && oracle(k, tests)
    ensures var s := Bisect(oracle, k, tests, kind);
            if oracle(k + 1, HalfA(tests)) then
              s.Hit() == Bisect(oracle, k + 1, HalfA(tests), GroupA).Hit()
            else
              var b := Bisect(oracle, k + 2, HalfB(tests), GroupB);
              && s.Hit() == (if b.Hit().Some? then b.Hit() else Some(FailingList(tests, kind)))
              && |s.Runs()| == 2 + |b.Runs()|
  {
    hide HalfA, HalfB;
    EmptyHandedIffFirstRunPasses(oracle, k + 1, HalfA(tests), GroupA);
  }

  lemma PairIsHit(oracle: Oracle, k: nat, tests: seq<Test>, kind: Kind)
    requires |tests| == 2
    ensures Bisect(oracle, k, tests, kind).Hit() ==
            if oracle(k, tests) then Some(FailingList([tests[0], tests[1]], kind)) else None
    ensures |Bisect(oracle, k, tests, kind).Runs()| == 1
  {
    assert tests == [tests[0], tests[1]];
  }

  /** The runs with which a search ends on a hit: the hit's own failing run and then, unless the
      list cannot be halved, the passing runs of both of its halves. */
  function Closing(h: Hit): seq<Run>
    requires |h.tests| >= 2
  {
    [Run(h.kind, h.tests, true)] +
    if |h.tests| == 2 then []
    else [Run(GroupA, HalfA(h.tests), false), Run(GroupB, HalfB(h.tests), false)]
  }

  /** Whatever the runs answered, the list returned is the last one that was seen failing, and it
      is either a pair or both of its halves were seen passing after it. */
  lemma {:induction false} HitIsLastFailure(s: Search, tests: seq<Test>, kind: Kind) returns (before: seq<Run>)
    requires s.Searches(tests, kind) && s.Hit().Some?
    ensures |s.Hit().value.tests| >= 2
    ensures s.Runs() == before + Closing(s.Hit().value)
    decreases s
  {
    hide HalfA, HalfB;
    if s.a.Hit().Some? {
      var inner := HitIsLastFailure(s.a, HalfA(tests), GroupA);
      before := [s.run] + inner;
      assert s.Runs() == before + Closing(s.Hit().value);
    } else if s.b.Hit().Some? {
      var inner := HitIsLastFailure(s.b, HalfB(tests), GroupB);
      before := [s.run] + s.a.Runs() + inner;
      assert s.Runs() == before + Closing(s.Hit().value);
    } else {
      before := [];
      if |tests| > 2 {
        EmptyHandedRuns(s.a, HalfA(tests), GroupA);
        EmptyHandedRuns(s.b, HalfB(tests), GroupB);
      }
      assert s.Runs() == [] + Closing(s.Hit().value);
    }
  }

  lemma SelectsAll(tests: seq<Test>)
    ensures Selects(seq(|tests|, i => i), tests, tests)
  {
  }

  lemma HalvesSelect(tests: seq<Test>) returns (atA: seq<nat>, atB: seq<nat>)
    requires |tests| >= 3
    ensures Selects(atA, tests, HalfA(tests)) && |atA| == |HalfA(tests)| && atA[|atA| - 1] == |tests| - 1
    ensures Selects(atB, tests, HalfB(tests)) && |atB| == |HalfB(tests)| && atB[|atB| - 1] == |tests| - 1
  {
    var n := |tests|;
    var half := RoundHalf(n - 1);
    atA := seq(half + 1, i => if i < half then i else n - 1);
    atB := seq(n - half, i => i + half);
  }

  /** The two halves share the tests before the last one between them. */
  lemma HalvesShare(tests: seq<Test>)
    requires |tests| >= 3
    ensures Init(HalfA(tests)) + Init(HalfB(tests)) == Init(tests)
    ensures |Init(HalfA(tests))| == RoundHalf(|tests| - 1)
  {
  }

  /** All but the last test. */
  function Init(tests: seq<Test>): seq<Test> {
    if tests == [] then [] else tests[..|tests| - 1]
  }

  /** The list returned selects tests of the input in order and keeps its last test. */
  lemma {:induction false} HitSelectsFromInput(s: Search, tests: seq<Test>, kind: Kind) returns (at: seq<nat>)
    requires s.Searches(tests, kind) && s.Hit().Some?
    ensures Selects(at, tests, s.Hit().value.tests)
    ensures |at| >= 2 && at[|at| - 1] == |tests| - 1
    decreases s
  {
    hide HalfA, HalfB, Selects, Search.Runs, Search.Size;
    if s.a.Hit().Some? {
      var atA, atB := HalvesSelect(tests);
      var inner := HitSelectsFromInput(s.a, HalfA(tests), GroupA);
      at := SelectsTransitive(atA, inner, tests, HalfA(tests), s.Hit().value.tests);
    } else if s.b.Hit().Some? {
      var atA, atB := HalvesSelect(tests);
      var inner := HitSelectsFromInput(s.b, HalfB(tests), GroupB);
      at := SelectsTransitive(atB, inner, tests, HalfB(tests), s.Hit().value.tests);
    } else {
      SelectsAll(tests);
      at := seq(|tests|, i => i);
    }
  }

  lemma HalvesAre(tests: seq<Test>)
    requires |tests| >= 3
    ensures HalfA(tests) == tests[0..RoundHalf(|tests| - 1)] + tests[|tests| - 1..]
    ensures HalfB(tests) == tests[RoundHalf(|tests| - 1)..]
  {
  }

  // ---------- How many runs ----------

  /** The least c with m <= 2^c. */
  function CeilLog2(m: nat): (c: nat)
    requires m >= 1
    ensures m <= Pow2(c) && (c > 0 ==> Pow2(c - 1) < m)
  {
    if m == 1 then 0 else 1 + CeilLog2((m + 1) / 2)
  }

  lemma {:induction false} CeilLog2Monotone(m: nat, n: nat)
    requires 1 <= m <= n
    ensures CeilLog2(m) <= CeilLog2(n)
    decreases m
  {
    if m > 1 {
      CeilLog2Monotone((m + 1) / 2, (n + 1) / 2);
    }
  }

  lemma CeilLog2Step(m: nat)
    requires m > 1
    ensures CeilLog2(m) == 1 + CeilLog2((m + 1) / 2)
  {
  }

  lemma RunsSplit(s: Search, tests: seq<Test>, kind: Kind)
    requires s.Searches(tests, kind) && |tests| > 2 && s.run.failed
    ensures |s.Runs()| == 1 + |s.a.Runs()| + |s.b.Runs()| && s.a.Searches(HalfA(tests), GroupA)
    ensures if s.a.Hit().Some? then s.b.Runs() == [] else |s.a.Runs()| == 1 && s.b.Searches(HalfB(tests), GroupB)
  {
    hide HalfA, HalfB;
    if s.a.Hit().None? {
      EmptyHandedRuns(s.a, HalfA(tests), GroupA);
    }
  }

  lemma OneRun(s: Search, tests: seq<Test>, kind: Kind)
    requires s.Searches(tests, kind) && |tests| >= 2
    ensures s.Tested? && (!s.run.failed || |tests| == 2 ==> |s.Runs()| == 1)
  {
    hide HalfA, HalfB;
  }

  /** A list of n >= 2 tests costs at most 1 + 2 * ceil(log2(n - 1)) runs, whatever they answered. */
  lemma {:induction false} RunsAreLogarithmic(s: Search, tests: seq<Test>, kind: Kind)
    requires s.Searches(tests, kind) && |tests| >= 2
    ensures |s.Runs()| <= 1 + 2 * CeilLog2(|tests| - 1)
    decreases s
  {
    hide CeilLog2, Pow2, HalfA, HalfB, Search.Runs, Search.Hit, Search.Searches;
    OneRun(s, tests, kind);
    if s.run.failed && |tests| > 2 {
      var a, b := HalfA(tests), HalfB(tests);
      CeilLog2Step(|tests| - 1);
      CeilLog2Monotone(|a| - 1, |tests| / 2);
      CeilLog2Monotone(|b| - 1, |tests| / 2);
      RunsSplit(s, tests, kind);
      RunsAreLogarithmic(s.a, a, GroupA);
      if s.a.Hit().None? {
        RunsAreLogarithmic(s.b, b, GroupB);
      }
    }
  }

  /** The bound is attained: with 2^c tests before the last one and the culprit right before the
      last test, every level costs a passing run of A and a failing run of B. */
  lemma {:induction false} RunBoundIsReached(c: nat, k: nat, tests: seq<Test>, kind: Kind, culprit: Test)
    requires |tests| == Pow2(c) + 1
    requires tests[|tests| - 2] == culprit && culprit !in tests[..|tests| - 2]
    ensures |Bisect(RightBefore(culprit), k, tests, kind).Runs()| == 1 + 2 * CeilLog2(|tests| - 1)
    ensures CeilLog2(|tests| - 1) == c
    decreases c
  {
    hide HalfA, HalfB, Bisect, CeilLog2;
    CeilLog2OfPow2(c);
    if c > 0 {
      CulpritEndsInB(c, tests, culprit);
      Halving(RightBefore(culprit), k, tests, kind);
      RunBoundIsReached(c - 1, k + 2, HalfB(tests), GroupB, culprit);
    } else {
      PairIsHit(RightBefore(culprit), k, tests, kind);
    }
  }

  lemma {:induction false} CeilLog2OfPow2(c: nat)
    ensures CeilLog2(Pow2(c)) == c
  {
    if c > 0 {
      CeilLog2OfPow2(c - 1);
      var p := Pow2(c - 1);
      assert Pow2(c) == 2 * p && (2 * p + 1) / 2 == p;
    }
  }

  lemma CulpritEndsInB(c: nat, tests: seq<Test>, culprit: Test)
    requires c > 0 && |tests| == Pow2(c) + 1
    requires tests[|tests| - 2] == culprit && culprit !in tests[..|tests| - 2]
    ensures HalfA(tests)[|HalfA(tests)| - 2] != culprit
    ensures |HalfB(tests)| == Pow2(c - 1) + 1 && HalfB(tests)[|HalfB(tests)| - 2] == culprit
    ensures culprit !in HalfB(tests)[..|HalfB(tests)| - 2]
  {
    var half := Pow2(c - 1);
    RoundHalfTiesToEven(2 * half);
    assert HalfA(tests)[|HalfA(tests)| - 2] == tests[half - 1] == tests[..|tests| - 2][half - 1];
    assert HalfB(tests)[..|HalfB(tests)| - 2] == tests[..|tests| - 2][half..];
  }

  function RightBefore(culprit: Test): Oracle {
    (j, l: seq<Test>) => |l| >= 2 && l[|l| - 2] == culprit
  }

  // ---------- What a deterministic oracle is told ----------

  function Deterministic(fails: seq<Test> -> bool): Oracle {
    (j, l) => fails(l)
  }

  /** Position of the first bad test, or |s|. */
  function FirstBad(bad: Test -> bool, s: seq<Test>): (i: nat)
    ensures i <= |s| && (i < |s| ==> bad(s[i])) && (forall j :: 0 <= j < i ==> !bad(s[j]))
  {
    if s == [] then 0
    else if bad(s[0]) then 0
    else 1 + FirstBad(bad, s[1..])
  }

  /** Some bad test precedes the last one. */
  predicate Blames(bad: Test -> bool, l: seq<Test>) {
    FirstBad(bad, Init(l)) < |Init(l)|
  }

  /** The first bad test and the last test. */
  function CulpritPair(bad: Test -> bool, l: seq<Test>): seq<Test>
    requires Blames(bad, l)
  {
    [l[FirstBad(bad, Init(l))], l[|l| - 1]]
  }

  lemma {:induction false} FirstBadConcat(bad: Test -> bool, x: seq<Test>, y: seq<Test>)
    ensures FirstBad(bad, x + y) == if FirstBad(bad, x) < |x| then FirstBad(bad, x) else |x| + FirstBad(bad, y)
  {
    if x == [] {
      assert x + y == y;
    } else {
      assert (x + y)[1..] == x[1..] + y;
      FirstBadConcat(bad, x[1..], y);
    }
  }

  lemma BlameHalves(bad: Test -> bool, tests: seq<Test>)
    requires |tests| >= 3 && Blames(bad, tests)
    ensures if Blames(bad, HalfA(tests)) then CulpritPair(bad, HalfA(tests)) == CulpritPair(bad, tests)
            else Blames(bad, HalfB(tests)) && CulpritPair(bad, HalfB(tests)) == CulpritPair(bad, tests)
  {
    hide HalfA, HalfB, FirstBad;
    var a, b := Init(HalfA(tests)), Init(HalfB(tests));
    HalvesShare(tests);
    FirstBadConcat(bad, a, b);
    assert tests[FirstBad(bad, Init(tests))] == (a + b)[FirstBad(bad, Init(tests))];
  }

  /** When a list fails exactly because some bad test precedes its last test, the search ends on the
      pair made of the first bad test and the last test. */
  lemma {:induction false} SingleCulpritIsFound(bad: Test -> bool, k: nat, tests: seq<Test>, kind: Kind)
    requires Blames(bad, tests)
    ensures Bisect(Deterministic(l => Blames(bad, l)), k, tests, kind).Hit().Some?
    ensures Bisect(Deterministic(l => Blames(bad, l)), k, tests, kind).Hit().value.tests == CulpritPair(bad, tests)
    decreases |tests|
  {
    hide HalfA, HalfB, FirstBad, Bisect;
    var oracle := Deterministic(l => Blames(bad, l));
    if |tests| > 2 {
      BlameHalves(bad, tests);
      Halving(oracle, k, tests, kind);
      if Blames(bad, HalfA(tests)) {
        SingleCulpritIsFound(bad, k + 1, HalfA(tests), GroupA);
      } else {
        SingleCulpritIsFound(bad, k + 2, HalfB(tests), GroupB);
      }
    } else {
      PairIsHit(oracle, k, tests, kind);
    }
  }

  ghost predicate SomeHalfFails(fails: seq<Test> -> bool) {
    forall l: seq<Test> :: |l| >= 3 && fails(l) ==> fails(HalfA(l)) || fails(HalfB(l))
  }

  ghost predicate AlwaysEndsOnPairs(fails: seq<Test> -> bool) {
    forall l: seq<Test>, k: nat, kind: Kind ::
      var hit := Bisect(Deterministic(fails), k, l, kind).Hit();
      hit.Some? ==> |hit.value.tests| == 2
  }

  /** The search gets down to a pair on every list exactly when every failing list of three or more
      tests has a failing half; a failure that needs tests from both halves defeats it. */
  lemma PairsIffSomeHalfFails(fails: seq<Test> -> bool)
    ensures AlwaysEndsOnPairs(fails) <==> SomeHalfFails(fails)
  {
    var oracle := Deterministic(fails);
    if SomeHalfFails(fails) {
      forall l: seq<Test>, k: nat, kind: Kind
        ensures var hit := Bisect(oracle, k, l, kind).Hit(); hit.Some? ==> |hit.value.tests| == 2
      {
        EndsOnPair(fails, k, l, kind);
      }
    }
    if AlwaysEndsOnPairs(fails) {
      forall l: seq<Test> | |l| >= 3 && fails(l)
        ensures fails(HalfA(l)) || fails(HalfB(l))
      {
        EmptyHandedIffFirstRunPasses(oracle, 1, HalfA(l), GroupA);
        EmptyHandedIffFirstRunPasses(oracle, 2, HalfB(l), GroupB);
        var hit := Bisect(oracle, 0, l, All).Hit();
        assert hit.Some? ==> |hit.value.tests| == 2;
      }
    }
  }

  lemma {:induction false} EndsOnPair(fails: seq<Test> -> bool, k: nat, l: seq<Test>, kind: Kind)
    requires SomeHalfFails(fails)
    ensures var hit := Bisect(Deterministic(fails), k, l, kind).Hit(); hit.Some? ==> |hit.value.tests| == 2
    decreases |l|
  {
    hide HalfA, HalfB;
    if |l| >= 3 && fails(l) {
      hide Bisect;
      Halving(Deterministic(fails), k, l, kind);
      if fails(HalfA(l)) {
        EndsOnPair(fails, k + 1, HalfA(l), GroupA);
      } else {
        EmptyHandedIffFirstRunPasses(Deterministic(fails), k + 2, HalfB(l), GroupB);
        EndsOnPair(fails, k + 2, HalfB(l), GroupB);
      }
    }
  }

  // ---------- Exactly when the fewest tests are found ----------

  /** `t` selects two or more tests of `l` in order and keeps the last one. */
  ghost predicate Reduces(l: seq<Test>, t: seq<Test>) {
    exists at: seq<nat> :: Selects(at, l, t) && |at| >= 2 && at[|at| - 1] == |l| - 1
  }

  /** No failing selection of `l` has fewer than n tests. */
  ghost predicate FewestIn(fails: seq<Test> -> bool, l: seq<Test>, n: nat) {
    forall t :: Reduces(l, t) && fails(t) ==> |t| >= n
  }

  ghost predicate AlwaysFewest(fails: seq<Test> -> bool) {
    forall l: seq<Test>, k: nat, kind: Kind :: HitIsFewest(fails, k, l, kind)
  }

  ghost predicate HitIsFewest(fails: seq<Test> -> bool, k: nat, l: seq<Test>, kind: Kind) {
    var hit := Bisect(Deterministic(fails), k, l, kind).Hit();
    hit.Some? ==> FewestIn(fails, l, |hit.value.tests|)
  }

  /** Some failing selection of `half` is as short as any of `l`. */
  ghost predicate HoldsFewest(fails: seq<Test> -> bool, l: seq<Test>, half: seq<Test>) {
    exists t :: Reduces(half, t) && fails(t) && FewestIn(fails, l, |t|)
  }

  /** The half that the search goes into holds one of the fewest; a list with two passing halves is one. */
  ghost predicate HalvingLosesNone(fails: seq<Test> -> bool, l: seq<Test>)
    requires |l| >= 3
  {
    if fails(HalfA(l)) then HoldsFewest(fails, l, HalfA(l))
    else if fails(HalfB(l)) then HoldsFewest(fails, l, HalfB(l))
    else FewestIn(fails, l, |l|)
  }

  lemma {:induction false} HitFails(fails: seq<Test> -> bool, k: nat, l: seq<Test>, kind: Kind)
    ensures var hit := Bisect(Deterministic(fails), k, l, kind).Hit();
            hit.Some? ==> fails(hit.value.tests) && Reduces(l, hit.value.tests)
  {
    hide HalfA, HalfB, Selects, Bisect;
    var s := Bisect(Deterministic(fails), k, l, kind);
    if s.Hit().Some? {
      var at := HitSelectsFromInput(s, l, kind);
      assert Selects(at, l, s.Hit().value.tests);
      SelectsSize(at, l, s.Hit().value.tests);
      HitListFails(fails, k, l, kind);
    }
  }

  lemma SelectsSize(at: seq<nat>, l: seq<Test>, t: seq<Test>)
    requires Selects(at, l, t)
    ensures |at| == |t|
  {
  }

  lemma {:induction false} HitListFails(fails: seq<Test> -> bool, k: nat, l: seq<Test>, kind: Kind)
    ensures var hit := Bisect(Deterministic(fails), k, l, kind).Hit(); hit.Some? ==> fails(hit.value.tests)
    decreases |l|
  {
    hide HalfA, HalfB, Bisect;
    var oracle := Deterministic(fails);
    EmptyHandedIffFirstRunPasses(oracle, k, l, kind);
    if |l| == 2 {
      PairIsHit(oracle, k, l, kind);
      assert l == [l[0], l[1]];
    } else if |l| >= 3 && fails(l) {
      Halving(oracle, k, l, kind);
      HitListFails(fails, k + 1, HalfA(l), GroupA);
      HitListFails(fails, k + 2, HalfB(l), GroupB);
    }
  }

  /** The search finds the fewest tests, on every list, exactly when halving never loses them. */
  lemma AlwaysFewestIff(fails: seq<Test> -> bool)
    ensures AlwaysFewest(fails) <==> forall l: seq<Test> :: |l| >= 3 && fails(l) ==> HalvingLosesNone(fails, l)
  {
    hide HalfA, HalfB, HitIsFewest, HalvingLosesNone;
    if AlwaysFewest(fails) {
      forall l: seq<Test> | |l| >= 3 && fails(l) ensures HalvingLosesNone(fails, l) {
        assert HitIsFewest(fails, 0, l, All);
        FewestMeansNoneLost(fails, l);
      }
    }
    if forall l: seq<Test> :: |l| >= 3 && fails(l) ==> HalvingLosesNone(fails, l) {
      forall l: seq<Test>, k: nat, kind: Kind ensures HitIsFewest(fails, k, l, kind) {
        NoneLostMeansFewest(fails, k, l, kind);
      }
    }
  }

  lemma FewestMeansNoneLost(fails: seq<Test> -> bool, l: seq<Test>)
    requires |l| >= 3 && fails(l) && HitIsFewest(fails, 0, l, All)
    ensures HalvingLosesNone(fails, l)
  {
    hide HalfA, HalfB, Bisect, Reduces, FewestIn;
    var oracle := Deterministic(fails);
    Halving(oracle, 0, l, All);
    EmptyHandedIffFirstRunPasses(oracle, 1, HalfA(l), GroupA);
    EmptyHandedIffFirstRunPasses(oracle, 2, HalfB(l), GroupB);
    HitFails(fails, 1, HalfA(l), GroupA);
    HitFails(fails, 2, HalfB(l), GroupB);
  }

  lemma {:induction false} NoneLostMeansFewest(fails: seq<Test> -> bool, k: nat, l: seq<Test>, kind: Kind)
    requires forall m: seq<Test> :: |m| >= 3 && fails(m) ==> HalvingLosesNone(fails, m)
    ensures HitIsFewest(fails, k, l, kind)
    decreases |l|
  {
    hide HalfA, HalfB, Bisect, Reduces, FewestIn;
    var oracle := Deterministic(fails);
    EmptyHandedIffFirstRunPasses(oracle, k, l, kind);
    if |l| == 2 {
      PairIsHit(oracle, k, l, kind);
      TwoIsFewest(fails, l);
    } else if |l| >= 3 && fails(l) {
      Halving(oracle, k, l, kind);
      EmptyHandedIffFirstRunPasses(oracle, k + 1, HalfA(l), GroupA);
      EmptyHandedIffFirstRunPasses(oracle, k + 2, HalfB(l), GroupB);
      if fails(HalfA(l)) {
        NoneLostMeansFewest(fails, k + 1, HalfA(l), GroupA);
        FewestOfHalf(fails, l, HalfA(l), |Bisect(oracle, k + 1, HalfA(l), GroupA).Hit().value.tests|);
      } else if fails(HalfB(l)) {
        NoneLostMeansFewest(fails, k + 2, HalfB(l), GroupB);
        FewestOfHalf(fails, l, HalfB(l), |Bisect(oracle, k + 2, HalfB(l), GroupB).Hit().value.tests|);
      }
    }
  }

  lemma TwoIsFewest(fails: seq<Test> -> bool, l: seq<Test>)
    ensures FewestIn(fails, l, 2)
  {
  }

  lemma FewestOfHalf(fails: seq<Test> -> bool, l: seq<Test>, half: seq<Test>, n: nat)
    requires HoldsFewest(fails, l, half) && FewestIn(fails, half, n)
    ensures FewestIn(fails, l, n)
  {
    hide Reduces;
  }

  lemma HalvesOfFive(a: Test, b: Test, c: Test, d: Test, z: Test)
    ensures HalfA([a, b, c, d, z]) == [a, b, z]
    ensures HalfB([a, b, c, d, z]) == [c, d, z]
  {
  }

  /** A case in which halving loses them: when the failure needs two tests that fall into different halves,
      the whole list is returned although dropping tests would still leave a failure. */
  lemma FewestCanBeMissed(a: Test, b: Test, c: Test, d: Test, z: Test, k: nat)
    requires a !in [b, c, d, z] && c !in [a, b, d, z]
    ensures var fails := (l: seq<Test>) => a in l && c in l;
            && Bisect(Deterministic(fails), k, [a, b, c, d, z], All).Hit() == Some(FailingList([a, b, c, d, z], All))
            && Subsequence([a, c, z], [a, b, c, d, z]) && fails([a, c, z])
  {
    hide HalfA, HalfB, Bisect;
    var oracle := Deterministic(l => a in l && c in l);
    var all := [a, b, c, d, z];
    assert oracle(k, all) && !oracle(k + 1, [a, b, z]) && !oracle(k + 2, [c, d, z]);
    HalvesOfFive(a, b, c, d, z);
    Halving(oracle, k, all, All);
    EmptyHandedIffFirstRunPasses(oracle, k + 2, HalfB(all), GroupB);
    assert Selects([0, 2, 4], all, [a, c, z]);
  }

  // ---------- The files left behind ----------

  function OutputName(suite: string, kind: Kind): string {
    OUTPUT_FOLDER + "_failing_test_list_" + suite + "_" + kind.Name() + ".txt"
  }

  function PytestCommand(name: string): string {
    "pytest -p 'no:randomly' `cat " + OUTPUT_FOLDER + "/" + name + "`"
  }

  function Line(test: Test): string {
    test + "\n"
  }

  /** What is written for a list of tests: one line a test. */
  function Text(tests: seq<Test>): string {
    if tests == [] then "" else Line(tests[0]) + Text(tests[1..])
  }

  lemma {:induction false} TextSnoc(tests: seq<Test>, test: Test)
    ensures Text(tests + [test]) == Text(tests) + Line(test)
  {
    hide Line;
    if tests == [] {
      assert [test][1..] == [];
    } else {
      assert (tests + [test])[1..] == tests[1..] + [test];
      TextSnoc(tests[1..], test);
    }
  }

  /** The words a shell splits a text into, `word` being the one under way. */
  function Words(text: string, word: string): seq<string>
    decreases |text|
  {
    if text == "" then (if word == "" then [] else [word])
    else if text[0] in " \t\n" then (if word == "" then [] else [word]) + Words(text[1..], "")
    else Words(text[1..], word + [text[0]])
  }

  /** A test name as the console-log pattern captures it: non-empty, without white space. */
  predicate PlainName(t: Test) {
    t != "" && forall i :: 0 <= i < |t| ==> t[i] !in " \t\n"
  }

  lemma {:induction false} WordsOfLine(name: string, word: string, more: string)
    requires word + name != ""
    requires forall i :: 0 <= i < |name| ==> name[i] !in " \t\n"
    ensures Words(name + "\n" + more, word) == [word + name] + Words(more, "")
    decreases |name|
  {
    var text := name + "\n" + more;
    if name == "" {
      assert text[0] == '\n' && text[1..] == more && word + name == word;
    } else {
      assert text[0] == name[0] && text[1..] == name[1..] + "\n" + more;
      assert (word + [name[0]]) + name[1..] == word + name;
      WordsOfLine(name[1..], word + [name[0]], more);
    }
  }

  /** Running the returned command re-runs exactly the list written to the file. */
  lemma {:induction false} CommandReplaysList(tests: seq<Test>)
    requires forall i :: 0 <= i < |tests| ==> PlainName(tests[i])
    ensures Words(Text(tests), "") == tests
    decreases |tests|
  {
    if tests != [] {
      assert PlainName(tests[0]);
      WordsOfLine(tests[0], "", Text(tests[1..]));
      assert Line(tests[0]) + Text(tests[1..]) == tests[0] + "\n" + Text(tests[1..]);
      CommandReplaysList(tests[1..]);
      assert "" + tests[0] == tests[0];
      assert [tests[0]] + tests[1..] == tests;
    }
  }

  /** The folder after some runs: a failing run leaves its list in the file of its kind (the list's
      length does not reach the name), a passing one leaves nothing. */
  function Replay(folder: map<string, string>, suite: string, runs: seq<Run>): map<string, string> {
    if runs == [] then folder
    else
      var r := runs[|runs| - 1];
      var f := Replay(folder, suite, runs[..|runs| - 1]);
      if r.failed then f[OutputName(suite, r.kind) := Text(r.tests)] else f
  }

  lemma {:induction false} ReplayConcat(folder: map<string, string>, suite: string, xs: seq<Run>, ys: seq<Run>)
    ensures Replay(folder, suite, xs + ys) == Replay(Replay(folder, suite, xs), suite, ys)
    decreases |ys|
  {
    if ys == [] {
      assert xs + ys == xs;
    } else {
      var n := |ys| - 1;
      assert (xs + ys)[..|xs| + n] == xs + ys[..n];
      ReplayConcat(folder, suite, xs, ys[..n]);
    }
  }

  lemma {:induction false} ReplayOnlyAddsOutputs(folder: map<string, string>, suite: string, runs: seq<Run>)
    ensures forall name :: name in Replay(folder, suite, runs) ==>
              name in folder || exists i :: 0 <= i < |runs| && runs[i].failed && name == OutputName(suite, runs[i].kind)
    decreases |runs|
  {
    if runs != [] {
      var n := |runs| - 1;
      ReplayOnlyAddsOutputs(folder, suite, runs[..n]);
      forall name | name in Replay(folder, suite, runs) && name !in folder
        ensures exists i :: 0 <= i < |runs| && runs[i].failed && name == OutputName(suite, runs[i].kind)
      {
        if runs[n].failed && name == OutputName(suite, runs[n].kind) {
        } else {
          var i :| 0 <= i < n && runs[..n][i].failed && name == OutputName(suite, runs[..n][i].kind);
          assert runs[i] == runs[..n][i];
        }
      }
    }
  }

  // ---------- Which failing lists are kept ----------

  lemma NoUnderscore(a: Kind, i: nat)
    requires i < |a.Name()|
    ensures a.Name()[i] != '_'
  {
  }

  lemma NamesDiffer(a: Kind, b: Kind)
    requires a.Name() == b.Name()
    ensures a == b
  {
    assert |a.Name()| == |b.Name()|;
    assert |a.Name()| == 7 ==> a.Name()[6] == b.Name()[6];
  }

  lemma NotLonger(front: string, s: string, a: Kind, t: string, b: Kind)
    requires front + s + "_" + a.Name() + ".txt" == front + t + "_" + b.Name() + ".txt"
    ensures |b.Name()| <= |a.Name()|
  {
    var x, y := front + s + "_" + a.Name() + ".txt", front + t + "_" + b.Name() + ".txt";
    var n := |x| - 5 - |a.Name()|;
    assert x[n] == '_';
    if |b.Name()| > |a.Name()| {
      var i := |b.Name()| - 1 - |a.Name()|;
      assert y[n] == b.Name()[i];
      NoUnderscore(b, i);
    }
  }

  /** Different suites and different kinds of lists have different files. */
  lemma OutputNamesDiffer(s: string, a: Kind, t: string, b: Kind)
    requires OutputName(s, a) == OutputName(t, b)
    ensures s == t && a == b
  {
    hide Kind.Name;
    var front := OUTPUT_FOLDER + "_failing_test_list_";
    NotLonger(front, s, a, t, b);
    NotLonger(front, t, b, s, a);
    var x, y := OutputName(s, a), OutputName(t, b);
    assert |s| == |t|;
    assert x[|front|..|front| + |s|] == s && y[|front|..|front| + |t|] == t;
    var k := |front| + |s| + 1;
    assert x[k..k + |a.Name()|] == a.Name() && y[k..k + |b.Name()|] == b.Name();
    NamesDiffer(a, b);
  }

  predicate FailedAs(runs: seq<Run>, i: nat, kind: Kind) {
    i < |runs| && runs[i].failed && runs[i].kind == kind
  }

  /** The last failing run of a kind is the one on file. */
  lemma {:induction false} LastOfKindIsOnFile(folder: map<string, string>, suite: string, runs: seq<Run>, i: nat)
    requires i < |runs| && runs[i].failed
    requires forall j :: i < j < |runs| ==> !FailedAs(runs, j, runs[i].kind)
    ensures var name := OutputName(suite, runs[i].kind);
            var after := Replay(folder, suite, runs);
            name in after && after[name] == Text(runs[i].tests)
    decreases |runs|
  {
    hide OutputName, Text;
    var n := |runs| - 1;
    if i < n {
      var before := runs[..n];
      assert forall j :: 0 <= j < n ==> before[j] == runs[j];
      forall j | i < j < n ensures !FailedAs(before, j, runs[i].kind) {
        assert !FailedAs(runs, j, runs[i].kind);
      }
      LastOfKindIsOnFile(folder, suite, before, i);
      assert !FailedAs(runs, n, runs[i].kind);
      if OutputName(suite, runs[n].kind) == OutputName(suite, runs[i].kind) {
        OutputNamesDiffer(suite, runs[n].kind, suite, runs[i].kind);
      }
    }
  }

  /** Position of the last failing run of a kind at or after i. */
  lemma {:induction false} LastOfKind(runs: seq<Run>, i: nat, kind: Kind) returns (last: nat)
    requires FailedAs(runs, i, kind)
    ensures i <= last && FailedAs(runs, last, kind)
    ensures forall j :: last < j < |runs| ==> !FailedAs(runs, j, kind)
    decreases |runs| - i
  {
    if j: nat :| i < j && FailedAs(runs, j, kind) {
      last := LastOfKind(runs, j, kind);
    } else {
      last := i;
    }
  }

  predicate AllPlain(tests: seq<Test>) {
    forall i :: 0 <= i < |tests| ==> PlainName(tests[i])
  }

  /** Later failing runs are on other lists than earlier ones, and all lists are of plain names. */
  predicate ListsDiffer(runs: seq<Run>) {
    && (forall i :: 0 <= i < |runs| ==> AllPlain(runs[i].tests))
    && (forall i, j :: 0 <= i < j < |runs| && runs[i].failed && runs[j].failed ==> |runs[j].tests| < |runs[i].tests|)
  }

  lemma KeptIff(folder: map<string, string>, suite: string, runs: seq<Run>, i: nat)
    requires ListsDiffer(runs) && i < |runs| && runs[i].failed
    ensures var name := OutputName(suite, runs[i].kind);
            var after := Replay(folder, suite, runs);
            && name in after
            && (after[name] == Text(runs[i].tests) <==> forall j :: i < j < |runs| ==> !FailedAs(runs, j, runs[i].kind))
  {
    hide OutputName, Text, Replay, AllPlain;
    assert FailedAs(runs, i, runs[i].kind);
    var last := LastOfKind(runs, i, runs[i].kind);
    LastOfKindIsOnFile(folder, suite, runs, last);
    if i < last {
      assert |runs[last].tests| < |runs[i].tests|;
      TextsDiffer(runs[last].tests, runs[i].tests);
    }
  }

  lemma TextsDiffer(a: seq<Test>, b: seq<Test>)
    requires AllPlain(a) && AllPlain(b) && a != b
    ensures Text(a) != Text(b)
  {
    CommandReplaysList(a);
    CommandReplaysList(b);
  }

  lemma HalvesArePlain(tests: seq<Test>)
    requires |tests| >= 3 && AllPlain(tests)
    ensures AllPlain(HalfA(tests)) && AllPlain(HalfB(tests))
  {
    hide PlainName;
    var atA, atB := HalvesSelect(tests);
  }

  /** A search goes on from a failing run to shorter lists only. */
  lemma {:induction false} SearchShortens(s: Search, tests: seq<Test>, kind: Kind)
    requires s.Searches(tests, kind) && AllPlain(tests)
    ensures ListsDiffer(s.Runs())
    ensures forall i :: 0 <= i < |s.Runs()| ==> |s.Runs()[i].tests| <= |tests|
    decreases s
  {
    hide HalfA, HalfB, AllPlain;
    if s.Tested? && s.run.failed && |tests| > 2 {
      HalvesArePlain(tests);
      SearchShortens(s.a, HalfA(tests), GroupA);
      if s.a.Hit().None? {
        EmptyHandedRuns(s.a, HalfA(tests), GroupA);
        SearchShortens(s.b, HalfB(tests), GroupB);
        assert s.Runs() == [s.run] + [Run(GroupA, HalfA(tests), false)] + s.b.Runs();
      } else {
        assert s.Runs() == [s.run] + s.a.Runs();
      }
    }
  }

  /** Of the lists seen failing in a search, exactly those are still on file in the end, under the name of
      their kind, that no later failing list of the same kind has replaced. */
  lemma FailingListIsKeptIff(folder: map<string, string>, suite: string, s: Search, tests: seq<Test>, kind: Kind,
                             i: nat)
    requires s.Searches(tests, kind) && AllPlain(tests)
    requires i < |s.Runs()| && s.Runs()[i].failed
    ensures var run := s.Runs()[i];
            var name := OutputName(suite, run.kind);
            var after := Replay(folder, suite, s.Runs());
            && name in after
            && (after[name] == Text(run.tests) <==> forall j :: i < j < |s.Runs()| ==> !FailedAs(s.Runs(), j, run.kind))
  {
    hide Search.Searches, ListsDiffer, Replay, OutputName, Text, AllPlain;
    SearchShortens(s, tests, kind);
    KeptIff(folder, suite, s.Runs(), i);
  }

  /** A failing list that is lost: when the first of five tests is to blame, group A fails twice, and the
      file of the pair replaces that of the three. */
  lemma FailingListIsLost(suite: string, a: Test, b: Test, c: Test, d: Test, z: Test)
    requires AllPlain([a, b, c, d, z]) && a !in [b, c, d, z]
    ensures var s := Bisect(Deterministic(l => a in l), 0, [a, b, c, d, z], All);
            && Run(GroupA, [a, b, z], true) in s.Runs()
            && forall name :: name in Replay(map[], suite, s.Runs()) ==>
                                Replay(map[], suite, s.Runs())[name] != Text([a, b, z])
  {
    hide HalfA, HalfB, Text, OutputName, PlainName;
    var s := Bisect(Deterministic(l => a in l), 0, [a, b, c, d, z], All);
    HalvesOfFive(a, b, c, d, z);
    HalfOfThree(a, b, z);
    assert s.a == Bisect(Deterministic(l => a in l), 1, [a, b, z], GroupA);
    assert s.a.a == Bisect(Deterministic(l => a in l), 2, [a, z], GroupA);
    var all, three, two := Run(All, [a, b, c, d, z], true), Run(GroupA, [a, b, z], true), Run(GroupA, [a, z], true);
    assert s.Runs() == [all, three, two];
    hide Bisect, Replay, Search.Runs;
    ThreeFailures(suite, all, three, two);
    var l := [a, b, c, d, z];
    assert PlainName(l[0]) && PlainName(l[1]) && PlainName(l[4]);
    TextsDiffer([a, b, c, d, z], [a, b, z]);
    TextsDiffer([a, z], [a, b, z]);
  }

  lemma ThreeFailures(suite: string, x: Run, y: Run, z: Run)
    requires x.failed && y.failed && z.failed && y.kind == z.kind
    ensures forall name :: name in Replay(map[], suite, [x, y, z]) ==>
                             Replay(map[], suite, [x, y, z])[name] in [Text(x.tests), Text(z.tests)]
  {
    hide OutputName, Text;
    assert [x, y, z][..2] == [x, y] && [x, y][..1] == [x] && [x][..0] == [];
    var f := map[OutputName(suite, x.kind) := Text(x.tests)];
    assert Replay(map[], suite, [x]) == f;
    assert Replay(map[], suite, [x, y]) == f[OutputName(suite, y.kind) := Text(y.tests)];
    assert Replay(map[], suite, [x, y, z]) ==
           f[OutputName(suite, y.kind) := Text(y.tests)][OutputName(suite, z.kind) := Text(z.tests)];
  }

  lemma HalfOfThree(a: Test, b: Test, z: Test)
    ensures HalfA([a, b, z]) == [a, z]
  {
  }

  /** Although file names repeat and lists overwrite each other, after a successful search the file
      of the hit's kind holds the hit's list. */
  lemma HitIsOnFile(folder: map<string, string>, suite: string, s: Search, tests: seq<Test>, kind: Kind)
    requires s.Searches(tests, kind) && s.Hit().Some?
    ensures var name := OutputName(suite, s.Hit().value.kind);
            var after := Replay(folder, suite, s.Runs());
            name in after && after[name] == Text(s.Hit().value.tests)
  {
    hide HalfA, HalfB, Text, OutputName, Search.Searches, Search.Hit;
    var h := s.Hit().value;
    var before := HitIsLastFailure(s, tests, kind);
    var f := Replay(folder, suite, before);
    var own, halves := [Run(h.kind, h.tests, true)], Closing(h)[1..];
    assert Closing(h) == own + halves;
    ReplayConcat(folder, suite, before, Closing(h));
    ReplayConcat(f, suite, own, halves);
    PassingRunsLeaveNothing(Replay(f, suite, own), suite, halves);
  }

  lemma {:induction false} PassingRunsLeaveNothing(folder: map<string, string>, suite: string, runs: seq<Run>)
    requires forall i :: 0 <= i < |runs| ==> !runs[i].failed
    ensures Replay(folder, suite, runs) == folder
    decreases |runs|
  {
    if runs != [] {
      PassingRunsLeaveNothing(folder, suite, runs[..|runs| - 1]);
    }
  }

  /** A search's runs, and what they leave in the folder, call by call. */
  lemma Unrolled(log: seq<Run>, folder: map<string, string>, suite: string, s: Search)
    ensures s.Untested? ==> log + s.Runs() == log && Replay(folder, suite, s.Runs()) == folder
    ensures s.Tested? ==>
              && log + s.Runs() == log + [s.run] + s.a.Runs() + s.b.Runs()
              && Replay(folder, suite, s.Runs()) ==
                 Replay(Replay(Replay(folder, suite, [s.run]), suite, s.a.Runs()), suite, s.b.Runs())
    ensures forall f: map<string, string> :: Replay(f, suite, Untested.Runs()) == f
    ensures forall l: seq<Run> :: l + Untested.Runs() == l
  {
    assert Untested.Runs() == [];
    if s.Tested? {
      ReplayConcat(folder, suite, [s.run], s.a.Runs());
      ReplayConcat(folder, suite, [s.run] + s.a.Runs(), s.b.Runs());
    }
  }

  /** Which calls a call makes, and which of their hits it returns. */
  lemma Calls(oracle: Oracle, k: nat, tests: seq<Test>, kind: Kind)
    ensures var s := Bisect(oracle, k, tests, kind);
            if |tests| <= 1 then s.Untested? && s.Hit().None?
            else
              && s.Tested? && s.run == Run(kind, tests, oracle(k, tests))
              && if !oracle(k, tests) || |tests| == 2 then
                   && s.a == s.b == Untested
                   && s.Hit() == (if oracle(k, tests) then Some(FailingList(tests, kind)) else None)
                 else
                   && s.a == Bisect(oracle, k + 1, HalfA(tests), GroupA)
                   && if s.a.Hit().Some? then s.b == Untested && s.Hit() == s.a.Hit()
                      else
                        && s.b == Bisect(oracle, k + 1 + |s.a.Runs()|, HalfB(tests), GroupB)
                        && s.Hit() == if s.b.Hit().Some? then s.b.Hit() else Some(FailingList(tests, kind))
  {
    hide HalfA, HalfB;
  }

  // ---------- The program ----------

  datatype Verdict =
    | NoFailureInLog
    | FailsAlone
    | Reproduced(count: nat, command: string)
    | NotReproduced

  /** What the program concludes from the failing test's list, its first run being number `k`. */
  function Conclusion(suite: string, oracle: Oracle, k: nat, failing: Option<seq<Test>>): Verdict
    requires failing.Some? ==> failing.value != []
  {
    if failing.None? then NoFailureInLog
    else
      var tests := failing.value;
      if oracle(k, [tests[|tests| - 1]]) then FailsAlone
      else
        match Bisect(oracle, k + 1, tests, All).Hit()
        case None => NotReproduced
        case Some(h) => Reproduced(|h.tests|, PytestCommand(OutputName(suite, h.kind)))
  }

  /** The runs it makes on the way. */
  function RunsMade(oracle: Oracle, k: nat, failing: Option<seq<Test>>): seq<Run>
    requires failing.Some? ==> failing.value != []
  {
    if failing.None? then []
    else
      var last := [failing.value[|failing.value| - 1]];
      [Run(Single, last, oracle(k, last))] +
      if oracle(k, last) then [] else Bisect(oracle, k + 1, failing.value, All).Runs()
  }

  /** What each verdict means, in terms of the runs that were made. */
  lemma VerdictMeans(suite: string, oracle: Oracle, k: nat, failing: Option<seq<Test>>)
    requires failing.Some? ==> failing.value != []
    ensures var verdict, runs := Conclusion(suite, oracle, k, failing), RunsMade(oracle, k, failing);
            && (verdict.NoFailureInLog? <==> failing.None?)
            && (failing.None? ==> runs == [])
            && (failing.Some? ==>
                  var tests := failing.value;
                  var passedAlone := Run(Single, [tests[|tests| - 1]], false);
                  && (verdict.FailsAlone? <==> runs == [Run(Single, [tests[|tests| - 1]], true)])
                  && (verdict.Reproduced? <==>
                        |runs| >= 2 && runs[0] == passedAlone && runs[1] == Run(All, tests, true))
                  && (verdict.NotReproduced? <==>
                        runs == if |tests| == 1 then [passedAlone] else [passedAlone, Run(All, tests, false)]))
  {
    hide Bisect, OutputName, PytestCommand, Search.Hit, Search.Runs, Search.Searches;
    if failing.Some? {
      SearchStarts(oracle, k + 1, failing.value);
      var more := Bisect(oracle, k + 1, failing.value, All).Runs();
      var last := [failing.value[|failing.value| - 1]];
      var single := Run(Single, last, oracle(k, last));
      assert RunsMade(oracle, k, failing) == if single.failed then [single] else [single] + more;
      assert [single] + [] == [single];
    }
  }

  lemma SearchStarts(oracle: Oracle, k: nat, tests: seq<Test>)
    ensures var s := Bisect(oracle, k, tests, All);
            && (s.Hit().None? <==> |tests| <= 1 || !oracle(k, tests))
            && (|tests| <= 1 ==> s.Runs() == [])
            && (|tests| > 1 ==> s.Runs() != [] && s.Runs()[0] == Run(All, tests, oracle(k, tests)))
            && (s.Hit().None? && |tests| > 1 ==> s.Runs() == [Run(All, tests, false)])
  {
    hide HalfA, HalfB, Search.Hit;
    EmptyHandedIffFirstRunPasses(oracle, k, tests, All);
  }

  /** And in terms of what pytest answers. */
  lemma VerdictIs(suite: string, oracle: Oracle, k: nat, failing: Option<seq<Test>>)
    requires failing.Some? ==> failing.value != []
    ensures failing.Some? ==>
              var verdict, tests := Conclusion(suite, oracle, k, failing), failing.value;
              var failsAlone := oracle(k, [tests[|tests| - 1]]);
              && (verdict.FailsAlone? <==> failsAlone)
              && (verdict.Reproduced? <==> !failsAlone && |tests| > 1 && oracle(k + 1, tests))
              && (verdict.NotReproduced? <==> !failsAlone && (|tests| == 1 || !oracle(k + 1, tests)))
  {
    hide Bisect, OutputName, PytestCommand, Search.Hit, Search.Runs, Search.Searches;
    if failing.Some? {
      SearchStarts(oracle, k + 1, failing.value);
    }
  }

  /** What the command's backquotes enclose is a `cat` of the file in the folder. */
  lemma CommandNamesFile(name: string)
    requires '`' !in name
    ensures Split(PytestCommand(name), "`") == ["pytest -p 'no:randomly' ", "cat " + OUTPUT_FOLDER + "/" + name, ""]
  {
    var a, b := "pytest -p 'no:randomly' ", "cat " + OUTPUT_FOLDER + "/" + name;
    var parts := [a, b, ""];
    assert parts[1..] == [b, ""] && [b, ""][1..] == [""];
    assert Join([""], ['`']) == "";
    assert Join([b, ""], ['`']) == b + ['`'] + "" == b + ['`'];
    assert Join(parts, ['`']) == a + ['`'] + (b + ['`']);
    assert PytestCommand(name) == a + ['`'] + (b + ['`']);
    SplitUndoesJoin(parts, '`');
  }

  /** The command reported names a file that is there and holds the reported number of tests, ending
      with the test that failed in the log and passes alone; the list was seen failing. */
  lemma ReportedCommandIsGood(suite: string, oracle: Oracle, k: nat, failing: Option<seq<Test>>) returns (h: Hit)
    requires failing.Some? ==> failing.value != []
    requires Conclusion(suite, oracle, k, failing).Reproduced?
    ensures var folder := Replay(map[], suite, RunsMade(oracle, k, failing));
            var name := OutputName(suite, h.kind);
            && Conclusion(suite, oracle, k, failing) == Reproduced(|h.tests|, PytestCommand(name))
            && name in folder && folder[name] == Text(h.tests)
    ensures Run(h.kind, h.tests, true) in RunsMade(oracle, k, failing)
    ensures |h.tests| >= 2 && Subsequence(h.tests, failing.value)
    ensures h.tests[|h.tests| - 1] == failing.value[|failing.value| - 1]
    ensures Run(Single, [h.tests[|h.tests| - 1]], false) in RunsMade(oracle, k, failing)
  {
    hide HalfA, HalfB, Text, OutputName, PytestCommand, Search.Hit, Search.Searches, Search.Runs, Replay, Bisect;
    var tests := failing.value;
    var s := Bisect(oracle, k + 1, tests, All);
    h := s.Hit().value;
    var single := [Run(Single, [tests[|tests| - 1]], false)];
    assert RunsMade(oracle, k, failing) == single + s.Runs();
    ReplayConcat(map[], suite, single, s.Runs());
    PassingRunsLeaveNothing(map[], suite, single);
    HitIsOnFile(map[], suite, s, tests, All);
    var before := HitIsLastFailure(s, tests, All);
    assert s.Runs()[|before|] == Run(h.kind, h.tests, true);
    var at := HitSelectsFromInput(s, tests, All);
  }

  /** Of all lists the program saw failing, the folder keeps in the end exactly those that no later failing
      list of the same kind has replaced. */
  lemma ProgramKeepsListIff(suite: string, oracle: Oracle, k: nat, tests: seq<Test>, i: nat)
    requires tests != [] && AllPlain(tests)
    requires var runs := RunsMade(oracle, k, Some(tests)); i < |runs| && runs[i].failed
    ensures var runs := RunsMade(oracle, k, Some(tests));
            var name := OutputName(suite, runs[i].kind);
            var after := Replay(map[], suite, runs);
            && name in after
            && (after[name] == Text(runs[i].tests) <==> forall j :: i < j < |runs| ==> !FailedAs(runs, j, runs[i].kind))
  {
    hide Search.Searches, Search.Runs, Bisect, Replay, OutputName, Text, PlainName;
    var s := Bisect(oracle, k + 1, tests, All);
    var last := [tests[|tests| - 1]];
    SearchShortens(s, tests, All);
    SingleFirst(Run(Single, last, oracle(k, last)), if oracle(k, last) then [] else s.Runs());
    KeptIff(map[], suite, RunsMade(oracle, k, Some(tests)), i);
  }

  lemma SingleFirst(single: Run, runs: seq<Run>)
    requires AllPlain(single.tests) && ListsDiffer(runs) && (single.failed ==> runs == [])
    ensures ListsDiffer([single] + runs)
  {
    hide AllPlain;
    var all := [single] + runs;
    assert forall i :: 0 < i < |all| ==> all[i] == runs[i - 1];
  }

  lemma {:induction false} FreshNameExists(prefix: string, names: set<string>)
    ensures exists name: string :: prefix < name && name !in names
    decreases |names|
  {
    var longer := prefix + "a";
    if longer in names {
      FreshNameExists(longer, names - {longer});
      var name :| longer < name && name !in names - {longer};
      assert prefix < name;
    } else {
      assert prefix < longer;
    }
  }

  class Finder {
    const suite: string
    const oracle: Oracle
    var folder: map<string, string>
    var runs: seq<Run>

    constructor (suite: string, oracle: Oracle, folder: map<string, string>)
      ensures this.suite == suite && this.oracle == oracle && this.folder == folder && runs == []
    {
      this.suite, this.oracle, this.folder, this.runs := suite, oracle, folder, [];
    }

    method RunTests(tests: seq<Test>, kind: Kind) returns (failed: bool)
      modifies `runs
      ensures failed == oracle(|old(runs)|, tests)
      ensures runs == old(runs) + [Run(kind, tests, failed)]
    {
      failed := oracle(|runs|, tests);
      runs := runs + [Run(kind, tests, failed)];
    }

    /** Writes the list to a temporary file, runs it, and keeps the file, under the name of its kind,
        only if the run failed. No temporary file survives. */
    method CreateAndCheck(tests: seq<Test>, kind: Kind) returns (command: Option<string>)
      modifies this
      ensures runs == old(runs) + [Run(kind, tests, oracle(|old(runs)|, tests))]
      ensures folder == Replay(old(folder), suite, [Run(kind, tests, oracle(|old(runs)|, tests))])
      ensures command == if oracle(|old(runs)|, tests) then Some(PytestCommand(OutputName(suite, kind))) else None
    {
      hide OutputName, PytestCommand, Line;
      var output := OutputName(suite, kind);
      FreshNameExists(output, folder.Keys);
      var temp: string :| output < temp && temp !in folder.Keys;
      folder := folder[temp := ""];
      for i := 0 to |tests|
        invariant folder == old(folder)[temp := Text(tests[..i])]
        invariant runs == old(runs)
      {
        TextSnoc(tests[..i], tests[i]);
        assert tests[..i + 1] == tests[..i] + [tests[i]];
        folder := folder[temp := folder[temp] + Line(tests[i])];
      }
      assert tests[..|tests|] == tests;
      var failed := RunTests(tests, kind);
      var run := Run(kind, tests, failed);
      assert [run][..0] == [];
      if failed {
        folder := (folder - {temp})[output := folder[temp]];
        assert folder == old(folder)[output := Text(tests)];
        command := Some(PytestCommand(output));
      } else {
        folder := folder - {temp};
        assert folder == old(folder);
        command := None;
      }
    }

    method FindFewest(tests: seq<Test>, kind: Kind) returns (list: Option<seq<Test>>, command: Option<string>)
      modifies this
      ensures runs == old(runs) + Bisect(oracle, |old(runs)|, tests, kind).Runs()
      ensures folder == Replay(old(folder), suite, Bisect(oracle, |old(runs)|, tests, kind).Runs())
      ensures match Bisect(oracle, |old(runs)|, tests, kind).Hit()
              case None => list == None && command == None
              case Some(h) => list == Some(h.tests) && command == Some(PytestCommand(OutputName(suite, h.kind)))
      decreases |tests|
    {
      hide HalfA, HalfB, Text, OutputName, PytestCommand, Replay, Bisect,
        Search.Runs, Search.Searches, Search.Hit, Search.Size;
      ghost var all := Bisect(oracle, |runs|, tests, kind);
      Calls(oracle, |runs|, tests, kind);
      Unrolled(runs, folder, suite, all);
      if |tests| <= 1 {
        return None, None;
      }
      var own := CreateAndCheck(tests, kind);
      if own.None? {
        return None, None;
      }
      if |tests| == 2 {
        return Some(tests), own;
      }
      var half := RoundHalf(|tests| - 1);
      HalvesAre(tests);
      var listA, commandA := FindFewest(tests[0..half] + tests[|tests| - 1..], GroupA);
      if listA.Some? {
        return listA, commandA;
      }
      var listB, commandB := FindFewest(tests[half..], GroupB);
      if listB.Some? {
        return listB, commandB;
      }
      return Some(tests), own;
    }

    /** The whole program after the log has been stripped: the folder is emptied, the failing test is
        tried alone, and only if it passes alone is the list bisected. */
    method Investigate(failing: Option<seq<Test>>) returns (verdict: Verdict)
      requires failing.Some? ==> failing.value != []
      modifies this
      ensures verdict == Conclusion(suite, oracle, |old(runs)|, failing)
      ensures runs == old(runs) + RunsMade(oracle, |old(runs)|, failing)
      ensures folder == Replay(map[], suite, RunsMade(oracle, |old(runs)|, failing))
    {
      hide Text, OutputName, PytestCommand, HalfA, HalfB, Replay, Search.Hit, Search.Runs, Search.Searches, Bisect;
      folder := map[];
      if failing.None? {
        PassingRunsLeaveNothing(map[], suite, []);
        return NoFailureInLog;
      }
      var tests := failing.value;
      assert tests[|tests| - 1..] == [tests[|tests| - 1]];
      var alone := CreateAndCheck(tests[|tests| - 1..], Single);
      if alone.Some? {
        assert RunsMade(oracle, |old(runs)|, failing) == [runs[|runs| - 1]];
        return FailsAlone;
      }
      ReplayConcat(map[], suite, [runs[|runs| - 1]], Bisect(oracle, |runs|, tests, All).Runs());
      var list, command := FindFewest(tests, All);
      return if list.Some? then Reproduced(|list.value|, command.value) else NotReproduced;
    }
  }
}
