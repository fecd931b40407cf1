/** From pytest sessions, each leaving a warnings file, to the one report over all of them. */
module Sessions {
  import opened Common
  import opened Ordering
  import opened Warnings
  import opened HtmlReport

  /** A session's JSON report; a report without warnings lacks the key. */
  datatype Report = Report(warnings: Option<seq<Dict>>)

  type Directory = map<string, Report>

  const POSTFIX := "pytest_warnings"
  const LAST := 100

  // ---------- File names ----------

  function Digit(d: nat): char
    requires d < 10
  {
    '0' + d as char
  }

  predicate IsDigit(c: char) {
    '0' <= c <= '9'
  }

  /** str(n) */
  function Decimal(n: nat): (s: string)
    ensures s != "" && forall i :: 0 <= i < |s| ==> IsDigit(s[i])
  {
    if n < 10 then [Digit(n)] else Decimal(n / 10) + [Digit(n % 10)]
  }

  lemma {:induction false} DecimalInjective(m: nat, n: nat)
    requires Decimal(m) == Decimal(n)
    ensures m == n
  {
    var a, b := Decimal(m), Decimal(n);
    assert a[|a| - 1] == Digit(m % 10) && b[|b| - 1] == Digit(n % 10);
    if m >= 10 && n >= 10 {
      assert a[..|a| - 1] == Decimal(m / 10) && b[..|b| - 1] == Decimal(n / 10);
      DecimalInjective(m / 10, n / 10);
    }
  }

  /** The suite's name, if the environment sets one, the postfix, and the number unless it is 0. */
  function FileName(suite: Option<string>, num: nat): string {
    (if suite.Some? then suite.value + "_" else "") + POSTFIX + (if num != 0 then "_" + Decimal(num) else "") + ".json"
  }

  lemma ConcatCancels(a: string, x: string, y: string, z: string)
    requires a + x + z == a + y + z
    ensures x == y
  {
    assert |x| == |y|;
    assert x == (a + x + z)[|a|..|a| + |x|] && y == (a + y + z)[|a|..|a| + |x|];
  }

  lemma FileNamesDiffer(suite: Option<string>, m: nat, n: nat)
    requires FileName(suite, m) == FileName(suite, n)
    ensures m == n
  {
    hide Decimal;
    var a := (if suite.Some? then suite.value + "_" else "") + POSTFIX;
    var x := if m != 0 then "_" + Decimal(m) else "";
    var y := if n != 0 then "_" + Decimal(n) else "";
    ConcatCancels(a, x, y, ".json");
    if m != 0 && n != 0 {
      assert x[1..] == Decimal(m) && y[1..] == Decimal(n);
      DecimalInjective(m, n);
    }
  }

  /** In what follows a suite's name, no underscore stands before a "p". */
  lemma NoSecondPostfix(num: nat, i: nat)
    requires i + 1 < |POSTFIX + Tail(num)|
    ensures !((POSTFIX + Tail(num))[i] == '_' && (POSTFIX + Tail(num))[i + 1] == 'p')
  {
    hide Decimal;
    var t, digits := POSTFIX + Tail(num), Decimal(num);
    var n := |POSTFIX|;
    if i + 1 < n {
      assert t[i] == POSTFIX[i] && t[i + 1] == POSTFIX[i + 1];
      assert POSTFIX[i] == '_' ==> i == 6;
    } else if num != 0 && i == n {
      assert t[i + 1] == Tail(num)[1] == digits[0];
    } else if num != 0 && n < i <= n + |digits| {
      assert t[i] == Tail(num)[i - n] == digits[i - n - 1];
    } else if i >= n {
      var k := if num != 0 then |digits| + 1 else 0;
      assert t[i] == Tail(num)[i - n] == ".json"[i - n - k];
    }
  }

  function Front(suite: Option<string>): string {
    if suite.Some? then suite.value + "_" else ""
  }

  lemma ShorterFront(s: Option<string>, m: nat, t: Option<string>, n: nat)
    requires FileName(s, m) == FileName(t, n)
    ensures |Front(t)| <= |Front(s)|
  {
    hide Tail;
    NameParts(s, m);
    NameParts(t, n);
    var a, b, name := Front(s), Front(t), FileName(s, m);
    if |a| < |b| {
      var i := |b| - 1 - |a|;
      assert name[|b| - 1] == b[|b| - 1] == '_' && name[|b|] == (POSTFIX + Tail(n))[0] == 'p';
      assert name[|b| - 1] == (POSTFIX + Tail(m))[i] && name[|b|] == (POSTFIX + Tail(m))[i + 1];
      NoSecondPostfix(m, i);
    }
  }

  /** Sessions of different suites write different files, also if one of them has none. */
  lemma SuitesDoNotCollide(s: Option<string>, m: nat, t: Option<string>, n: nat)
    requires FileName(s, m) == FileName(t, n)
    ensures s == t && m == n
  {
    hide Tail, FileName;
    ShorterFront(s, m, t, n);
    ShorterFront(t, n, s, m);
    SameFront(s, m, t, n);
    FileNamesDiffer(s, m, n);
  }

  lemma SameFront(s: Option<string>, m: nat, t: Option<string>, n: nat)
    requires FileName(s, m) == FileName(t, n) && |Front(s)| == |Front(t)|
    ensures s == t
  {
    hide Tail;
    NameParts(s, m);
    NameParts(t, n);
    hide FileName;
    var name := FileName(s, m);
    assert name[..|Front(s)|] == Front(s) && name[..|Front(t)|] == Front(t);
    if s.Some? && t.Some? {
      assert s.value == Front(s)[..|Front(s)| - 1] && t.value == Front(t)[..|Front(t)| - 1];
    }
  }

  // ---------- Writing: one file a session ----------

  /** The first number whose file is free, but no more than LAST. */
  function FreeNum(dir: Directory, suite: Option<string>, num: nat): (r: nat)
    requires num <= LAST
    ensures num <= r <= LAST
    ensures forall i :: num <= i < r ==> FileName(suite, i) in dir
    ensures r < LAST ==> FileName(suite, r) !in dir
    decreases LAST - num
  {
    if FileName(suite, num) in dir && num < LAST then FreeNum(dir, suite, num + 1) else num
  }

  function Finished(dir: Directory, suite: Option<string>, report: Report): Directory {
    dir[FileName(suite, FreeNum(dir, suite, 0)) := report]
  }

  method PytestSessionFinish(dir: Directory, suite: Option<string>, report: Report) returns (after: Directory)
    ensures after == Finished(dir, suite, report)
  {
    hide FileName;
    var num := 0;
    while FileName(suite, num) in dir && num < LAST
      invariant num <= LAST && FreeNum(dir, suite, num) == FreeNum(dir, suite, 0)
    {
      num := num + 1;
    }
    after := dir[FileName(suite, num) := report];
  }

  /** The log directory after some sessions, starting from an empty one. */
  function AfterSessions(suite: Option<string>, reports: seq<Report>): Directory {
    if reports == [] then map[]
    else Finished(AfterSessions(suite, reports[..|reports| - 1]), suite, reports[|reports| - 1])
  }

  /** How many files there are after n sessions, and whose report file i holds. */
  function FilesAfter(n: nat): nat {
    if n <= LAST then n else LAST + 1
  }

  function Writer(i: nat, n: nat): nat
    requires i < FilesAfter(n)
  {
    if i < LAST then i else n - 1
  }

  /** The files are those of the first numbers, holding the reports of their last writers. */
  ghost predicate Holds(dir: Directory, suite: Option<string>, reports: seq<Report>) {
    var n := |reports|;
    && (forall i :: 0 <= i < FilesAfter(n) ==>
          FileName(suite, i) in dir && dir[FileName(suite, i)] == reports[Writer(i, n)])
    && (forall name :: name in dir ==> exists i :: 0 <= i < FilesAfter(n) && name == FileName(suite, i))
  }

  lemma NextFile(dir: Directory, suite: Option<string>, reports: seq<Report>)
    requires Holds(dir, suite, reports)
    ensures FreeNum(dir, suite, 0) == if |reports| <= LAST then |reports| else LAST
  {
    hide FileName;
    var files, num := FilesAfter(|reports|), FreeNum(dir, suite, 0);
    if files < num {
      var i :| 0 <= i < files && FileName(suite, files) == FileName(suite, i);
      FileNamesDiffer(suite, files, i);
    }
  }

  lemma SessionKeepsFiles(dir: Directory, suite: Option<string>, reports: seq<Report>, report: Report)
    requires Holds(dir, suite, reports)
    ensures Holds(Finished(dir, suite, report), suite, reports + [report])
  {
    hide FileName, FreeNum;
    NextFile(dir, suite, reports);
    var n, num := |reports|, FreeNum(dir, suite, 0);
    var after := Finished(dir, suite, report);
    forall i | 0 <= i < FilesAfter(n + 1)
      ensures FileName(suite, i) in after && after[FileName(suite, i)] == (reports + [report])[Writer(i, n + 1)]
    {
      if i != num && FileName(suite, i) == FileName(suite, num) {
        FileNamesDiffer(suite, i, num);
      }
    }
  }

  /** No report is overwritten in the first LAST + 1 sessions; from then on only the last file is. */
  lemma {:induction false} SessionsKeepReports(suite: Option<string>, reports: seq<Report>)
    ensures Holds(AfterSessions(suite, reports), suite, reports)
    decreases |reports|
  {
    hide Holds;
    var n := |reports|;
    if n > 0 {
      SessionsKeepReports(suite, reports[..n - 1]);
      SessionKeepsFiles(AfterSessions(suite, reports[..n - 1]), suite, reports[..n - 1], reports[n - 1]);
      assert reports == reports[..n - 1] + [reports[n - 1]];
    } else {
      NoFiles(suite);
    }
  }

  lemma NoFiles(suite: Option<string>)
    ensures Holds(map[], suite, [])
  {
  }

  // ---------- Reading them all ----------

  predicate DigitsThenJson(s: string) {
    ".json" <= s || (s != "" && IsDigit(s[0]) && DigitsThenJson(s[1..]))
  }

  /** Whether the pattern `pytest_warnings_?\d*\.json` matches at the front. */
  predicate MatchesHere(s: string) {
    POSTFIX <= s &&
    var rest := s[|POSTFIX|..];
    DigitsThenJson(rest) || ("_" <= rest && DigitsThenJson(rest[1..]))
  }

  /** Whether it matches somewhere: re.search. */
  predicate IsWarningsFile(name: string) {
    MatchesHere(name) || (name != "" && IsWarningsFile(name[1..]))
  }

  lemma {:induction false} DigitsThenJsonIff(s: string)
    ensures DigitsThenJson(s) <==> exists k: nat :: DigitsUpTo(s, k)
  {
    if ".json" <= s {
      assert s[0..] == s && DigitsUpTo(s, 0);
    } else if s != "" {
      DigitsThenJsonIff(s[1..]);
      forall k: nat ensures k > 0 ==> (DigitsUpTo(s, k) <==> IsDigit(s[0]) && DigitsUpTo(s[1..], k - 1)) {
        if 0 < k <= |s| {
          assert s[1..][k - 1..] == s[k..];
          assert forall i :: 0 < i < k ==> s[i] == s[1..][i - 1];
        }
      }
      assert s[0..] == s && !DigitsUpTo(s, 0);
      if k: nat :| DigitsUpTo(s[1..], k) {
        assert DigitsUpTo(s, k + 1) || !IsDigit(s[0]);
      }
    }
  }

  /** The first k characters are digits, and ".json" follows. */
  predicate DigitsUpTo(s: string, k: nat) {
    k <= |s| && (forall i :: 0 <= i < k ==> IsDigit(s[i])) && ".json" <= s[k..]
  }

  /** At position i comes the postfix, then perhaps an underscore, then digits and ".json". */
  ghost predicate NamedAt(name: string, i: nat) {
    && OccursAt(name, POSTFIX, i)
    && var rest := name[i + |POSTFIX|..];
       DigitsFollow(rest) || ("_" <= rest && DigitsFollow(rest[1..]))
  }

  ghost predicate DigitsFollow(s: string) {
    exists k: nat :: DigitsUpTo(s, k)
  }

  lemma MatchesHereIff(name: string, i: nat)
    requires i <= |name|
    ensures MatchesHere(name[i..]) <==> NamedAt(name, i)
  {
    hide DigitsThenJson, DigitsUpTo;
    var n := |POSTFIX|;
    if i + n <= |name| {
      assert name[i..][..n] == name[i..i + n];
      var rest := name[i + n..];
      assert name[i..][n..] == rest;
      DigitsThenJsonIff(rest);
      if "_" <= rest {
        DigitsThenJsonIff(rest[1..]);
      }
    }
  }

  /** Exactly the files are read whose name has the postfix in it, followed by an optional underscore, digits and
      ".json"; in particular none without the postfix. */
  lemma {:induction false} IsWarningsFileIff(name: string)
    ensures IsWarningsFile(name) <==> exists i: nat :: NamedAt(name, i)
    decreases |name|
  {
    hide MatchesHere, NamedAt;
    assert name[0..] == name;
    MatchesHereIff(name, 0);
    if name == "" {
      NothingNamed();
    } else {
      IsWarningsFileIff(name[1..]);
      forall i: nat ensures i > 0 ==> NamedAt(name, i) == NamedAt(name[1..], i - 1) {
        NamedFurther(name, i);
      }
      if i: nat :| NamedAt(name[1..], i) {
        assert NamedAt(name, i + 1);
      }
    }
  }

  lemma NothingNamed()
    ensures forall i: nat :: !NamedAt("", i)
    ensures !MatchesHere("")
  {
  }

  lemma NamedFurther(name: string, i: nat)
    requires name != ""
    ensures i > 0 ==> NamedAt(name, i) == NamedAt(name[1..], i - 1)
  {
    hide DigitsUpTo;
    var n := |POSTFIX|;
    if 0 < i && i + n <= |name| {
      SliceOfTail(name, i, n);
      assert name[1..][i - 1 + n..] == name[i + n..];
    }
  }

  lemma {:induction false} DigitsMatch(digits: string)
    requires forall i :: 0 <= i < |digits| ==> IsDigit(digits[i])
    ensures DigitsThenJson(digits + ".json")
  {
    if digits == "" {
      assert "" + ".json" == ".json";
    } else {
      assert (digits + ".json")[1..] == digits[1..] + ".json";
      DigitsMatch(digits[1..]);
    }
  }

  lemma {:induction false} FoundBehind(front: string, name: string)
    requires IsWarningsFile(name)
    ensures IsWarningsFile(front + name)
  {
    if front == "" {
      assert "" + name == name;
    } else {
      assert (front + name)[1..] == front[1..] + name;
      FoundBehind(front[1..], name);
    }
  }

  /** What follows the postfix in a session's file name. */
  function Tail(num: nat): string {
    (if num != 0 then "_" + Decimal(num) else "") + ".json"
  }

  lemma TailMatches(num: nat)
    ensures DigitsThenJson(Tail(num)) || ("_" <= Tail(num) && DigitsThenJson(Tail(num)[1..]))
  {
    hide Decimal;
    if num != 0 {
      DigitsMatch(Decimal(num));
      assert Tail(num)[1..] == Decimal(num) + ".json";
    } else {
      assert Tail(num) == ".json";
    }
  }

  lemma PostfixMatches(postfix: string, rest: string)
    requires postfix == POSTFIX
    requires DigitsThenJson(rest) || ("_" <= rest && DigitsThenJson(rest[1..]))
    ensures IsWarningsFile(postfix + rest)
  {
    hide DigitsThenJson;
    assert (postfix + rest)[|postfix|..] == rest && postfix <= postfix + rest;
    assert MatchesHere(postfix + rest);
  }

  /** Every file a session writes is found again. */
  lemma SessionFilesAreFound(suite: Option<string>, num: nat)
    ensures IsWarningsFile(FileName(suite, num))
  {
    hide IsWarningsFile, DigitsThenJson;
    TailMatches(num);
    PostfixMatches(POSTFIX, Tail(num));
    var front := if suite.Some? then suite.value + "_" else "";
    FoundBehind(front, POSTFIX + Tail(num));
    NameParts(suite, num);
  }

  lemma NameParts(suite: Option<string>, num: nat)
    ensures FileName(suite, num) == (if suite.Some? then suite.value + "_" else "") + (POSTFIX + Tail(num))
  {
    hide Decimal;
  }

  function WarningsIn(report: Report): seq<Dict> {
    if report.warnings.Some? then report.warnings.value else []
  }

  function RowsOf(report: Report): (rows: seq<Row>)
    ensures report.warnings.None? ==> rows == []
    ensures report.warnings.Some? ==>
              |rows| == |report.warnings.value| &&
              forall i :: 0 <= i < |rows| ==> rows[i] == Converted(report.warnings.value[i])
  {
    seq(|WarningsIn(report)|, i requires 0 <= i < |WarningsIn(report)| => Converted(WarningsIn(report)[i]))
  }

  /** All rows of the warnings files among some names, file after file. */
  function ReadAll(dir: Directory, names: seq<string>): seq<Row>
    requires forall i :: 0 <= i < |names| ==> names[i] in dir
  {
    if names == [] then []
    else
      var last := names[|names| - 1];
      ReadAll(dir, names[..|names| - 1]) + if IsWarningsFile(last) then RowsOf(dir[last]) else []
  }

  /** `listing` is what os.listdir returns, in whatever order. */
  method ReadWarningData(dir: Directory, listing: seq<string>) returns (data: seq<Row>)
    requires forall i :: 0 <= i < |listing| ==> listing[i] in dir
    ensures data == ReadAll(dir, listing)
  {
    hide IsWarningsFile, Converted;
    data := [];
    for i := 0 to |listing|
      invariant data == ReadAll(dir, listing[..i])
    {
      assert listing[..i + 1][..i] == listing[..i];
      if IsWarningsFile(listing[i]) {
        var dicts := WarningsIn(dir[listing[i]]);
        var rows: seq<Row> := [];
        for k := 0 to |dicts|
          invariant rows == RowsOf(dir[listing[i]])[..k]
        {
          var row := ConvertWarningDictToList(dicts[k]);
          rows := rows + [row];
        }
        data := data + rows;
      }
    }
    assert listing[..|listing|] == listing;
  }

  // ---------- Conservation ----------

  function NumWarnings(dir: Directory): string -> int {
    (name: string) => if name in dir && IsWarningsFile(name) then |WarningsIn(dir[name])| else 0
  }

  function Total(reports: seq<Report>): int {
    SumOf(reports, NumIn)
  }

  function NumIn(report: Report): (n: int)
    ensures n == |RowsOf(report)|
  {
    |WarningsIn(report)|
  }

  lemma {:induction false} RowsReadAreSum(dir: Directory, names: seq<string>)
    requires forall i :: 0 <= i < |names| ==> names[i] in dir
    ensures |ReadAll(dir, names)| == SumOf(names, NumWarnings(dir))
    ensures AllOnes(ReadAll(dir, names))
    decreases |names|
  {
    hide IsWarningsFile;
    if names != [] {
      var n := |names| - 1;
      RowsReadAreSum(dir, names[..n]);
      SumOfSnoc(names[..n], names[n], NumWarnings(dir));
      assert names == names[..n] + [names[n]];
    }
  }

  lemma {:induction false} DistinctIsSet<T>(s: seq<T>)
    requires forall i, j :: 0 <= i < j < |s| ==> s[i] != s[j]
    ensures multiset(s) == multiset(set x | x in s)
  {
    if s != [] {
      var n := |s| - 1;
      DistinctIsSet(s[..n]);
      assert s == s[..n] + [s[n]];
      assert (set x | x in s) == (set x | x in s[..n]) + {s[n]};
    }
  }

  /** The names of the first n session files. */
  function Names(suite: Option<string>, n: nat): seq<string> {
    seq(n, i requires 0 <= i < n => FileName(suite, i))
  }

  lemma {:induction false} SumOverFiles(dir: Directory, suite: Option<string>, reports: seq<Report>, k: nat)
    requires k <= |reports|
    requires forall i :: 0 <= i < |reports| ==> FileName(suite, i) in dir && dir[FileName(suite, i)] == reports[i]
    ensures SumOf(Names(suite, k), NumWarnings(dir)) == Total(reports[..k])
  {
    hide FileName, IsWarningsFile;
    if k > 0 {
      SumOverFiles(dir, suite, reports, k - 1);
      SessionFilesAreFound(suite, k - 1);
      assert Names(suite, k) == Names(suite, k - 1) + [FileName(suite, k - 1)];
      SumOfSnoc(Names(suite, k - 1), FileName(suite, k - 1), NumWarnings(dir));
      assert reports[..k] == reports[..k - 1] + [reports[k - 1]];
      SumOfSnoc(reports[..k - 1], reports[k - 1], NumIn);
    }
  }

  /** The reports that are in the directory in the end, and those that were overwritten on the way. */
  function Kept(reports: seq<Report>): (r: seq<Report>)
    ensures |r| == FilesAfter(|reports|)
    ensures forall i :: 0 <= i < |r| ==> r[i] == reports[Writer(i, |reports|)]
  {
    if |reports| <= LAST + 1 then reports else reports[..LAST] + [reports[|reports| - 1]]
  }

  function Overwritten(reports: seq<Report>): seq<Report> {
    if |reports| <= LAST + 1 then [] else reports[LAST..|reports| - 1]
  }

  lemma KeptAndOverwritten(reports: seq<Report>)
    ensures Total(Kept(reports)) + Total(Overwritten(reports)) == Total(reports)
  {
    hide SumOf;
    var n := |reports|;
    if n > LAST + 1 {
      var front, lost, last := reports[..LAST], reports[LAST..n - 1], [reports[n - 1]];
      SumOfConcat(front, last, NumIn);
      SumOfConcat(front, lost, NumIn);
      SumOfConcat(front + lost, last, NumIn);
      assert reports == front + lost + last;
    } else {
      SumOfConcat(reports, [], NumIn);
      assert reports + [] == reports;
    }
  }

  lemma {:induction false} NoneLostIff(reports: seq<Report>)
    ensures Total(reports) >= 0
    ensures Total(reports) == 0 <==> forall i :: 0 <= i < |reports| ==> WarningsIn(reports[i]) == []
  {
    if reports != [] {
      NoneLostIff(reports[1..]);
      assert forall i :: 0 < i < |reports| ==> reports[i] == reports[1..][i - 1];
    }
  }

  lemma NamesDiffer(suite: Option<string>, n: nat)
    ensures forall i, j :: 0 <= i < j < |Names(suite, n)| ==> Names(suite, n)[i] != Names(suite, n)[j]
  {
    hide FileName;
    forall i, j | 0 <= i < j < n ensures FileName(suite, i) != FileName(suite, j) {
      if FileName(suite, i) == FileName(suite, j) {
        FileNamesDiffer(suite, i, j);
      }
    }
  }

  /** However the directory is listed, exactly the warnings of the kept reports are read, each counting
      once. */
  lemma EverythingIsRead(suite: Option<string>, reports: seq<Report>, listing: seq<string>)
    requires multiset(listing) == multiset(AfterSessions(suite, reports).Keys)
    ensures forall i :: 0 <= i < |listing| ==> listing[i] in AfterSessions(suite, reports)
    ensures var data := ReadAll(AfterSessions(suite, reports), listing);
            |data| == Total(reports) - Total(Overwritten(reports)) && AllOnes(data)
  {
    hide FileName, IsWarningsFile, AfterSessions, ReadAll, Kept, Overwritten, Total, Names, NumWarnings;
    var dir, kept := AfterSessions(suite, reports), Kept(reports);
    var n := |kept|;
    SessionsKeepReports(suite, reports);
    KeptAndOverwritten(reports);
    forall i | 0 <= i < |listing| ensures listing[i] in dir {
      assert listing[i] in multiset(listing);
    }
    var names := Names(suite, n);
    NamesDiffer(suite, n);
    DistinctIsSet(names);
    AllNamed(dir, suite, reports);
    RowsReadAreSum(dir, listing);
    SumOfPermutation(listing, names, NumWarnings(dir));
    SumOverFiles(dir, suite, kept, n);
    assert kept[..n] == kept;
  }

  lemma AllNamed(dir: Directory, suite: Option<string>, reports: seq<Report>)
    requires Holds(dir, suite, reports)
    ensures (set x | x in Names(suite, FilesAfter(|reports|))) == dir.Keys
  {
    hide FileName;
    var names := Names(suite, FilesAfter(|reports|));
    forall x ensures x in names <==> x in dir {
      if x in dir {
        var i :| 0 <= i < FilesAfter(|reports|) && x == FileName(suite, i);
        assert names[i] == x;
      }
    }
  }

  /** The columns every warning of pytest's JSON report fills in. */
  predicate Readable(data: seq<Row>) {
    forall i :: 0 <= i < |data| ==> data[i][MESSAGE].Str? && data[i][FILENAME].Str?
  }

  ghost predicate ClassifiedAs(matches: (nat, string) -> bool, data: seq<Row>, rows: seq<Row>)
    requires Readable(data)
  {
    |rows| == |data| && forall i :: 0 <= i < |data| ==> rows[i] == Classified(matches, data[i])
  }

  method MakeReport(matches: (nat, string) -> bool, dir: Directory, listing: seq<string>) returns (fout: seq<Token>)
    requires forall i :: 0 <= i < |listing| ==> listing[i] in dir
    requires Readable(ReadAll(dir, listing))
    ensures exists rows :: ClassifiedAs(matches, ReadAll(dir, listing), rows) &&
              fout == [Head] + Renders(Outline(Compressed(rows), 0), 0)
  {
    hide Classified, Compressed, Outline, Renders, ReadAll;
    var data := ReadWarningData(dir, listing);
    var output := Process(matches, data);
    ghost var rows: seq<Row> :| |rows| == |data| && output == Compressed(rows) &&
      forall i :: 0 <= i < |data| ==> rows[i] == Classified(matches, data[i]);
    assert ClassifiedAs(matches, data, rows);
    fout := WriteHtmlReport(output);
  }

  /** End to end, after any number of sessions: the report's counts add up to the number of warnings of all
      sessions if and only if no overwritten report held any, so always after at most LAST + 1 sessions;
      and the report's rows are all different. */
  lemma NothingIsLost(suite: Option<string>, reports: seq<Report>, listing: seq<string>,
                      matches: (nat, string) -> bool, rows: seq<Row>)
    requires multiset(listing) == multiset(AfterSessions(suite, reports).Keys)
    requires forall i :: 0 <= i < |listing| ==> listing[i] in AfterSessions(suite, reports)
    requires Readable(ReadAll(AfterSessions(suite, reports), listing))
    requires ClassifiedAs(matches, ReadAll(AfterSessions(suite, reports), listing), rows)
    ensures Weights(Outline(Compressed(rows), 0)) == SumNum(Compressed(rows))
    ensures SumNum(Compressed(rows)) == Total(reports) - Total(Overwritten(reports))
    ensures Weights(Outline(Compressed(rows), 0)) == Total(reports) <==>
              forall i :: 0 <= i < |Overwritten(reports)| ==> WarningsIn(Overwritten(reports)[i]) == []
    ensures |reports| <= LAST + 1 ==> Overwritten(reports) == []
    ensures forall i, j :: 0 <= i < j < |Compressed(rows)| ==>
              Compressed(rows)[i][NUM := Num(1)] != Compressed(rows)[j][NUM := Num(1)]
  {
    hide AfterSessions, ReadAll, Compressed, Outline, Weights, SumNum, Total, WarningsIn;
    NoneLostIff(Overwritten(reports));
    var data := ReadAll(AfterSessions(suite, reports), listing);
    EverythingIsRead(suite, reports, listing);
    forall i | 0 <= i < |rows| ensures rows[i][NUM] == Num(1) {
      assert rows[i] == Classified(matches, data[i]) && data[i][NUM] == Num(1);
    }
    CompressionConserves(rows);
    CompressedRowsAreDifferent(rows);
    OutlineConserves(Compressed(rows), 0);
  }
}
