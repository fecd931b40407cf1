/** Aggregating pytest warnings: rows, compression of equal rows, and grouping by a column. */
module Warnings {
  import opened Common
  import opened Ordering

  datatype Value = Null | Str(s: string) | Num(n: int) | Truth(b: bool)

  const COLUMNS: seq<string> :=
    ["message", "category", "filename", "lineno", "high_location", "label", "num", "deprecated"]
  const MESSAGE := 0
  const CATEGORY := 1
  const FILENAME := 2
  const LINENO := 3
  const HIGH_LOCATION := 4
  const LABEL := 5
  const NUM := 6
  const DEPRECATED := 7

  /** A warning as a list of values, one a column. */
  type Row = r: seq<Value> | |r| == 8 witness seq(8, i => Null)

  type Column = c: nat | c < 8

  function Count(row: Row): int {
    if row[NUM].Num? then row[NUM].n else 0
  }

  function SumNum(rows: seq<Row>): int {
    SumOf(rows, Count)
  }

  // ---------- Grouping by a column ----------

  datatype Group = Group(key: string, rows: seq<Row>, count: int)

  function KeyOf(column: Column): Row -> string {
    (row: Row) => if row[column].Str? then row[column].s else ""
  }

  /** Length of the run of rows at the front that share the first row's key. */
  function RunLength(rows: seq<Row>, key: Row -> string, k: string): (n: nat)
    ensures n <= |rows|
    ensures forall i :: 0 <= i < n ==> key(rows[i]) == k
    ensures n < |rows| ==> key(rows[n]) != k
  {
    if rows == [] || key(rows[0]) != k then 0 else 1 + RunLength(rows[1..], key, k)
  }

  /** itertools.groupby with a count for each group. */
  function Runs(rows: seq<Row>, key: Row -> string): seq<Group>
    decreases |rows|
  {
    if rows == [] then []
    else
      var k := key(rows[0]);
      var n := RunLength(rows, key, k);
      [Group(k, rows[..n], SumNum(rows[..n]))] + Runs(rows[n..], key)
  }

  /** Puts g before the first group whose count is not larger. */
  function InsertByCount(g: Group, s: seq<Group>): (r: seq<Group>)
    ensures |r| == |s| + 1
  {
    if s == [] then [g] else if s[0].count <= g.count then [g] + s else [s[0]] + InsertByCount(g, s[1..])
  }

  function SortByCount(s: seq<Group>): (r: seq<Group>)
    ensures |r| == |s|
  {
    if s == [] then [] else InsertByCount(s[0], SortByCount(s[1..]))
  }

  function GroupAndSort(data: seq<Row>, column: Column): seq<Group> {
    SortByCount(Runs(SortByKey(data, KeyOf(column)), KeyOf(column)))
  }

  /** All rows of the groups, group after group. */
  function Flatten(groups: seq<Group>): seq<Row> {
    if groups == [] then [] else groups[0].rows + Flatten(groups[1..])
  }

  function SumCounts(groups: seq<Group>): int {
    SumOf(groups, CountOf)
  }

  function CountOf(g: Group): int {
    g.count
  }

  // ---------- Grouping: what it means ----------

  /** The group holds exactly the rows of its key, in the order of the data, and counts them. */
  predicate Faithful(g: Group, data: seq<Row>, key: Row -> string) {
    g.rows != [] && g.rows == WithKey(data, key, g.key) && g.count == SumNum(g.rows)
  }

  lemma {:induction false} RunIsFilter(rows: seq<Row>, key: Row -> string, n: nat, k: string)
    requires n <= |rows|
    requires forall i :: 0 <= i < n ==> key(rows[i]) == k
    requires forall i :: n <= i < |rows| ==> key(rows[i]) != k
    ensures WithKey(rows, key, k) == rows[..n]
  {
    if rows != [] {
      RunIsFilter(rows[1..], key, if n == 0 then 0 else n - 1, k);
      if n > 0 {
        assert rows[..n] == [rows[0]] + rows[1..][..n - 1];
      }
    }
  }

  lemma {:induction false} FilterSkips(rows: seq<Row>, key: Row -> string, n: nat, k: string)
    requires n <= |rows|
    requires forall i :: 0 <= i < n ==> key(rows[i]) != k
    ensures WithKey(rows, key, k) == WithKey(rows[n..], key, k)
  {
    if n > 0 {
      FilterSkips(rows[1..], key, n - 1, k);
      assert rows[1..][n - 1..] == rows[n..];
    }
  }

  /** In sorted data the rows after the first run have larger keys. */
  lemma BehindFirstRun(rows: seq<Row>, key: Row -> string, n: nat)
    requires Sorted(rows, key) && rows != [] && n == RunLength(rows, key, key(rows[0]))
    ensures n > 0 && forall i :: n <= i < |rows| ==> Less(key(rows[0]), key(rows[i]))
  {
    forall i | n <= i < |rows| ensures Less(key(rows[0]), key(rows[i])) {
      if n < i {
        LeqTotal(key(rows[0]), key(rows[n]));
        LeqTotal(key(rows[n]), key(rows[i]));
        LeqTransitive(key(rows[0]), key(rows[n]), key(rows[i]));
        if key(rows[0]) == key(rows[i]) {
          LeqTotal(key(rows[n]), key(rows[0]));
        }
      }
    }
  }

  ghost predicate AscendingKeys(groups: seq<Group>) {
    forall i, j :: 0 <= i < j < |groups| ==> Less(groups[i].key, groups[j].key)
  }

  /** The runs of sorted data have ascending keys, and each is the data filtered by its key. */
  lemma {:induction false} RunsAreFilters(rows: seq<Row>, key: Row -> string)
    requires Sorted(rows, key)
    ensures AscendingKeys(Runs(rows, key))
    ensures forall g :: g in Runs(rows, key) ==> Faithful(g, rows, key) && HasKey(rows, key, g.key)
    decreases |rows|
  {
    hide SumNum, WithKey;
    if rows != [] {
      var k := key(rows[0]);
      var n := RunLength(rows, key, k);
      BehindFirstRun(rows, key, n);
      RunIsFilter(rows, key, n, k);
      RunsAreFilters(rows[n..], key);
      var first, more := Runs(rows, key)[0], Runs(rows, key)[1..];
      assert HasKey(rows, key, k);
      forall g | g in more
        ensures Less(k, g.key) && Faithful(g, rows, key) && HasKey(rows, key, g.key)
      {
        LaterRun(rows, key, n, g.key);
      }
    }
  }

  predicate HasKey(rows: seq<Row>, key: Row -> string, k: string) {
    exists i :: 0 <= i < |rows| && key(rows[i]) == k
  }

  lemma LaterRun(rows: seq<Row>, key: Row -> string, n: nat, k: string)
    requires 0 < n <= |rows| && HasKey(rows[n..], key, k)
    requires forall i :: 0 <= i < n ==> key(rows[i]) == key(rows[0])
    requires forall i :: n <= i < |rows| ==> Less(key(rows[0]), key(rows[i]))
    ensures Less(key(rows[0]), k) && HasKey(rows, key, k) && WithKey(rows, key, k) == WithKey(rows[n..], key, k)
  {
    var i :| 0 <= i < |rows[n..]| && key(rows[n..][i]) == k;
    assert key(rows[n + i]) == k;
    FilterSkips(rows, key, n, k);
  }

  /** Nothing is lost or reordered by taking runs. */
  lemma {:induction false} FlattenRuns(rows: seq<Row>, key: Row -> string)
    ensures Flatten(Runs(rows, key)) == rows
    decreases |rows|
  {
    if rows != [] {
      var n := RunLength(rows, key, key(rows[0]));
      FlattenRuns(rows[n..], key);
      assert Runs(rows, key)[1..] == Runs(rows[n..], key);
    }
  }

  /** Larger counts come first, equal counts in key order. */
  predicate Before(g: Group, h: Group) {
    g.count > h.count || (g.count == h.count && Less(g.key, h.key))
  }

  ghost predicate Ranked(groups: seq<Group>) {
    forall i, j :: 0 <= i < j < |groups| ==> Before(groups[i], groups[j])
  }

  lemma {:induction false} InsertByCountKeeps(g: Group, s: seq<Group>)
    ensures forall h :: h in InsertByCount(g, s) <==> h == g || h in s
    ensures multiset(Flatten(InsertByCount(g, s))) == multiset(g.rows) + multiset(Flatten(s))
    ensures SumCounts(InsertByCount(g, s)) == g.count + SumCounts(s)
  {
    var r := InsertByCount(g, s);
    if s != [] && s[0].count > g.count {
      InsertByCountKeeps(g, s[1..]);
      assert r[1..] == InsertByCount(g, s[1..]);
    } else {
      assert r[1..] == s;
    }
  }

  lemma {:induction false} InsertByCountRanks(g: Group, s: seq<Group>)
    requires Ranked(s) && forall h :: h in s ==> Less(g.key, h.key)
    ensures Ranked(InsertByCount(g, s))
  {
    if s != [] {
      var r := InsertByCount(g, s);
      if s[0].count > g.count {
        InsertByCountRanks(g, s[1..]);
        InsertByCountKeeps(g, s[1..]);
        forall j | 0 < j < |r| ensures Before(r[0], r[j]) {
          assert r[j] in InsertByCount(g, s[1..]);
        }
      } else {
        forall j | 0 < j < |r| ensures Before(r[0], r[j]) {
          assert r[j] in s && (j > 1 ==> Before(s[0], s[j - 1]));
        }
      }
    }
  }

  lemma {:induction false} SortByCountRanks(s: seq<Group>)
    requires AscendingKeys(s)
    ensures Ranked(SortByCount(s))
    ensures forall h :: h in SortByCount(s) <==> h in s
    ensures multiset(Flatten(SortByCount(s))) == multiset(Flatten(s))
    ensures SumCounts(SortByCount(s)) == SumCounts(s)
  {
    hide Flatten, SumCounts;
    if s != [] {
      SortByCountRanks(s[1..]);
      InsertByCountKeeps(s[0], SortByCount(s[1..]));
      InsertByCountRanks(s[0], SortByCount(s[1..]));
      HeadOf(s);
    }
  }

  lemma HeadOf(s: seq<Group>)
    requires s != []
    ensures multiset(Flatten(s)) == multiset(s[0].rows) + multiset(Flatten(s[1..]))
    ensures SumCounts(s) == s[0].count + SumCounts(s[1..])
  {
  }

  lemma {:induction false} CountsAreSums(groups: seq<Group>)
    requires forall g :: g in groups ==> g.count == SumNum(g.rows)
    ensures SumCounts(groups) == SumNum(Flatten(groups))
  {
    if groups != [] {
      CountsAreSums(groups[1..]);
      SumOfConcat(groups[0].rows, Flatten(groups[1..]), Count);
    }
  }

  lemma SameSum(a: seq<Row>, b: seq<Row>)
    requires multiset(a) == multiset(b)
    ensures SumNum(a) == SumNum(b)
  {
    SumOfPermutation(a, b, Count);
  }

  /** What group_and_sort_by_sumof returns partitions the data: every key once, each group being the
      data filtered by its key in the data's order, counts descending and ties in key order, the groups
      together a permutation of the data, and the counts adding up to the data's total. */
  lemma GroupsPartition(data: seq<Row>, column: Column)
    ensures var groups := GroupAndSort(data, column);
            var key := KeyOf(column);
            && Ranked(groups)
            && (forall g :: g in groups ==> Faithful(g, data, key) && HasKey(data, key, g.key))
            && (forall i, j :: 0 <= i < j < |groups| ==> groups[i].key != groups[j].key)
            && multiset(Flatten(groups)) == multiset(data)
            && SumCounts(groups) == SumNum(data)
  {
    hide SortByKey, Runs, SortByCount, WithKey, SumNum, Flatten, SumCounts, KeyOf, Sorted;
    var key := KeyOf(column);
    var sorted := SortByKey(data, key);
    SortByKeyIsStable(data, key);
    RunsAreFilters(sorted, key);
    FlattenRuns(sorted, key);
    SortByCountRanks(Runs(sorted, key));
    var groups := SortByCount(Runs(sorted, key));
    CountsAreSums(Runs(sorted, key));
    SameSum(sorted, data);
    forall g | g in groups ensures HasKey(data, key, g.key) {
      var i :| 0 <= i < |sorted| && key(sorted[i]) == g.key;
      assert sorted[i] in multiset(data);
    }
    forall i, j | 0 <= i < j < |groups| ensures groups[i].key != groups[j].key {
      assert Before(groups[i], groups[j]);
      assert groups[i].count == SumNum(WithKey(data, key, groups[i].key));
      assert groups[j].count == SumNum(WithKey(data, key, groups[j].key));
    }
  }

  /** Every row is in the group of its key. */
  lemma EveryRowHasItsGroup(data: seq<Row>, column: Column, row: Row)
    requires row in data
    ensures exists g :: g in GroupAndSort(data, column) && g.key == KeyOf(column)(row) && row in g.rows
  {
    hide GroupAndSort, WithKey;
    GroupsPartition(data, column);
    var groups := GroupAndSort(data, column);
    assert row in multiset(Flatten(groups));
    var g := InSomeGroup(groups, row);
    InFilter(data, KeyOf(column), g.key, row);
  }

  lemma {:induction false} InSomeGroup(groups: seq<Group>, row: Row) returns (g: Group)
    requires row in Flatten(groups)
    ensures g in groups && row in g.rows
  {
    if row in groups[0].rows {
      g := groups[0];
    } else {
      g := InSomeGroup(groups[1..], row);
    }
  }

  lemma {:induction false} InFilter(data: seq<Row>, key: Row -> string, k: string, row: Row)
    ensures row in WithKey(data, key, k) <==> row in data && key(row) == k
  {
    if data != [] {
      InFilter(data[1..], key, k, row);
    }
  }

  method GroupAndSortBySumOf(data: seq<Row>, column: Column) returns (groups: seq<Group>)
    ensures groups == GroupAndSort(data, column)
  {
    hide SortByKey, SortByCount, SumNum;
    var key := KeyOf(column);
    var rows := SortByKey(data, key);
    ghost var all := Runs(rows, key);
    groups := [];
    while rows != []
      invariant all == groups + Runs(rows, key)
      decreases |rows|
    {
      var k := key(rows[0]);
      var n := RunLength(rows, key, k);
      groups := groups + [Group(k, rows[..n], SumNum(rows[..n]))];
      rows := rows[n..];
    }
    assert groups == all;
    groups := SortByCount(groups);
  }

  // ---------- Compressing equal rows ----------

  /** The different rows, in order of first appearance: the keys of a Counter. */
  function Distinct(data: seq<Row>): seq<Row> {
    if data == [] then []
    else
      var d := Distinct(data[..|data| - 1]);
      if data[|data| - 1] in d then d else d + [data[|data| - 1]]
  }

  /** One row for all rows that are exactly the same, its `num` telling how many they are. */
  function Compressed(data: seq<Row>): (r: seq<Row>)
    ensures |r| == |Distinct(data)|
  {
    Counted(Distinct(data), multiset(data))
  }

  function Counted(rows: seq<Row>, counts: multiset<Row>): (r: seq<Row>)
    ensures |r| == |rows|
    ensures forall i :: 0 <= i < |rows| ==> r[i] == rows[i][NUM := Num(counts[rows[i]])]
  {
    if rows == [] then [] else [rows[0][NUM := Num(counts[rows[0]])]] + Counted(rows[1..], counts)
  }

  lemma {:induction false} DistinctRows(data: seq<Row>)
    ensures forall row :: row in Distinct(data) <==> row in data
    ensures forall i, j :: 0 <= i < j < |Distinct(data)| ==> Distinct(data)[i] != Distinct(data)[j]
  {
    if data != [] {
      DistinctRows(data[..|data| - 1]);
    }
  }

  lemma {:induction false} OneMore(rows: seq<Row>, counts: multiset<Row>, row: Row)
    requires forall i, j :: 0 <= i < j < |rows| ==> rows[i] != rows[j]
    ensures SumNum(Counted(rows, counts + multiset{row})) ==
            SumNum(Counted(rows, counts)) + if row in rows then 1 else 0
  {
    if rows != [] {
      OneMore(rows[1..], counts, row);
      assert Counted(rows, counts)[1..] == Counted(rows[1..], counts);
      assert Counted(rows, counts + multiset{row})[1..] == Counted(rows[1..], counts + multiset{row});
      assert (counts + multiset{row})[rows[0]] == counts[rows[0]] + if row == rows[0] then 1 else 0;
    }
  }

  /** The counts of the compressed rows add up to the number of warnings. */
  lemma {:induction false} CompressionConserves(data: seq<Row>)
    ensures SumNum(Compressed(data)) == |data|
  {
    if data != [] {
      var n := |data| - 1;
      var init, last := data[..n], data[n];
      assert data == init + [last];
      CompressionConserves(init);
      DistinctRows(init);
      OneMore(Distinct(init), multiset(init), last);
      if last !in Distinct(init) {
        CountedSnoc(Distinct(init), multiset(data), last);
        assert last !in init;
      }
    }
  }

  lemma {:induction false} CountedSnoc(rows: seq<Row>, counts: multiset<Row>, row: Row)
    ensures SumNum(Counted(rows + [row], counts)) == SumNum(Counted(rows, counts)) + counts[row]
  {
    if rows == [] {
      assert [row][1..] == [] && Counted([row], counts)[1..] == [];
    } else {
      assert (rows + [row])[1..] == rows[1..] + [row];
      CountedSnoc(rows[1..], counts, row);
      assert Counted(rows, counts)[1..] == Counted(rows[1..], counts);
      assert Counted(rows + [row], counts)[1..] == Counted(rows[1..] + [row], counts);
    }
  }

  predicate AllOnes(data: seq<Row>) {
    forall i :: 0 <= i < |data| ==> data[i][NUM] == Num(1)
  }

  /** When every warning comes in with `num` 1, compressed rows differ in more than their counts, and each
      counts the warnings that were like it. */
  lemma CompressedRowsAreDifferent(data: seq<Row>)
    requires AllOnes(data)
    ensures forall i, j :: 0 <= i < j < |Compressed(data)| ==>
              Compressed(data)[i][NUM := Num(1)] != Compressed(data)[j][NUM := Num(1)]
    ensures forall i :: 0 <= i < |Compressed(data)| ==>
              Compressed(data)[i][NUM] == Num(multiset(data)[Compressed(data)[i][NUM := Num(1)]])
    ensures forall row :: row in data ==>
              exists i :: 0 <= i < |Compressed(data)| && Compressed(data)[i][NUM := Num(1)] == row
  {
    var rows, out := Distinct(data), Compressed(data);
    DistinctRows(data);
    forall i | 0 <= i < |out| ensures out[i][NUM := Num(1)] == rows[i] {
      assert rows[i] in data;
    }
    forall row | row in data ensures exists i :: 0 <= i < |out| && out[i][NUM := Num(1)] == row {
      var i :| 0 <= i < |rows| && rows[i] == row;
      assert out[i][NUM := Num(1)] == row;
    }
  }

  method CompressSimilarWarnings(data: seq<Row>) returns (output: seq<Row>)
    ensures output == Compressed(data)
  {
    var keys: seq<Row> := [];
    var counter: map<Row, nat> := map[];
    for i := 0 to |data|
      invariant keys == Distinct(data[..i])
      invariant forall row :: row in counter <==> row in keys
      invariant forall row :: row in counter ==> counter[row] == multiset(data[..i])[row]
    {
      assert data[..i + 1][..i] == data[..i] && data[..i + 1] == data[..i] + [data[i]];
      DistinctRows(data[..i]);
      if data[i] in counter {
        counter := counter[data[i] := counter[data[i]] + 1];
      } else {
        keys := keys + [data[i]];
        counter := counter[data[i] := 1];
      }
    }
    assert data[..|data|] == data;
    output := keys;
    for i := 0 to |output|
      invariant |output| == |keys|
      invariant forall j :: 0 <= j < i ==> output[j] == Compressed(data)[j]
      invariant forall j :: i <= j < |keys| ==> output[j] == keys[j]
    {
      output := output[i := output[i][NUM := Num(counter[output[i]])]];
    }
  }

  // ---------- Reading and classifying ----------

  type Dict = map<string, Value>

  /** A warning of the JSON report as a row: missing columns are null, and it counts once. */
  function Converted(d: Dict): Row {
    var row: Row := seq(8, i requires 0 <= i < 8 => if COLUMNS[i] in d then d[COLUMNS[i]] else Null);
    row[NUM := Num(1)]
  }

  /** A row holds the report's values under the columns' names, nulls for those it lacks, and counts once. */
  lemma ConvertedHolds(d: Dict)
    ensures var row := Converted(d);
            && row[MESSAGE] == ValueOf(d, "message") && row[CATEGORY] == ValueOf(d, "category")
            && row[FILENAME] == ValueOf(d, "filename") && row[LINENO] == ValueOf(d, "lineno")
            && row[HIGH_LOCATION] == ValueOf(d, "high_location") && row[LABEL] == ValueOf(d, "label")
            && row[DEPRECATED] == ValueOf(d, "deprecated") && row[NUM] == Num(1)
  {
  }

  function ValueOf(d: Dict, name: string): Value {
    if name in d then d[name] else Null
  }

  method ConvertWarningDictToList(d: Dict) returns (output: Row)
    ensures output == Converted(d)
  {
    var out: seq<Value> := [];
    for i := 0 to |COLUMNS|
      invariant |out| == i
      invariant forall j :: 0 <= j < i ==> out[j] == if COLUMNS[j] in d then d[COLUMNS[j]] else Null
    {
      if COLUMNS[i] in d {
        out := out + [d[COLUMNS[i]]];
      } else {
        out := out + [Null];
      }
    }
    output := out[NUM := Num(1)];
  }

  const LOCATIONS: seq<string> := ["python", "lms", "openedx", "cms", "common"]

  /** The location of the first pattern that matches the file name. */
  function LocationOf(matches: (nat, string) -> bool, filename: string, i: nat): string
    requires i <= |LOCATIONS|
    decreases |LOCATIONS| - i
  {
    if i == |LOCATIONS| then "other"
    else if matches(i, filename) then LOCATIONS[i]
    else LocationOf(matches, filename, i + 1)
  }

  /** The location is that of the first pattern that matches, and "other" exactly when none does. */
  lemma {:induction false} LocationIsFirstMatch(matches: (nat, string) -> bool, filename: string, i: nat)
    requires i <= |LOCATIONS|
    ensures var location := LocationOf(matches, filename, i);
            && (forall k :: i <= k < |LOCATIONS| && MatchesFirst(matches, filename, i, k) ==> location == LOCATIONS[k])
            && (location == "other" <==> forall k :: i <= k < |LOCATIONS| ==> !matches(k, filename))
    decreases |LOCATIONS| - i
  {
    if i < |LOCATIONS| {
      OtherIsNone(i);
      if !matches(i, filename) {
        LocationIsFirstMatch(matches, filename, i + 1);
      }
    }
  }

  predicate MatchesFirst(matches: (nat, string) -> bool, filename: string, i: nat, k: nat) {
    matches(k, filename) && forall m :: i <= m < k ==> !matches(m, filename)
  }

  lemma OtherIsNone(i: nat)
    requires i < |LOCATIONS|
    ensures LOCATIONS[i] != "other"
  {
    assert LOCATIONS[i][0] != 'o' || LOCATIONS[i][1] != 't';
  }

  function WithLocation(matches: (nat, string) -> bool, row: Row): Row
    requires row[FILENAME].Str?
  {
    row[HIGH_LOCATION := Str(LocationOf(matches, row[FILENAME].s, 0))]
  }

  method SeparateWarningsByLocation(matches: (nat, string) -> bool, data: seq<Row>) returns (located: seq<Row>)
    requires forall i :: 0 <= i < |data| ==> data[i][FILENAME].Str?
    ensures |located| == |data|
    ensures forall i :: 0 <= i < |data| ==> located[i] == WithLocation(matches, data[i])
  {
    located := data;
    for i := 0 to |data|
      invariant |located| == |data|
      invariant forall j :: 0 <= j < i ==> located[j] == WithLocation(matches, data[j])
      invariant forall j :: i <= j < |data| ==> located[j] == data[j]
    {
      var found := false;
      var k := 0;
      while k < |LOCATIONS| && !found
        invariant k <= |LOCATIONS| && |located| == |data|
        invariant forall j :: 0 <= j < |data| && j != i ==>
                    located[j] == if j < i then WithLocation(matches, data[j]) else data[j]
        invariant if found then located[i] == WithLocation(matches, data[i])
                  else located[i] == data[i] &&
                       LocationOf(matches, data[i][FILENAME].s, k) == LocationOf(matches, data[i][FILENAME].s, 0)
        decreases |LOCATIONS| - k, !found
      {
        if matches(k, located[i][FILENAME].s) {
          located := located[i := located[i][HIGH_LOCATION := Str(LOCATIONS[k])]];
          found := true;
        } else {
          k := k + 1;
        }
      }
      if !found {
        located := located[i := located[i][HIGH_LOCATION := Str("other")]];
      }
    }
  }

  /** Marks the rows whose message says so as deprecated. */
  function Marked(row: Row): Row
    requires row[MESSAGE].Str?
  {
    row[DEPRECATED := Truth(Contains(row[MESSAGE].s, "deprecated"))]
  }

  /** A row as it goes into the report. */
  function Classified(matches: (nat, string) -> bool, row: Row): Row
    requires row[MESSAGE].Str? && row[FILENAME].Str?
  {
    WithLocation(matches, Marked(row))
  }

  /** Classifying a row tells whether its message says "deprecated" and where its file is, and leaves the other
      columns as they are. */
  lemma ClassifiedIs(matches: (nat, string) -> bool, row: Row)
    requires row[MESSAGE].Str? && row[FILENAME].Str?
    ensures var r := Classified(matches, row);
            && (forall c: Column :: c != DEPRECATED && c != HIGH_LOCATION ==> r[c] == row[c])
            && r[HIGH_LOCATION] == Str(LocationOf(matches, row[FILENAME].s, 0))
            && r[DEPRECATED].Truth?
            && (r[DEPRECATED].b <==>
                  exists i: nat :: OccursAt(row[MESSAGE].s, "deprecated", i))
  {
    hide Contains;
    ContainsIff(row[MESSAGE].s, "deprecated");
  }

  /** From rows as read to compressed rows. */
  method Process(matches: (nat, string) -> bool, data: seq<Row>) returns (output: seq<Row>)
    requires forall i :: 0 <= i < |data| ==> data[i][MESSAGE].Str? && data[i][FILENAME].Str?
    ensures exists rows: seq<Row> ::
              && |rows| == |data| && output == Compressed(rows)
              && forall i :: 0 <= i < |data| ==> rows[i] == Classified(matches, data[i])
  {
    hide WithLocation, Compressed;
    var marked := data;
    for i := 0 to |data|
      invariant |marked| == |data|
      invariant forall j :: 0 <= j < i ==> marked[j] == Marked(data[j])
      invariant forall j :: i <= j < |data| ==> marked[j] == data[j]
    {
      marked := marked[i := Marked(marked[i])];
    }
    var located := SeparateWarningsByLocation(matches, marked);
    output := CompressSimilarWarnings(located);
  }
}
