/** The nested HTML report: warnings grouped by category, location and message. */
module HtmlReport {
  import opened Common
  import opened Ordering
  import opened Warnings

  datatype Klass = CategoryClass | LocationClass | TextClass | WarningClass

  /** What a section is headed with: a group's key and count, or a warning's file. */
  datatype Heading = Counted(key: string, count: int) | File(name: string)

  /** The pieces written to the file. */
  datatype Token = Head | Start(id: nat, heading: Heading, klass: Klass) | End | Lineno(of: Value) | NumOccur(of: Value)

  /** The outline a report shows. */
  datatype Section =
    | Leaf(row: Row)
    | Inner(key: string, count: int, klass: Klass, children: seq<Section>)

  function FileOf(row: Row): string {
    if row[FILENAME].Str? then row[FILENAME].s else ""
  }

  // ---------- Writing an outline ----------

  function Size(s: Section): nat
    decreases s, 1
  {
    match s
    case Leaf(_) => 1
    case Inner(_, _, _, children) => 1 + Sizes(children)
  }

  function Sizes(ss: seq<Section>): nat
    decreases ss, 0
  {
    if ss == [] then 0 else Size(ss[0]) + Sizes(ss[1..])
  }

  /** The tokens of a section whose id is `id`; its subsections are numbered on from there. */
  function Render(s: Section, id: nat): seq<Token>
    decreases s, 1
  {
    match s
    case Leaf(row) => [Start(id, File(FileOf(row)), WarningClass), Lineno(row[LINENO]), NumOccur(row[NUM]), End]
    case Inner(key, count, klass, children) =>
      [Start(id, Counted(key, count), klass)] + Renders(children, id + 1) + [End]
  }

  function Renders(ss: seq<Section>, id: nat): seq<Token>
    decreases ss, 0
  {
    if ss == [] then [] else Render(ss[0], id) + Renders(ss[1..], id + Size(ss[0]))
  }

  lemma {:induction false} RendersSnoc(ss: seq<Section>, s: Section, id: nat)
    ensures Renders(ss + [s], id) == Renders(ss, id) + Render(s, id + Sizes(ss))
    ensures Sizes(ss + [s]) == Sizes(ss) + Size(s)
  {
    hide Render, Size;
    if ss == [] {
      assert [s][1..] == [];
    } else {
      assert (ss + [s])[1..] == ss[1..] + [s];
      RendersSnoc(ss[1..], s, id + Size(ss[0]));
    }
  }

  // ---------- Balanced, and numbered in order ----------

  /** The number of sections open after some tokens, or None once one too many was closed. */
  function Open(tokens: seq<Token>, open: nat): Option<nat> {
    if tokens == [] then Some(open)
    else
      match tokens[0]
      case Start(_, _, _) => Open(tokens[1..], open + 1)
      case End => if open == 0 then None else Open(tokens[1..], open - 1)
      case _ => Open(tokens[1..], open)
  }

  lemma {:induction false} OpenConcat(a: seq<Token>, b: seq<Token>, open: nat)
    ensures Open(a + b, open) == if Open(a, open).None? then None else Open(b, Open(a, open).value)
  {
    if a == [] {
      assert a + b == b;
    } else {
      assert (a + b)[1..] == a[1..] + b;
      match a[0]
      case Start(_, _, _) => OpenConcat(a[1..], b, open + 1);
      case End => if open > 0 { OpenConcat(a[1..], b, open - 1); }
      case _ => OpenConcat(a[1..], b, open);
    }
  }

  function Ids(tokens: seq<Token>): seq<nat> {
    if tokens == [] then [] else (if tokens[0].Start? then [tokens[0].id] else []) + Ids(tokens[1..])
  }

  lemma {:induction false} IdsConcat(a: seq<Token>, b: seq<Token>)
    ensures Ids(a + b) == Ids(a) + Ids(b)
  {
    if a == [] {
      assert a + b == b && Ids(a) == [] && Ids(a) + Ids(b) == Ids(b);
    } else {
      hide Ids;
      IdsConcat(a[1..], b);
      IdsHead(a[0], a[1..]);
      IdsHead(a[0], a[1..] + b);
      assert a == [a[0]] + a[1..] && a + b == [a[0]] + (a[1..] + b);
      Associates(if a[0].Start? then [a[0].id] else [], Ids(a[1..]), Ids(b));
    }
  }

  lemma Associates(x: seq<nat>, y: seq<nat>, z: seq<nat>)
    ensures x + (y + z) == (x + y) + z
  {
  }

  lemma IdsHead(t: Token, more: seq<Token>)
    ensures Ids([t] + more) == (if t.Start? then [t.id] else []) + Ids(more)
  {
    assert ([t] + more)[1..] == more;
  }

  function Consecutive(from: nat, n: nat): seq<nat> {
    seq(n, i => from + i)
  }

  lemma {:induction false} SectionIsWellFormed(s: Section, id: nat, open: nat)
    ensures Open(Render(s, id), open) == Some(open)
    ensures Ids(Render(s, id)) == Consecutive(id, Size(s))
    decreases s, 1
  {
    match s
    case Leaf(row) =>
      LeafIsWellFormed(row, id, open);
    case Inner(key, count, klass, children) =>
      var start, inner := Start(id, Counted(key, count), klass), Renders(children, id + 1);
      SectionsAreWellFormed(children, id + 1, open + 1);
      AroundIsWellFormed(start, inner, open);
      assert [id] + Consecutive(id + 1, Sizes(children)) == Consecutive(id, Size(s));
  }

  lemma LeafIsWellFormed(row: Row, id: nat, open: nat)
    ensures Open(Render(Leaf(row), id), open) == Some(open)
    ensures Ids(Render(Leaf(row), id)) == Consecutive(id, 1)
  {
    var t := Render(Leaf(row), id);
    assert t[1..] == [t[1], t[2], t[3]] && t[1..][1..] == [t[2], t[3]];
    assert t[1..][1..][1..] == [t[3]] && t[1..][1..][1..][1..] == [];
    assert Open([t[3]], open + 1) == Open([t[3]][1..], open) == Some(open);
    assert Open(t[1..], open + 1) == Some(open);
    assert Ids([t[3]]) == Ids([t[3]][1..]) == [];
    assert Ids([t[2], t[3]]) == [];
    assert Ids(t[1..]) == [];
  }

  lemma AroundIsWellFormed(start: Token, inner: seq<Token>, open: nat)
    requires start.Start? && Open(inner, open + 1) == Some(open + 1)
    ensures Open([start] + inner + [End], open) == Some(open)
    ensures Ids([start] + inner + [End]) == [start.id] + Ids(inner)
  {
    var tail := inner + [End];
    assert [start] + inner + [End] == [start] + tail && ([start] + tail)[1..] == tail;
    OpenConcat(inner, [End], open + 1);
    IdsConcat(inner, [End]);
    assert [End][1..] == [];
    assert Open([End], open + 1) == Some(open) && Ids([End]) == [];
  }

  /** A report is a balanced nesting whose sections are numbered consecutively in order of appearance. */
  lemma {:induction false} SectionsAreWellFormed(ss: seq<Section>, id: nat, open: nat)
    ensures Open(Renders(ss, id), open) == Some(open)
    ensures Ids(Renders(ss, id)) == Consecutive(id, Sizes(ss))
    decreases ss, 0
  {
    hide Render;
    if ss != [] {
      SectionIsWellFormed(ss[0], id, open);
      SectionsAreWellFormed(ss[1..], id + Size(ss[0]), open);
      var a, b := Render(ss[0], id), Renders(ss[1..], id + Size(ss[0]));
      OpenConcat(a, b, open);
      IdsConcat(a, b);
      assert Consecutive(id, Size(ss[0])) + Consecutive(id + Size(ss[0]), Sizes(ss[1..])) == Consecutive(id, Sizes(ss));
    }
  }

  // ---------- The outline of some warnings ----------

  function ColumnAt(level: nat): Column {
    if level == 0 then CATEGORY else if level == 1 then HIGH_LOCATION else MESSAGE
  }

  function KlassAt(level: nat): Klass {
    if level == 0 then CategoryClass else if level == 1 then LocationClass else TextClass
  }

  /** The warnings grouped by category, within each by location, within each by message. */
  function Outline(rows: seq<Row>, level: nat): seq<Section>
    requires level <= 3
    decreases 3 - level, 1, 0
  {
    if level == 3 then Leaves(rows) else Grouped(GroupAndSort(rows, ColumnAt(level)), level)
  }

  function Grouped(groups: seq<Group>, level: nat): seq<Section>
    requires level < 3
    decreases 3 - level, 0, |groups|
  {
    if groups == [] then []
    else [GroupSection(groups[0], level)] + Grouped(groups[1..], level)
  }

  function GroupSection(g: Group, level: nat): Section
    requires level < 3
    decreases 3 - level, 0, 0
  {
    Inner(g.key, g.count, KlassAt(level), Outline(g.rows, level + 1))
  }

  function Leaves(rows: seq<Row>): seq<Section> {
    if rows == [] then [] else [Leaf(rows[0])] + Leaves(rows[1..])
  }

  /** The warnings at the leaves, from top to bottom. */
  function LeafRows(ss: seq<Section>): seq<Row> {
    if ss == [] then []
    else (match ss[0] case Leaf(row) => [row] case Inner(_, _, _, children) => LeafRows(children)) + LeafRows(ss[1..])
  }

  function Inners(ss: seq<Section>): nat {
    if ss == [] then 0
    else (match ss[0] case Leaf(_) => 0 case Inner(_, _, _, children) => 1 + Inners(children)) + Inners(ss[1..])
  }

  function Weight(s: Section): int {
    match s case Leaf(row) => Warnings.Count(row) case Inner(_, count, _, _) => count
  }

  function Weights(ss: seq<Section>): int {
    SumOf(ss, Weight)
  }

  /** Every group's count is the sum of its children's counts. */
  predicate Consistent(ss: seq<Section>) {
    ss == [] ||
    ((match ss[0]
      case Leaf(_) => true
      case Inner(_, count, _, children) => count == Weights(children) && Consistent(children))
     && Consistent(ss[1..]))
  }

  lemma {:induction false} LeavesAre(rows: seq<Row>)
    ensures LeafRows(Leaves(rows)) == rows && Weights(Leaves(rows)) == SumNum(rows) && Consistent(Leaves(rows))
  {
    if rows != [] {
      LeavesAre(rows[1..]);
      assert Leaves(rows)[1..] == Leaves(rows[1..]);
    }
  }

  /** All warnings are at the leaves, and the counts add up on every level. */
  lemma {:induction false} OutlineConserves(rows: seq<Row>, level: nat)
    requires level <= 3
    ensures multiset(LeafRows(Outline(rows, level))) == multiset(rows)
    ensures Weights(Outline(rows, level)) == SumNum(rows)
    ensures Consistent(Outline(rows, level))
    decreases 3 - level, 1, 0
  {
    hide GroupAndSort, Ranked, Faithful, HasKey;
    if level == 3 {
      LeavesAre(rows);
    } else {
      var groups := GroupAndSort(rows, ColumnAt(level));
      GroupsPartition(rows, ColumnAt(level));
      CountsOfGroups(rows, ColumnAt(level));
      GroupedConserves(groups, level);
    }
  }

  lemma CountsOfGroups(rows: seq<Row>, column: Column)
    ensures forall g :: g in GroupAndSort(rows, column) ==> g.count == SumNum(g.rows)
  {
    hide GroupAndSort;
    GroupsPartition(rows, column);
  }

  lemma {:induction false} GroupedConserves(groups: seq<Group>, level: nat)
    requires level < 3 && forall g :: g in groups ==> g.count == SumNum(g.rows)
    ensures multiset(LeafRows(Grouped(groups, level))) == multiset(Flatten(groups))
    ensures Weights(Grouped(groups, level)) == SumCounts(groups)
    ensures Consistent(Grouped(groups, level))
    decreases 3 - level, 0, |groups|
  {
    hide Outline;
    if groups != [] {
      OutlineConserves(groups[0].rows, level + 1);
      GroupedConserves(groups[1..], level);
      assert Grouped(groups, level)[1..] == Grouped(groups[1..], level);
    }
  }

  lemma {:induction false} SizesSplit(ss: seq<Section>)
    ensures Sizes(ss) == Inners(ss) + |LeafRows(ss)|
  {
    if ss != [] {
      SizesSplit(ss[1..]);
      if ss[0].Inner? {
        SizesSplit(ss[0].children);
      }
    }
  }

  // ---------- Every warning under its own headings ----------

  /** The sections of one level file the rows: each row's key has one section and no two sections have the
      same; larger counts come first, ties in key order; under a section are the rows of its key and no
      others, filed on the next level, and the last level lists them in the rows' order. */
  ghost predicate Filed(ss: seq<Section>, level: nat, rows: seq<Row>)
    requires level <= 3
    decreases 3 - level
  {
    if level == 3 then LeafRows(ss) == rows && forall i :: 0 <= i < |ss| ==> ss[i].Leaf?
    else
      var key := KeyOf(ColumnAt(level));
      && (forall i :: 0 <= i < |ss| ==> ss[i].Inner? && ss[i].klass == KlassAt(level))
      && (forall i, j :: 0 <= i < j < |ss| ==> InOrder(ss[i], ss[j]))
      && (forall row :: row in rows ==> exists i :: 0 <= i < |ss| && ss[i].key == key(row))
      && (forall i :: 0 <= i < |ss| ==> HoldsItsOwn(ss[i], level))
      && (forall i :: 0 <= i < |ss| ==> Filed(ss[i].children, level + 1, WithKey(rows, key, ss[i].key)))
  }

  predicate InOrder(s: Section, t: Section)
    requires s.Inner? && t.Inner?
  {
    s.key != t.key && (s.count > t.count || (s.count == t.count && Less(s.key, t.key)))
  }

  /** Every warning anywhere below the section has its heading in the level's column, and there is one. */
  ghost predicate HoldsItsOwn(s: Section, level: nat)
    requires s.Inner?
  {
    s.children != [] && forall row :: row in LeafRows(s.children) ==> KeyOf(ColumnAt(level))(row) == s.key
  }

  lemma {:induction false} GroupedAt(groups: seq<Group>, level: nat, i: nat)
    requires level < 3 && i < |groups|
    ensures |Grouped(groups, level)| == |groups| && Grouped(groups, level)[i] == GroupSection(groups[i], level)
    decreases |groups|
  {
    hide GroupSection;
    GroupedSize(groups, level);
    if i > 0 {
      GroupedAt(groups[1..], level, i - 1);
    }
  }

  lemma {:induction false} GroupedSize(groups: seq<Group>, level: nat)
    requires level < 3
    ensures |Grouped(groups, level)| == |groups|
    decreases |groups|
  {
    hide GroupSection;
    if groups != [] {
      GroupedSize(groups[1..], level);
    }
  }

  lemma {:induction false} OutlineIsFiled(rows: seq<Row>, level: nat)
    requires level <= 3
    ensures Filed(Outline(rows, level), level, rows)
    decreases 3 - level
  {
    hide GroupAndSort, Grouped, GroupSection, HoldsItsOwn, LeafRows, WithKey, Filed;
    if level == 3 {
      LeavesAre(rows);
      LeavesAreLeaves(rows);
      ListedIsFiled(Leaves(rows), rows);
    } else {
      var groups := GroupAndSort(rows, ColumnAt(level));
      var ss := Grouped(groups, level);
      GroupedSize(groups, level);
      forall i | 0 <= i < |ss|
        ensures ss[i] == GroupSection(groups[i], level)
        ensures SectionFiled(ss[i], groups[i], level, rows)
      {
        GroupedAt(groups, level, i);
        GroupIsIn(rows, level, groups[i]);
        OutlineIsFiled(groups[i].rows, level + 1);
        SectionIsFiled(groups[i], level, rows);
      }
      GroupsAreFiled(ss, groups, level, rows);
    }
  }

  lemma {:induction false} LeavesAreLeaves(rows: seq<Row>)
    ensures forall i :: 0 <= i < |Leaves(rows)| ==> Leaves(rows)[i].Leaf?
  {
    if rows != [] {
      LeavesAreLeaves(rows[1..]);
    }
  }

  lemma ListedIsFiled(ss: seq<Section>, rows: seq<Row>)
    requires LeafRows(ss) == rows && forall i :: 0 <= i < |ss| ==> ss[i].Leaf?
    ensures Filed(ss, 3, rows)
  {
  }

  lemma GroupIsIn(rows: seq<Row>, level: nat, g: Group)
    requires level < 3 && g in GroupAndSort(rows, ColumnAt(level))
    ensures g.rows != [] && g.rows == WithKey(rows, KeyOf(ColumnAt(level)), g.key)
  {
    hide GroupAndSort;
    GroupsPartition(rows, ColumnAt(level));
  }

  /** The section of a group, as it is filed. */
  ghost predicate SectionFiled(s: Section, g: Group, level: nat, rows: seq<Row>)
    requires level < 3
  {
    && s.Inner? && s.klass == KlassAt(level) && s.key == g.key && s.count == g.count
    && HoldsItsOwn(s, level)
    && Filed(s.children, level + 1, WithKey(rows, KeyOf(ColumnAt(level)), s.key))
  }

  lemma SectionIsFiled(g: Group, level: nat, rows: seq<Row>)
    requires level < 3 && g.rows != [] && g.rows == WithKey(rows, KeyOf(ColumnAt(level)), g.key)
    requires Filed(Outline(g.rows, level + 1), level + 1, g.rows)
    ensures SectionFiled(GroupSection(g, level), g, level, rows)
  {
    hide Outline, Filed, WithKey, HoldsItsOwn, KeyOf;
    GroupHoldsItsOwn(g, level, rows);
  }

  lemma GroupHoldsItsOwn(g: Group, level: nat, rows: seq<Row>)
    requires level < 3 && g.rows != [] && g.rows == WithKey(rows, KeyOf(ColumnAt(level)), g.key)
    ensures HoldsItsOwn(GroupSection(g, level), level)
  {
    hide Outline, WithKey, LeafRows, KeyOf, ColumnAt;
    var key := KeyOf(ColumnAt(level));
    LeavesAreOfRows(g.rows, level + 1);
    forall row | row in LeafRows(Outline(g.rows, level + 1)) ensures key(row) == g.key {
      InFilter(rows, key, g.key, row);
    }
  }

  lemma LeavesAreOfRows(rows: seq<Row>, level: nat)
    requires level <= 3 && rows != []
    ensures Outline(rows, level) != [] && forall row :: row in LeafRows(Outline(rows, level)) ==> row in rows
  {
    hide Outline, Consistent, Weights, SumNum;
    OutlineConserves(rows, level);
    var leaves := LeafRows(Outline(rows, level));
    SameLength(leaves, rows);
    hide LeafRows;
    forall row | row in leaves ensures row in rows {
      assert row in multiset(leaves);
    }
  }

  lemma GroupsAreFiled(ss: seq<Section>, groups: seq<Group>, level: nat, rows: seq<Row>)
    requires level < 3 && groups == GroupAndSort(rows, ColumnAt(level)) && |ss| == |groups|
    requires forall i :: 0 <= i < |ss| ==> SectionFiled(ss[i], groups[i], level, rows)
    ensures Filed(ss, level, rows)
  {
    hide GroupAndSort, HoldsItsOwn, WithKey, Faithful, HasKey;
    GroupsPartition(rows, ColumnAt(level));
    forall i | 0 <= i < |ss| ensures SectionFiled(ss[i], groups[i], level, rows) {
    }
    forall i, j | 0 <= i < j < |ss| ensures InOrder(ss[i], ss[j]) {
      assert Warnings.Before(groups[i], groups[j]);
    }
    forall row | row in rows ensures exists i :: 0 <= i < |ss| && ss[i].key == KeyOf(ColumnAt(level))(row) {
      EveryRowHasItsGroup(rows, ColumnAt(level), row);
      var g :| g in groups && g.key == KeyOf(ColumnAt(level))(row) && row in g.rows;
      var i :| 0 <= i < |groups| && groups[i] == g;
      assert SectionFiled(ss[i], groups[i], level, rows);
    }
  }

  /** The report of some warnings is balanced; its sections are numbered 0 .. k - 1 where k is the number
      of groups on all levels plus the number of warnings; all warnings are in it, each once, under its own
      category, location and message, sections with larger counts first on each level; and every count is
      the sum of the counts one level down, the top ones adding up to the data's total. */
  lemma ReportIsFaithful(data: seq<Row>)
    ensures var o := Outline(data, 0);
            var tokens := [Head] + Renders(o, 0);
            && Open(tokens, 0) == Some(0)
            && Ids(tokens) == Consecutive(0, Inners(o) + |data|)
            && multiset(LeafRows(o)) == multiset(data)
            && Consistent(o) && Weights(o) == SumNum(data)
            && Filed(o, 0, data)
  {
    hide Outline, Filed, Renders, Consistent, Weights, SumNum, Inners, Open, Ids, LeafRows, Sizes;
    var o := Outline(data, 0);
    OutlineConserves(data, 0);
    OutlineIsFiled(data, 0);
    SizesSplit(o);
    SameLength(LeafRows(o), data);
    SectionsAreWellFormed(o, 0, 0);
    HeadCountsForNothing(Renders(o, 0));
  }

  lemma SameLength(a: seq<Row>, b: seq<Row>)
    requires multiset(a) == multiset(b)
    ensures |a| == |b|
  {
    assert |a| == |multiset(a)| == |multiset(b)| == |b|;
  }

  lemma HeadCountsForNothing(tokens: seq<Token>)
    ensures Open([Head] + tokens, 0) == Open(tokens, 0) && Ids([Head] + tokens) == Ids(tokens)
  {
    assert ([Head] + tokens)[1..] == tokens;
  }

  // ---------- What a reader of the file sees ----------

  /** A warning as the file shows it: the headings of the sections around it, from the top down, with their
      classes, and its two lines of text. */
  datatype Entry = Entry(path: seq<(Heading, Klass)>, lineno: Value, num: Value)

  /** Reading the file piece by piece, `path` being the headings of the open sections. */
  function Read(tokens: seq<Token>, path: seq<(Heading, Klass)>, lineno: Value): seq<Entry> {
    if tokens == [] then []
    else
      match tokens[0]
      case Head => Read(tokens[1..], path, lineno)
      case Start(_, heading, klass) => Read(tokens[1..], path + [(heading, klass)], lineno)
      case End => Read(tokens[1..], if path == [] then [] else path[..|path| - 1], lineno)
      case Lineno(of) => Read(tokens[1..], path, of)
      case NumOccur(of) => [Entry(path, lineno, of)] + Read(tokens[1..], path, lineno)
  }

  /** What the sections of an outline show under some headings. */
  function Entries(ss: seq<Section>, path: seq<(Heading, Klass)>): seq<Entry> {
    if ss == [] then []
    else
      (match ss[0]
       case Leaf(row) => [Entry(path + [(File(FileOf(row)), WarningClass)], row[LINENO], row[NUM])]
       case Inner(key, count, klass, children) => Entries(children, path + [(Counted(key, count), klass)]))
      + Entries(ss[1..], path)
  }

  lemma {:induction false} SectionReads(s: Section, id: nat, tail: seq<Token>, path: seq<(Heading, Klass)>, l: Value)
      returns (l': Value)
    ensures Read(Render(s, id) + tail, path, l) == Entries([s], path) + Read(tail, path, l')
    decreases s, 1
  {
    match s
    case Leaf(row) =>
      LeafReads(row, id, tail, path, l);
      l' := row[LINENO];
    case Inner(key, count, klass, children) =>
      var inner := path + [(Counted(key, count), klass)];
      l' := SectionsRead(children, id + 1, [End] + tail, inner, l);
      AroundReads(Start(id, Counted(key, count), klass), Renders(children, id + 1), tail, path, l);
      EndReads(tail, inner, l');
      assert inner[..|inner| - 1] == path;
      OneSection(s, path);
  }

  lemma OneSection(s: Section, path: seq<(Heading, Klass)>)
    requires s.Inner?
    ensures Entries([s], path) == Entries(s.children, path + [(Counted(s.key, s.count), s.klass)])
  {
    assert [s][1..] == [];
    assert Entries([s][1..], path) == [];
  }

  lemma AroundReads(start: Token, inner: seq<Token>, tail: seq<Token>, path: seq<(Heading, Klass)>, l: Value)
    requires start.Start?
    ensures Read([start] + inner + [End] + tail, path, l) ==
            Read(inner + ([End] + tail), path + [(start.heading, start.klass)], l)
  {
    assert [start] + inner + [End] + tail == [start] + (inner + ([End] + tail));
    assert ([start] + (inner + ([End] + tail)))[1..] == inner + ([End] + tail);
  }

  lemma EndReads(tail: seq<Token>, path: seq<(Heading, Klass)>, l: Value)
    requires path != []
    ensures Read([End] + tail, path, l) == Read(tail, path[..|path| - 1], l)
  {
    assert ([End] + tail)[1..] == tail;
  }

  lemma LeafReads(row: Row, id: nat, tail: seq<Token>, path: seq<(Heading, Klass)>, l: Value)
    ensures Read(Render(Leaf(row), id) + tail, path, l) == Entries([Leaf(row)], path) + Read(tail, path, row[LINENO])
  {
    hide FileOf;
    var file := path + [(File(FileOf(row)), WarningClass)];
    var texts := [Lineno(row[LINENO]), NumOccur(row[NUM])];
    AroundReads(Start(id, File(FileOf(row)), WarningClass), texts, tail, path, l);
    TextsRead(row[LINENO], row[NUM], [End] + tail, file, l);
    EndReads(tail, file, row[LINENO]);
    assert file[..|file| - 1] == path;
    assert Render(Leaf(row), id) + tail == [Start(id, File(FileOf(row)), WarningClass)] + texts + [End] + tail;
    assert [Leaf(row)][1..] == [] && Entries([Leaf(row)][1..], path) == [];
  }

  lemma TextsRead(lineno: Value, num: Value, tail: seq<Token>, path: seq<(Heading, Klass)>, l: Value)
    ensures Read([Lineno(lineno), NumOccur(num)] + tail, path, l) ==
            [Entry(path, lineno, num)] + Read(tail, path, lineno)
  {
    var t := [Lineno(lineno), NumOccur(num)] + tail;
    assert t[1..] == [NumOccur(num)] + tail && ([NumOccur(num)] + tail)[1..] == tail;
  }

  /** Reading a written outline gives back what its sections show. */
  lemma {:induction false} SectionsRead(ss: seq<Section>, id: nat, tail: seq<Token>, path: seq<(Heading, Klass)>,
                                        l: Value)
      returns (l': Value)
    ensures Read(Renders(ss, id) + tail, path, l) == Entries(ss, path) + Read(tail, path, l')
    decreases ss, 0
  {
    hide Render, Read;
    l' := l;
    if ss == [] {
      assert Renders(ss, id) + tail == tail;
      assert Entries(ss, path) + Read(tail, path, l) == Read(tail, path, l);
    } else {
      var first, more := Render(ss[0], id), Renders(ss[1..], id + Size(ss[0]));
      var mid := SectionReads(ss[0], id, more + tail, path, l);
      l' := SectionsRead(ss[1..], id + Size(ss[0]), tail, path, mid);
      assert Renders(ss, id) + tail == first + (more + tail);
      FirstSection(ss, path);
    }
  }

  lemma FirstSection(ss: seq<Section>, path: seq<(Heading, Klass)>)
    requires ss != []
    ensures Entries(ss, path) == Entries([ss[0]], path) + Entries(ss[1..], path)
  {
    assert [ss[0]][1..] == [] && Entries([ss[0]][1..], path) == [];
  }

  /** The headings under which a warning belongs, from a level down, each with the count of its group. */
  function HeadingsFrom(rows: seq<Row>, level: nat, row: Row): seq<(Heading, Klass)>
    requires level <= 3
    decreases 3 - level
  {
    if level == 3 then [(File(FileOf(row)), WarningClass)]
    else
      var key := KeyOf(ColumnAt(level));
      var group := WithKey(rows, key, key(row));
      [(Counted(key(row), SumNum(group)), KlassAt(level))] + HeadingsFrom(group, level + 1, row)
  }

  function Shown(rows: seq<Row>, level: nat, path: seq<(Heading, Klass)>, rows': seq<Row>): seq<Entry>
    requires level <= 3
  {
    seq(|rows'|, i requires 0 <= i < |rows'| =>
      Entry(path + HeadingsFrom(rows, level, rows'[i]), rows'[i][LINENO], rows'[i][NUM]))
  }

  lemma {:induction false} LeavesShow(rows: seq<Row>, all: seq<Row>, path: seq<(Heading, Klass)>)
    ensures Entries(Leaves(rows), path) == Shown(all, 3, path, rows)
  {
    hide FileOf;
    if rows != [] {
      LeavesShow(rows[1..], all, path);
      assert Leaves(rows)[1..] == Leaves(rows[1..]);
      assert Shown(all, 3, path, rows) == Shown(all, 3, path, [rows[0]]) + Shown(all, 3, path, rows[1..]);
    }
  }

  /** An outline shows each of its warnings under the headings where it belongs. */
  lemma {:induction false} OutlineShows(rows: seq<Row>, level: nat, path: seq<(Heading, Klass)>)
    requires level <= 3
    ensures Entries(Outline(rows, level), path) == Shown(rows, level, path, LeafRows(Outline(rows, level)))
    decreases 3 - level, 1, 0
  {
    hide GroupAndSort, Shown, Entries, LeafRows, HeadingsFrom, ColumnAt, KeyOf;
    if level == 3 {
      LeavesAre(rows);
      LeavesShow(rows, rows, path);
    } else {
      var groups := GroupAndSort(rows, ColumnAt(level));
      forall g | g in groups ensures IsGroupOf(g, rows, level) {
        GroupIsIn(rows, level, g);
        CountsOfGroups(rows, ColumnAt(level));
      }
      GroupedShows(groups, rows, level, path);
    }
  }

  ghost predicate IsGroupOf(g: Group, rows: seq<Row>, level: nat)
    requires level < 3
  {
    g.rows == WithKey(rows, KeyOf(ColumnAt(level)), g.key) && g.rows != [] && g.count == SumNum(g.rows)
  }

  lemma {:induction false} GroupedShows(groups: seq<Group>, rows: seq<Row>, level: nat, path: seq<(Heading, Klass)>)
    requires level < 3 && forall g :: g in groups ==> IsGroupOf(g, rows, level)
    ensures Entries(Grouped(groups, level), path) == Shown(rows, level, path, LeafRows(Grouped(groups, level)))
    decreases 3 - level, 0, |groups|
  {
    hide Outline, Shown, HeadingsFrom, IsGroupOf;
    if groups == [] {
      NoneShown(rows, level, path);
    } else {
      var s, more := GroupSection(groups[0], level), Grouped(groups[1..], level);
      GroupShows(groups[0], rows, level, path);
      GroupedShows(groups[1..], rows, level, path);
      assert Grouped(groups, level)[1..] == more;
      ShownConcat(rows, level, path, LeafRows(s.children), LeafRows(more));
    }
  }

  lemma NoneShown(rows: seq<Row>, level: nat, path: seq<(Heading, Klass)>)
    requires level <= 3
    ensures Shown(rows, level, path, []) == []
  {
  }

  lemma ShownConcat(rows: seq<Row>, level: nat, path: seq<(Heading, Klass)>, a: seq<Row>, b: seq<Row>)
    requires level <= 3
    ensures Shown(rows, level, path, a + b) == Shown(rows, level, path, a) + Shown(rows, level, path, b)
  {
    hide HeadingsFrom;
  }

  lemma GroupShows(g: Group, rows: seq<Row>, level: nat, path: seq<(Heading, Klass)>)
    requires level < 3 && IsGroupOf(g, rows, level)
    ensures var s := GroupSection(g, level);
            Entries(s.children, path + [(Counted(s.key, s.count), s.klass)]) ==
            Shown(rows, level, path, LeafRows(s.children))
    decreases 3 - level, 0, 0
  {
    hide Outline, Entries, LeafRows, WithKey, SumNum, KeyOf, ColumnAt;
    var s := GroupSection(g, level);
    var heading := (Counted(s.key, s.count), s.klass);
    OutlineShows(g.rows, level + 1, path + [heading]);
    GroupHoldsItsOwn(g, level, rows);
    var shown := LeafRows(s.children);
    forall i | 0 <= i < |shown|
      ensures path + [heading] + HeadingsFrom(g.rows, level + 1, shown[i]) == path + HeadingsFrom(rows, level, shown[i])
    {
      assert shown[i] in shown;
      assert HeadingsFrom(rows, level, shown[i]) == [heading] + HeadingsFrom(g.rows, level + 1, shown[i]);
    }
  }

  /** The text a row has in a column, if any. */
  function TextIn(row: Row, column: Column): string {
    if row[column].Str? then row[column].s else ""
  }

  function InColumn(rows: seq<Row>, column: Column, text: string): seq<Row> {
    WithKey(rows, KeyOf(column), text)
  }

  /** The headings of a warning in the report: its category with the number of warnings of that category, its
      location with their number among these, its message with their number among those, and its file. */
  function Headings(data: seq<Row>, row: Row): seq<(Heading, Klass)> {
    var ofCategory := InColumn(data, CATEGORY, TextIn(row, CATEGORY));
    var ofLocation := InColumn(ofCategory, HIGH_LOCATION, TextIn(row, HIGH_LOCATION));
    var ofMessage := InColumn(ofLocation, MESSAGE, TextIn(row, MESSAGE));
    [(Counted(TextIn(row, CATEGORY), SumNum(ofCategory)), CategoryClass),
     (Counted(TextIn(row, HIGH_LOCATION), SumNum(ofLocation)), LocationClass),
     (Counted(TextIn(row, MESSAGE), SumNum(ofMessage)), TextClass),
     (File(TextIn(row, FILENAME)), WarningClass)]
  }

  lemma HeadingsAre(data: seq<Row>, row: Row)
    ensures HeadingsFrom(data, 0, row) == Headings(data, row)
  {
    hide WithKey, SumNum;
    var ofCategory := InColumn(data, CATEGORY, TextIn(row, CATEGORY));
    var ofLocation := InColumn(ofCategory, HIGH_LOCATION, TextIn(row, HIGH_LOCATION));
    assert HeadingsFrom(InColumn(ofLocation, MESSAGE, TextIn(row, MESSAGE)), 3, row) ==
           [(File(TextIn(row, FILENAME)), WarningClass)];
  }

  /** Reading the report from top to bottom, one meets every warning of the data exactly once: under its own
      category, location, message and file, in this order, with the groups' counts, and with its own line
      number and count. */
  lemma ReportReads(data: seq<Row>) returns (shown: seq<Row>)
    ensures multiset(shown) == multiset(data)
    ensures var entries := Read([Head] + Renders(Outline(data, 0), 0), [], Null);
            && |entries| == |shown|
            && forall i :: 0 <= i < |shown| ==>
                 entries[i] == Entry(Headings(data, shown[i]), shown[i][LINENO], shown[i][NUM])
  {
    hide Outline, Renders, LeafRows, Entries, HeadingsFrom, Headings, Read;
    var o := Outline(data, 0);
    shown := LeafRows(o);
    OutlineConserves(data, 0);
    var l := SectionsRead(o, 0, [], [], Null);
    ReadEnds(Renders(o, 0), l);
    OutlineShows(data, 0, []);
    forall i | 0 <= i < |shown| ensures [] + HeadingsFrom(data, 0, shown[i]) == Headings(data, shown[i]) {
      HeadingsAre(data, shown[i]);
    }
    assert Entries(o, []) + [] == Entries(o, []);
  }

  lemma ReadEnds(tokens: seq<Token>, l: Value)
    ensures Read([Head] + tokens, [], Null) == Read(tokens + [], [], Null) && Read([], [], l) == []
  {
    assert ([Head] + tokens)[1..] == tokens && tokens + [] == tokens;
  }

  // ---------- The writer ----------

  class HtmlOutlineWriter {
    var fout: seq<Token>
    var sectionId: nat

    constructor ()
      ensures fout == [Head] && sectionId == 0
    {
      fout := [Head];
      sectionId := 0;
    }

    method StartSection(heading: Heading, klass: Klass)
      modifies this
      ensures fout == old(fout) + [Start(old(sectionId), heading, klass)] && sectionId == old(sectionId) + 1
    {
      fout := fout + [Start(sectionId, heading, klass)];
      sectionId := sectionId + 1;
    }

    method EndSection()
      modifies `fout
      ensures fout == old(fout) + [End]
    {
      fout := fout + [End];
    }

    method Write(html: Token)
      modifies `fout
      ensures fout == old(fout) + [html]
    {
      fout := fout + [html];
    }
  }

  /** The sections were written after what was there, numbered on from the next id. */
  ghost predicate Wrote(before: seq<Token>, id: nat, after: seq<Token>, next: nat, ss: seq<Section>) {
    after == before + Renders(ss, id) && next == id + Sizes(ss)
  }

  method WriteWarnings(writer: HtmlOutlineWriter, rows: seq<Row>)
    modifies writer
    ensures Wrote(old(writer.fout), old(writer.sectionId), writer.fout, writer.sectionId, Outline(rows, 3))
  {
    ghost var before, id := writer.fout, writer.sectionId;
    for i := 0 to |rows|
      invariant Wrote(before, id, writer.fout, writer.sectionId, Leaves(rows[..i]))
    {
      LeafWritten(before, id, rows, i, writer.fout, writer.sectionId);
      hide Wrote, FileOf;
      writer.StartSection(File(FileOf(rows[i])), WarningClass);
      writer.Write(Lineno(rows[i][LINENO]));
      writer.Write(NumOccur(rows[i][NUM]));
      writer.EndSection();
    }
    assert rows[..|rows|] == rows;
  }

  lemma LeafWritten(before: seq<Token>, id: nat, rows: seq<Row>, i: nat, t: seq<Token>, next: nat)
    requires i < |rows| && Wrote(before, id, t, next, Leaves(rows[..i]))
    ensures var row := rows[i];
            Wrote(before, id,
                  t + [Start(next, File(FileOf(row)), WarningClass)] + [Lineno(row[LINENO])] + [NumOccur(row[NUM])] +
                  [End],
                  next + 1, Leaves(rows[..i + 1]))
  {
    hide Leaves, Renders, FileOf;
    var done, row := Leaves(rows[..i]), rows[i];
    LeavesSnoc(rows[..i], row);
    assert rows[..i + 1] == rows[..i] + [row];
    RendersSnoc(done, Leaf(row), id);
    assert t + Render(Leaf(row), next) ==
           t + [Start(next, File(FileOf(row)), WarningClass)] + [Lineno(row[LINENO])] + [NumOccur(row[NUM])] + [End];
  }

  lemma {:induction false} LeavesSnoc(rows: seq<Row>, row: Row)
    ensures Leaves(rows + [row]) == Leaves(rows) + [Leaf(row)]
  {
    if rows == [] {
      assert [row][1..] == [];
    } else {
      assert (rows + [row])[1..] == rows[1..] + [row];
      LeavesSnoc(rows[1..], row);
    }
  }

  lemma {:induction false} GroupedSnoc(groups: seq<Group>, g: Group, level: nat)
    requires level < 3
    ensures Grouped(groups + [g], level) == Grouped(groups, level) + [GroupSection(g, level)]
  {
    hide GroupSection;
    if groups == [] {
      assert [g][1..] == [];
    } else {
      assert (groups + [g])[1..] == groups[1..] + [g];
      GroupedSnoc(groups[1..], g, level);
    }
  }

  lemma GroupWritten(before: seq<Token>, id: nat, groups: seq<Group>, i: nat, level: nat,
                     t0: seq<Token>, id0: nat, t1: seq<Token>, id1: nat)
    requires level < 3 && i < |groups|
    requires Wrote(before, id, t0, id0, Grouped(groups[..i], level))
    requires Wrote(t0 + [Start(id0, Counted(groups[i].key, groups[i].count), KlassAt(level))], id0 + 1, t1, id1,
                   Outline(groups[i].rows, level + 1))
    ensures Wrote(before, id, t1 + [End], id1, Grouped(groups[..i + 1], level))
  {
    hide Outline, Grouped;
    var done, g := Grouped(groups[..i], level), groups[i];
    assert groups[..i + 1] == groups[..i] + [g];
    GroupedSnoc(groups[..i], g, level);
    RendersSnoc(done, GroupSection(g, level), id);
    var inner := Renders(Outline(g.rows, level + 1), id0 + 1);
    var start := Start(id0, Counted(g.key, g.count), KlassAt(level));
    assert Render(GroupSection(g, level), id0) == [start] + inner + [End];
    assert t1 + [End] == before + Renders(done, id) + ([start] + inner + [End]);
  }

  method WriteMessages(writer: HtmlOutlineWriter, rows: seq<Row>)
    modifies writer
    ensures Wrote(old(writer.fout), old(writer.sectionId), writer.fout, writer.sectionId, Outline(rows, 2))
  {
    hide Wrote, GroupAndSort;
    ghost var before, id := writer.fout, writer.sectionId;
    var groups := GroupAndSortBySumOf(rows, MESSAGE);
    NothingWritten(before, id);
    for i := 0 to |groups|
      invariant Wrote(before, id, writer.fout, writer.sectionId, Grouped(groups[..i], 2))
    {
      ghost var t0, id0 := writer.fout, writer.sectionId;
      writer.StartSection(Counted(groups[i].key, groups[i].count), TextClass);
      WriteWarnings(writer, groups[i].rows);
      GroupWritten(before, id, groups, i, 2, t0, id0, writer.fout, writer.sectionId);
      writer.EndSection();
    }
    assert groups[..|groups|] == groups;
  }

  method WriteLocations(writer: HtmlOutlineWriter, rows: seq<Row>)
    modifies writer
    ensures Wrote(old(writer.fout), old(writer.sectionId), writer.fout, writer.sectionId, Outline(rows, 1))
  {
    hide Wrote, GroupAndSort;
    ghost var before, id := writer.fout, writer.sectionId;
    var groups := GroupAndSortBySumOf(rows, HIGH_LOCATION);
    NothingWritten(before, id);
    for i := 0 to |groups|
      invariant Wrote(before, id, writer.fout, writer.sectionId, Grouped(groups[..i], 1))
    {
      ghost var t0, id0 := writer.fout, writer.sectionId;
      writer.StartSection(Counted(groups[i].key, groups[i].count), LocationClass);
      WriteMessages(writer, groups[i].rows);
      GroupWritten(before, id, groups, i, 1, t0, id0, writer.fout, writer.sectionId);
      writer.EndSection();
    }
    assert groups[..|groups|] == groups;
  }

  lemma NothingWritten(before: seq<Token>, id: nat)
    ensures Wrote(before, id, before, id, [])
  {
    assert before + Renders([], id) == before;
  }

  /** The report as it is written: the head, then the outline of the warnings numbered from 0. */
  method WriteHtmlReport(rows: seq<Row>) returns (fout: seq<Token>)
    ensures fout == [Head] + Renders(Outline(rows, 0), 0)
  {
    hide GroupAndSort;
    var writer := new HtmlOutlineWriter();
    var groups := GroupAndSortBySumOf(rows, CATEGORY);
    NothingWritten([Head], 0);
    for i := 0 to |groups|
      invariant Wrote([Head], 0, writer.fout, writer.sectionId, Grouped(groups[..i], 0))
    {
      hide Wrote;
      ghost var t0, id0 := writer.fout, writer.sectionId;
      writer.StartSection(Counted(groups[i].key, groups[i].count), CategoryClass);
      WriteLocations(writer, groups[i].rows);
      GroupWritten([Head], 0, groups, i, 0, t0, id0, writer.fout, writer.sectionId);
      writer.EndSection();
    }
    assert groups[..|groups|] == groups;
    fout := writer.fout;
  }
}
