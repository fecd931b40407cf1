/** Month arithmetic of scripts/xblock/xblock_counts.py. Its `%` and `//` have a positive divisor, where
    Python's floor operators and Dafny's Euclidean ones agree. */
module MonthDelta {
  import opened Common

  datatype Date = Date(year: int, month: int, day: int)

  predicate IsLeap(year: int) {
    year % 4 == 0 && (year % 100 != 0 || year % 400 == 0)
  }

  /** The Gregorian calendar. */
  function DaysIn(year: int, month: int): int
    requires 1 <= month <= 12
  {
    if month == 2 then if IsLeap(year) then 29 else 28
    else if month in {4, 6, 9, 11} then 30
    else 31
  }

  /** The dates that Python's datetime represents. */
  predicate Valid(d: Date) {
    1 <= d.year <= 9999 && 1 <= d.month <= 12 && 1 <= d.day <= DaysIn(d.year, d.month)
  }

  /** The program's table of month lengths, with its own leap year test. */
  function Table(year: int): (days: seq<int>)
    ensures |days| == 12
  {
    [31, if year % 4 == 0 && year % 400 != 0 then 29 else 28, 31, 30, 31, 30, 31, 31, 30, 31, 30, 31]
  }

  function Min(a: int, b: int): int {
    if a <= b then a else b
  }

  function TargetMonth(date: Date, delta: int): (m: int)
    ensures 1 <= m <= 12
  {
    var m := (date.month + delta) % 12;
    if m == 0 then 12 else m
  }

  function TargetYear(date: Date, delta: int): int {
    date.year + (date.month + delta - 1) / 12
  }

  /** None when replacing the fields raises a ValueError. */
  function Moved(date: Date, delta: int): Option<Date> {
    var m, y := TargetMonth(date, delta), TargetYear(date, delta);
    var d := Min(date.day, Table(y)[m - 1]);
    if Valid(Date(y, m, d)) then Some(Date(y, m, d)) else None
  }

  function MonthIndex(d: Date): int {
    12 * d.year + d.month
  }

  /** The target is the one month that lies exactly delta months away. */
  lemma TargetIsDeltaAway(date: Date, delta: int, y: int, m: int)
    requires 1 <= m <= 12
    ensures y == TargetYear(date, delta) && m == TargetMonth(date, delta) <==> 12 * y + m == MonthIndex(date) + delta
  {
    var total := date.month + delta - 1;
    assert total == 12 * (total / 12) + total % 12;
    NextRemainder(total);
  }

  lemma NextRemainder(n: int)
    ensures (n + 1) % 12 == if n % 12 == 11 then 0 else n % 12 + 1
  {
  }

  /** `r` is the latest date of month m of year y whose day is at most `day`. */
  ghost predicate Latest(r: Date, y: int, m: int, day: int) {
    && Valid(r) && r.year == y && r.month == m && r.day <= day
    && forall d :: Valid(Date(y, m, d)) && d <= day ==> d <= r.day
  }

  /** February of a year divisible by 100 whose length matters. */
  predicate MissesCentury(date: Date, delta: int) {
    TargetMonth(date, delta) == 2 && TargetYear(date, delta) % 100 == 0 && date.day >= 29
  }

  lemma TableIsRight(year: int, month: int)
    requires 1 <= month <= 12
    ensures Table(year)[month - 1] == DaysIn(year, month) <==> month != 2 || year % 100 != 0
    ensures 28 <= Table(year)[month - 1] && 28 <= DaysIn(year, month)
    ensures month == 2 ==> Table(year)[month - 1] <= 29 && DaysIn(year, month) <= 29
  {
  }

  /** For a target within datetime's years the date moves to the target month, clamped as little as
      possible, if and only if that is not the 29th or later in a February of a year divisible by 100. */
  lemma ClampsLeastIff(date: Date, delta: int)
    requires Valid(date) && 1 <= TargetYear(date, delta) <= 9999
    ensures var y, m, r := TargetYear(date, delta), TargetMonth(date, delta), Moved(date, delta);
            r.Some? && Latest(r.value, y, m, date.day) <==> !MissesCentury(date, delta)
  {
    var y, m := TargetYear(date, delta), TargetMonth(date, delta);
    TableIsRight(y, m);
    var best := Date(y, m, Min(date.day, DaysIn(y, m)));
    assert Latest(best, y, m, date.day);
  }

  /** What happens in the excluded case: a year divisible by 400 loses its 29th, any other raises. */
  lemma CenturyOutcome(date: Date, delta: int)
    requires Valid(date) && 1 <= TargetYear(date, delta) <= 9999 && MissesCentury(date, delta)
    ensures var y := TargetYear(date, delta);
            && (y % 400 == 0 ==> Moved(date, delta) == Some(Date(y, 2, 28)) && Valid(Date(y, 2, 29)))
            && (y % 400 != 0 ==> Moved(date, delta) == None)
  {
    TableIsRight(TargetYear(date, delta), 2);
  }

  lemma CenturyExamples()
    ensures Moved(Date(2000, 1, 31), 1) == Some(Date(2000, 2, 28))
    ensures Moved(Date(2000, 2, 29), 0) == Some(Date(2000, 2, 28))
    ensures Moved(Date(1900, 1, 31), 1) == None
  {
    hide Moved;
    CenturyOutcome(Date(2000, 1, 31), 1);
    CenturyOutcome(Date(2000, 2, 29), 0);
    CenturyOutcome(Date(1900, 1, 31), 1);
  }

  // ---------- Laws ----------

  predicate Before(a: Date, b: Date) {
    a.year < b.year || (a.year == b.year && (a.month < b.month || (a.month == b.month && a.day < b.day)))
  }

  predicate NotAfter(a: Date, b: Date) {
    a == b || Before(a, b)
  }

  lemma OrderByIndex(a: Date, b: Date)
    requires 1 <= a.month <= 12 && 1 <= b.month <= 12
    ensures Before(a, b) <==> MonthIndex(a) < MonthIndex(b) || (MonthIndex(a) == MonthIndex(b) && a.day < b.day)
    ensures MonthIndex(a) == MonthIndex(b) <==> a.year == b.year && a.month == b.month
  {
  }

  /** What a successful move is: its month and its day. */
  lemma MovedIs(date: Date, delta: int)
    requires Valid(date) && Moved(date, delta).Some?
    ensures var r := Moved(date, delta).value;
            && Valid(r) && MonthIndex(r) == MonthIndex(date) + delta
            && r.day == Min(date.day, Table(r.year)[r.month - 1])
  {
    TargetIsDeltaAway(date, delta, TargetYear(date, delta), TargetMonth(date, delta));
  }

  /** Monotone in the date, and strictly so in the number of months. */
  lemma Monotone(a: Date, b: Date, delta: int, more: int)
    requires Valid(a) && Valid(b) && NotAfter(a, b) && delta <= more
    requires Moved(a, delta).Some? && Moved(b, more).Some?
    ensures NotAfter(Moved(a, delta).value, Moved(b, more).value)
    ensures delta < more ==> Before(Moved(a, delta).value, Moved(b, more).value)
  {
    hide Table, Moved, Valid;
    assert 1 <= a.month <= 12 && 1 <= b.month <= 12 by {
      MonthsOf(a);
      MonthsOf(b);
    }
    var r, s := Moved(a, delta).value, Moved(b, more).value;
    MovedIs(a, delta);
    MovedIs(b, more);
    MonthsOf(r);
    MonthsOf(s);
    OrderByIndex(a, b);
    OrderByIndex(r, s);
  }

  lemma MonthsOf(d: Date)
    requires Valid(d)
    ensures 1 <= d.month <= 12 && d.day >= 1
  {
  }

  /** Two steps reach the month that one step of their sum reaches, and the day is the earlier one of the
      first step's and the single step's, so never a later day than the single step's. */
  lemma TwoSteps(date: Date, a: int, b: int)
    requires Valid(date) && Moved(date, a).Some? && Moved(Moved(date, a).value, b).Some? && Moved(date, a + b).Some?
    ensures var first, direct := Moved(date, a).value, Moved(date, a + b).value;
            var last := Moved(first, b).value;
            last.year == direct.year && last.month == direct.month && last.day == Min(first.day, direct.day)
  {
    hide Table, Moved, Valid;
    var first, last, direct := Moved(date, a).value, Moved(Moved(date, a).value, b).value, Moved(date, a + b).value;
    MovedIs(date, a);
    MovedIs(first, b);
    MovedIs(date, a + b);
    MonthsOf(last);
    MonthsOf(direct);
    OrderByIndex(last, direct);
  }

  /** Going back undoes a move if and only if the program's table gives the target month that many days
      and the date is not the 29th of February of a year divisible by 400, which even a move by 0 shortens. */
  lemma UndoneIff(date: Date, delta: int)
    requires Valid(date) && Moved(date, delta).Some?
    ensures Moved(Moved(date, delta).value, -delta) == Some(date) <==>
              && date.day <= Table(TargetYear(date, delta))[TargetMonth(date, delta) - 1]
              && !(date.month == 2 && date.day == 29 && date.year % 400 == 0)
  {
    var first := Moved(date, delta).value;
    MovedIs(date, delta);
    TargetIsDeltaAway(first, -delta, date.year, date.month);
    TableIsRight(date.year, date.month);
    hide Table;
  }
}