/**
  The activity calendar: a year of days in columns of weeks, Sunday first. A day is its number
  counted from 1 January 1970; its key is the date it names, one to one.
 */
module Calendar {
  import opened Wrappers
  import opened Aggregates

  type Day = int

  const WEEKS := 53

  // ---------- the Gregorian calendar ----------

  /** Sunday is 0; 1 January 1970 was a Thursday. */
  function Weekday(d: Day): (w: int)
    ensures 0 <= w < 7
  {
    (d + 4) % 7
  }

  predicate Leap(year: int) {
    year % 4 == 0 && (year % 100 != 0 || year % 400 == 0)
  }

  /** Months count from January 1970. */
  function MonthLength(m: int): (n: int)
    ensures 28 <= n <= 31
  {
    var number := m % 12 + 1;
    if number == 2 then if Leap(1970 + m / 12) then 29 else 28
    else if number in {4, 6, 9, 11} then 30
    else 31
  }

  function MonthStart(m: int): (d: Day)
    decreases if m < 0 then -m else m
  {
    if m == 0 then 0
    else if m > 0 then MonthStart(m - 1) + MonthLength(m - 1)
    else MonthStart(m + 1) - MonthLength(m)
  }

  lemma NextMonth(m: int)
    ensures MonthStart(m + 1) == MonthStart(m) + MonthLength(m)
  {
  }

  predicate InMonth(d: Day, m: int) {
    MonthStart(m) <= d < MonthStart(m + 1)
  }

  lemma {:induction false} MonthsAscend(m: int, n: int)
    requires m <= n
    ensures MonthStart(n) >= MonthStart(m) + 28 * (n - m)
    decreases n - m
  {
    if m < n {
      MonthsAscend(m, n - 1);
      NextMonth(n - 1);
    }
  }

  lemma MonthIsUnique(d: Day, m: int, n: int)
    requires InMonth(d, m) && InMonth(d, n)
    ensures m == n
  {
    if m < n {
      MonthsAscend(m + 1, n);
    } else if n < m {
      MonthsAscend(n + 1, m);
    }
  }

  function MonthFrom(d: Day, m: int): (r: int)
    ensures InMonth(d, r)
    decreases if d < MonthStart(m) then MonthStart(m) - d else d + 31 - MonthStart(m)
  {
    NextMonth(m);
    NextMonth(m - 1);
    if d < MonthStart(m) then
      if d >= MonthStart(m - 1) then m - 1 else MonthFrom(d, m - 1)
    else if d < MonthStart(m + 1) then m
    else MonthFrom(d, m + 1)
  }

  function MonthOf(d: Day): (m: int)
    ensures InMonth(d, m)
  {
    MonthFrom(d, 0)
  }

  /** What a date's key shows: January is 1. */
  function MonthNumber(d: Day): (n: int)
    ensures 1 <= n <= 12
  {
    MonthOf(d) % 12 + 1
  }

  /** Within a week the month's number tells the month. */
  lemma SameNumberSameMonth(d: Day)
    ensures MonthOf(d) <= MonthOf(d + 7) <= MonthOf(d) + 1
    ensures MonthNumber(d) == MonthNumber(d + 7) <==> MonthOf(d) == MonthOf(d + 7)
  {
    var m, n := MonthOf(d), MonthOf(d + 7);
    if n < m {
      MonthsAscend(n + 1, m);
    } else if n > m + 1 {
      MonthsAscend(m + 2, n);
      MonthsAscend(m + 1, m + 2);
    }
  }

  /** A month that has begun since last Sunday still has this Sunday and three more. */
  lemma FourSundays(d: Day, k: nat)
    requires MonthOf(d - 7) != MonthOf(d) && k <= 3
    ensures MonthOf(d + 7 * k) == MonthOf(d)
  {
    var m := MonthOf(d);
    SameNumberSameMonth(d - 7);
    assert MonthOf(d - 7) == m - 1 && MonthStart(m) > d - 7;
    MonthsAscend(m, m + 1);
    MonthIsUnique(d + 7 * k, m, MonthOf(d + 7 * k));
  }

  // ---------- the grid ----------

  datatype Bucket = Bucket(date: Day, count: nat)

  datatype Cell = Cell(date: Day, col: nat, row: nat, count: nat)

  function First(today: Day): (d: Day) {
    today - Weekday(today) - 364
  }

  /** A later bucket of the same date replaces an earlier one. */
  function Counts(buckets: seq<Bucket>): (counts: map<Day, nat>) {
    if buckets == [] then map[]
    else
      var b := buckets[|buckets| - 1];
      Counts(buckets[..|buckets| - 1])[b.date := b.count]
  }

  function Get(counts: map<Day, nat>, d: Day): (n: nat) {
    if d in counts then counts[d] else 0
  }

  function CellAt(buckets: seq<Bucket>, today: Day, i: nat): (c: Cell) {
    Cell(First(today) + i, i / 7, i % 7, Get(Counts(buckets), First(today) + i))
  }

  method BuildCells(buckets: seq<Bucket>, today: Day) returns (cells: seq<Cell>)
    ensures |cells| == 365 + Weekday(today)
    ensures forall i | 0 <= i < |cells| :: cells[i] == CellAt(buckets, today, i)
  {
    var start := today - (Weekday(today) + 364);
    var counts := Counts(buckets);
    cells := [];
    var days := today - start;
    for i := 0 to days + 1
      invariant |cells| == i && forall k | 0 <= k < i :: cells[k] == CellAt(buckets, today, k)
    {
      var date := start + i;
      cells := cells + [Cell(date, i / 7, i % 7, Get(counts, date))];
    }
  }

  /** The server's window begins on the Sunday fifty-two weeks before this week's, and so does the
      grid, which ends today; each day sits in the row of its weekday, within 53 columns. */
  lemma GridShape(buckets: seq<Bucket>, today: Day, i: nat)
    requires i < 365 + Weekday(today)
    ensures var c := CellAt(buckets, today, i);
            && c.row == Weekday(c.date) && c.col < WEEKS && First(today) <= c.date <= today
            && (i == 0 ==> c.row == 0) && (i == 364 + Weekday(today) ==> c.date == today)
  {
    assert (today + 4 - Weekday(today)) % 7 == 0;
    assert (First(today) + 4) % 7 == 0;
  }

  // ---------- the statistics ----------

  datatype Stats = Stats(total: nat, activeDays: nat, streak: nat, busiest: Option<(Day, nat)>)

  function Count(c: Cell): (n: nat) { c.count }
  function Active(c: Cell): (n: nat) { if c.count > 0 then 1 else 0 }

  /** The last of the days with the most changes, if there were any. */
  predicate IsBusiest(cells: seq<Cell>, b: Option<(Day, nat)>) {
    match b
    case None => forall i | 0 <= i < |cells| :: cells[i].count == 0
    case Some((date, count)) =>
      count > 0 && exists i | 0 <= i < |cells| ::
        cells[i].date == date && cells[i].count == count
        && (forall j | 0 <= j < |cells| :: cells[j].count <= count) && (forall j | i < j < |cells| :: cells[j].count < count)
  }

  function CellCounts(cells: seq<Cell>): (counts: map<Day, nat>) {
    if cells == [] then map[]
    else
      var c := cells[|cells| - 1];
      CellCounts(cells[..|cells| - 1])[c.date := c.count]
  }

  /** The days with changes that run without a gap up to `last`, as many as there are. */
  predicate IsRunUpTo(counts: map<Day, nat>, last: Day, n: nat) {
    (forall d | last - n < d <= last :: Get(counts, d) > 0) && Get(counts, last - n) == 0
  }

  method ComputeStats(cells: seq<Cell>, today: Day) returns (s: Stats)
    ensures s.total == Sum(cells, Count) && s.activeDays == Sum(cells, Active) && IsBusiest(cells, s.busiest)
    ensures var counts := CellCounts(cells);
            IsRunUpTo(counts, if Get(counts, today) > 0 then today else today - 1, s.streak)
  {
    hide IsBusiest, IsRunUpTo;
    NobodyIsBusiest();
    var total, activeDays := 0, 0;
    var busiest: Option<(Day, nat)> := None;
    for i := 0 to |cells|
      invariant total == Sum(cells[..i], Count) && activeDays == Sum(cells[..i], Active)
      invariant IsBusiest(cells[..i], busiest)
    {
      var c := cells[i];
      Last(cells, i);
      BusiestSoFar(cells, i, busiest);
      total := total + c.count;
      if c.count > 0 {
        activeDays := activeDays + 1;
      }
      if c.count > 0 && (busiest.None? || c.count >= busiest.value.1) {
        busiest := Some((c.date, c.count));
      }
    }
    assert cells[..|cells|] == cells;
    var streak := CountStreak(CellCounts(cells), today);
    s := Stats(total, activeDays, streak, busiest);
  }

  method CountStreak(counts: map<Day, nat>, today: Day) returns (streak: nat)
    ensures IsRunUpTo(counts, if Get(counts, today) > 0 then today else today - 1, streak)
  {
    var day := today;
    if Get(counts, day) == 0 {
      day := day - 1;
    }
    ghost var last := day;
    streak := 0;
    ghost var seen: set<Day> := {};
    while Get(counts, day) > 0
      invariant day == last - streak && forall d | day < d <= last :: Get(counts, d) > 0
      invariant seen <= counts.Keys && forall d | d in seen :: d > day
      decreases counts.Keys - seen
    {
      seen := seen + {day};
      streak := streak + 1;
      day := day - 1;
    }
  }

  lemma NobodyIsBusiest()
    ensures IsBusiest([], None)
  {
  }

  lemma BusiestSoFar(cells: seq<Cell>, i: nat, b: Option<(Day, nat)>)
    requires i < |cells| && IsBusiest(cells[..i], b)
    ensures var c := cells[i];
            IsBusiest(cells[..i + 1], if c.count > 0 && (b.None? || c.count >= b.value.1) then Some((c.date, c.count)) else b)
  {
    var c, before, after := cells[i], cells[..i], cells[..i + 1];
    assert after[i] == c && forall k | 0 <= k < i :: after[k] == before[k];
    if b.Some? {
      var j :| 0 <= j < i && before[j].date == b.value.0 && before[j].count == b.value.1
               && (forall k | 0 <= k < i :: before[k].count <= b.value.1) && (forall k | j < k < i :: before[k].count < b.value.1);
      assert after[j] == before[j];
    }
  }

  // ---------- conservation ----------

  function DateOf(b: Bucket): (d: Day) { b.date }

  predicate InWindow(today: Day, d: Day) {
    First(today) <= d <= today
  }

  /** What a bucket adds to the grid of this day. */
  function Shown(today: Day): (w: Bucket -> nat) {
    (b: Bucket) => if InWindow(today, b.date) then b.count else 0
  }

  /** The query groups by day. */
  predicate OnePerDay(buckets: seq<Bucket>) {
    forall i, j | 0 <= i < j < |buckets| :: buckets[i].date != buckets[j].date
  }

  lemma {:induction false} CountedDays(buckets: seq<Bucket>, d: Day)
    requires d in Counts(buckets)
    ensures exists i :: 0 <= i < |buckets| && buckets[i].date == d
  {
    var n := |buckets| - 1;
    if buckets[n].date != d {
      CountedDays(buckets[..n], d);
    }
  }

  lemma {:induction false} PartIsCount(buckets: seq<Bucket>, today: Day, d: Day)
    requires OnePerDay(buckets) && InWindow(today, d)
    ensures Part(buckets, DateOf, d, Shown(today)) == Get(Counts(buckets), d)
  {
    if buckets != [] {
      var n := |buckets| - 1;
      var front := buckets[..n];
      PartIsCount(front, today, d);
      if buckets[n].date == d && d in Counts(front) {
        CountedDays(front, d);
      }
    }
  }

  predicate IsGrid(cells: seq<Cell>, buckets: seq<Bucket>, today: Day) {
    && |cells| == 365 + Weekday(today)
    && forall i | 0 <= i < |cells| :: cells[i] == CellAt(buckets, today, i)
  }

  function Days(today: Day, n: nat): (days: seq<Day>) {
    seq(n, i => First(today) + i)
  }

  lemma {:induction false} GridSum(cells: seq<Cell>, buckets: seq<Bucket>, today: Day, n: nat)
    requires IsGrid(cells, buckets, today) && OnePerDay(buckets) && n <= |cells|
    ensures Sum(cells[..n], Count) == Parts(buckets, DateOf, Days(today, n), Shown(today))
  {
    if n > 0 {
      GridSum(cells, buckets, today, n - 1);
      Last(cells, n - 1);
      assert Days(today, n)[..n - 1] == Days(today, n - 1);
      GridShape(buckets, today, n - 1);
      PartIsCount(buckets, today, First(today) + n - 1);
    }
  }

  /** The grid shows every change of the window once: its total is that of the buckets dated from
      the window's first day to today. A bucket dated otherwise, as when client and server take
      different days for today, is the only one left out. */
  lemma TotalIsConserved(cells: seq<Cell>, buckets: seq<Bucket>, today: Day)
    requires IsGrid(cells, buckets, today) && OnePerDay(buckets)
    ensures Sum(cells, Count) == Sum(buckets, Shown(today))
  {
    var n := |cells|;
    assert cells[..n] == cells;
    GridSum(cells, buckets, today, n);
    forall i | 0 <= i < |buckets| && Shown(today)(buckets[i]) > 0 ensures DateOf(buckets[i]) in Days(today, n) {
      var d := buckets[i].date;
      assert Days(today, n)[d - First(today)] == d;
    }
    PartsMakeWhole(buckets, DateOf, Days(today, n), Shown(today));
  }

  /** So the streak is that of the buckets themselves, within the window. */
  lemma {:induction false} CellsCountBuckets(cells: seq<Cell>, buckets: seq<Bucket>, today: Day, n: nat, d: Day)
    requires IsGrid(cells, buckets, today) && n <= |cells|
    ensures Get(CellCounts(cells[..n]), d) == if First(today) <= d < First(today) + n then Get(Counts(buckets), d) else 0
  {
    if n > 0 {
      CellsCountBuckets(cells, buckets, today, n - 1, d);
      Last(cells, n - 1);
    }
  }

  // ---------- month labels ----------

  datatype Label = Label(col: nat, month: int)

  /** The labels, and the month of the last Sunday so far. */
  function Labels(cells: seq<Cell>): (r: (seq<Label>, int)) {
    if cells == [] then ([], -1)
    else
      var (labels, prevMonth) := Labels(cells[..|cells| - 1]);
      var c := cells[|cells| - 1];
      if c.row != 0 || MonthNumber(c.date) == prevMonth then (labels, prevMonth)
      else
        (Uncrowded(labels, c.col) + [Label(c.col, MonthNumber(c.date))], MonthNumber(c.date))
  }

  /** A last label too close to this column makes way. */
  function Uncrowded(labels: seq<Label>, col: nat): (r: seq<Label>) {
    if labels != [] && col - labels[|labels| - 1].col < 3 then labels[..|labels| - 1] else labels
  }

  method MonthLabels(cells: seq<Cell>) returns (labels: seq<Label>)
    ensures labels == Labels(cells).0
  {
    labels := [];
    var prevMonth := -1;
    for i := 0 to |cells|
      invariant (labels, prevMonth) == Labels(cells[..i])
    {
      var c := cells[i];
      Last(cells, i);
      if c.row != 0 {
        continue;
      }
      var month := MonthNumber(c.date);
      if month == prevMonth {
        continue;
      }
      prevMonth := month;
      if labels != [] && c.col - labels[|labels| - 1].col < 3 {
        labels := labels[..|labels| - 1];
      }
      labels := labels + [Label(c.col, month)];
    }
    assert cells[..|cells|] == cells;
  }

  /** The Sunday that heads a column. */
  function Sunday(today: Day, col: int): (d: Day) {
    First(today) + 7 * col
  }

  /** A month begins in the week before this Sunday, or on it. */
  predicate Turns(today: Day, col: nat) {
    col > 0 && MonthOf(Sunday(today, col - 1)) != MonthOf(Sunday(today, col))
  }

  predicate Spaced(labels: seq<Label>) {
    forall i | 0 <= i < |labels| - 1 :: labels[i + 1].col >= labels[i].col + 3
  }

  predicate LabelOk(today: Day, col: nat, l: Label, first: bool) {
    && l.col <= col && l.month == MonthNumber(Sunday(today, l.col))
    && (Turns(today, l.col) || (first && l.col == 0))
  }

  ghost predicate HasLabel(labels: seq<Label>, col: nat) {
    exists i :: 0 <= i < |labels| && labels[i].col == col
  }

  /** After the columns up to `col`: only the first label may be that of a month begun earlier. */
  ghost predicate LabelsOk(today: Day, col: nat, labels: seq<Label>) {
    && labels != [] && Spaced(labels)
    && (forall i | 0 <= i < |labels| :: LabelOk(today, col, labels[i], i == 0))
    && MonthOf(Sunday(today, labels[|labels| - 1].col)) == MonthOf(Sunday(today, col))
    && (forall j | 0 < j <= col && Turns(today, j) :: HasLabel(labels, j))
  }

  /** A label only ever makes way if it is the first, of the partial leading month. */
  lemma OnlyFirstMakesWay(today: Day, col: nat, labels: seq<Label>)
    requires LabelsOk(today, col, labels) && Turns(today, col + 1)
    ensures var last := labels[|labels| - 1];
            if col + 1 - last.col < 3 then |labels| == 1 && last.col == 0 else true
  {
    var last := labels[|labels| - 1].col;
    if Turns(today, last) && col + 1 - last <= 3 {
      assert Sunday(today, last) + 7 * (col + 1 - last) == Sunday(today, col + 1);
      FourSundays(Sunday(today, last), col + 1 - last);
    }
  }

  lemma AddLabel(today: Day, col: nat, labels: seq<Label>)
    requires LabelsOk(today, col, labels) && Turns(today, col + 1)
    ensures LabelsOk(today, col + 1, Uncrowded(labels, col + 1) + [Label(col + 1, MonthNumber(Sunday(today, col + 1)))])
  {
    hide Turns, MonthNumber, MonthOf, Sunday, LabelOk, HasLabel, Spaced, Uncrowded;
    var added := Label(col + 1, MonthNumber(Sunday(today, col + 1)));
    var all := Uncrowded(labels, col + 1) + [added];
    AddKeepsSpace(labels, added, today, col);
    forall i | 0 <= i < |all| ensures LabelOk(today, col + 1, all[i], i == 0) {
      AddedIsOk(today, col, labels, i);
    }
    forall j | 0 < j <= col + 1 && Turns(today, j) ensures HasLabel(all, j) {
      AddKeepsLabel(today, col, labels, added, j);
    }
  }

  lemma AddKeepsSpace(labels: seq<Label>, added: Label, today: Day, col: nat)
    requires LabelsOk(today, col, labels) && added.col == col + 1
    ensures Spaced(Uncrowded(labels, col + 1) + [added])
  {
    hide Turns, MonthNumber, MonthOf, Sunday, HasLabel;
    var kept, last := Uncrowded(labels, col + 1), labels[|labels| - 1];
    assert LabelOk(today, col, last, |labels| == 1);
    assert forall i | 0 <= i < |kept| :: kept[i] == labels[i];
  }

  lemma AddedIsOk(today: Day, col: nat, labels: seq<Label>, i: nat)
    requires LabelsOk(today, col, labels) && Turns(today, col + 1) && i <= |Uncrowded(labels, col + 1)|
    ensures var all := Uncrowded(labels, col + 1) + [Label(col + 1, MonthNumber(Sunday(today, col + 1)))];
            LabelOk(today, col + 1, all[i], i == 0)
  {
    hide Turns, MonthNumber, MonthOf, Sunday, HasLabel, Spaced;
    var kept := Uncrowded(labels, col + 1);
    if i < |kept| {
      assert kept[i] == labels[i] && LabelOk(today, col, labels[i], i == 0);
    }
  }

  lemma AddKeepsLabel(today: Day, col: nat, labels: seq<Label>, added: Label, j: nat)
    requires LabelsOk(today, col, labels) && Turns(today, col + 1) && added.col == col + 1 && 0 < j <= col + 1 && Turns(today, j)
    ensures HasLabel(Uncrowded(labels, col + 1) + [added], j)
  {
    OnlyFirstMakesWay(today, col, labels);
    hide Turns, MonthNumber, MonthOf, Sunday, LabelOk, Spaced;
    var kept := Uncrowded(labels, col + 1);
    var all := kept + [added];
    if j == col + 1 {
      assert all[|kept|].col == j;
    } else {
      assert HasLabel(labels, j);
      var i :| 0 <= i < |labels| && labels[i].col == j;
      assert all[i] == labels[i];
    }
  }

  lemma KeepLabels(today: Day, col: nat, labels: seq<Label>)
    requires LabelsOk(today, col, labels) && MonthOf(Sunday(today, col)) == MonthOf(Sunday(today, col + 1))
    ensures LabelsOk(today, col + 1, labels)
  {
    assert !Turns(today, col + 1);
    hide Turns, MonthNumber, MonthOf, Sunday;
  }

  lemma AfterSunday(today: Day, col: nat, labels: seq<Label>)
    requires LabelsOk(today, col, labels)
    ensures LabelsOk(today, col + 1,
                     if MonthNumber(Sunday(today, col + 1)) == MonthNumber(Sunday(today, col)) then labels
                     else Uncrowded(labels, col + 1) + [Label(col + 1, MonthNumber(Sunday(today, col + 1)))])
  {
    assert Sunday(today, col + 1) == Sunday(today, col) + 7;
    SameNumberSameMonth(Sunday(today, col));
    hide LabelsOk, MonthOf, MonthNumber, Uncrowded, Sunday;
    if MonthOf(Sunday(today, col)) == MonthOf(Sunday(today, col + 1)) {
      KeepLabels(today, col, labels);
    } else {
      NextMonthTurns(today, col);
      AddLabel(today, col, labels);
    }
  }

  lemma NextMonthTurns(today: Day, col: nat)
    requires MonthOf(Sunday(today, col)) != MonthOf(Sunday(today, col + 1))
    ensures Turns(today, col + 1)
  {
  }

  lemma FirstLabel(today: Day, c: Cell)
    requires c.row == 0 && c.col == 0 && c.date == Sunday(today, 0)
    ensures Labels([c]) == ([Label(0, MonthNumber(c.date))], MonthNumber(c.date))
    ensures LabelsOk(today, 0, [Label(0, MonthNumber(c.date))])
  {
    assert [c][..0] == [];
    assert Labels([]) == ([], -1);
    assert Uncrowded([], c.col) + [Label(c.col, MonthNumber(c.date))] == [Label(c.col, MonthNumber(c.date))];
  }

  lemma GridColumn(buckets: seq<Bucket>, today: Day, i: nat)
    ensures var c := CellAt(buckets, today, i); c.row == 0 ==> c.date == Sunday(today, c.col)
    ensures i > 0 ==> i / 7 == (i - 1) / 7 + if i % 7 == 0 then 1 else 0
  {
  }

  /** On the grid, any two adjacent labels are at least three columns apart, and every month that
      begins within it has its label at the first Sunday. */
  lemma {:induction false} LabelsAreSpaced(cells: seq<Cell>, buckets: seq<Bucket>, today: Day, n: nat)
    requires IsGrid(cells, buckets, today) && 0 < n <= |cells|
    ensures var (labels, prevMonth) := Labels(cells[..n]);
            LabelsOk(today, (n - 1) / 7, labels) && prevMonth == MonthNumber(Sunday(today, (n - 1) / 7))
  {
    hide LabelsOk, MonthNumber, Sunday, Uncrowded;
    var front, c := cells[..n - 1], cells[n - 1];
    Last(cells, n - 1);
    GridColumn(buckets, today, n - 1);
    if n == 1 {
      assert cells[..1] == [c];
      FirstLabel(today, c);
    } else {
      LabelsAreSpaced(cells, buckets, today, n - 1);
      var labels, col := Labels(front).0, (n - 2) / 7;
      if c.row == 0 {
        AfterSunday(today, col, labels);
      }
    }
  }
}
