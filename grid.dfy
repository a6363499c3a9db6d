/** The month grid that the first effect of frontend/src/components/Calendar.jsx
    lays out: whole Sunday-first weeks covering one month, padded with
    days of the neighbouring months. */
module Grid {
  import opened Gregorian
  import opened Weekday

  /** One entry of `calendarDays`: `{ date, dayOfWeek, inMonth }`. */
  datatype Cell = Cell(date: Date, dayOfWeek: string, inMonth: bool)

  /** `startDow`: the weekday of the first of the month. */
  function FirstWeekday(y: int, m: int): int
    requires 0 <= m < 12
  {
    WeekdayOf(Date(y, m, 1))
  }

  /** `totalCells`, that is `Math.ceil((startDow + totalDays) / 7) * 7`: the
      least multiple of 7 that holds the leading days and the month. */
  function GridSize(y: int, m: int): (r: int)
    requires 0 <= m < 12
    ensures r % 7 == 0
    ensures FirstWeekday(y, m) + DaysInMonth(y, m) <= r <= FirstWeekday(y, m) + DaysInMonth(y, m) + 6
  {
    ((FirstWeekday(y, m) + DaysInMonth(y, m) + 6) / 7) * 7
  }

  /** Every month takes four, five or six weeks. */
  lemma GridShape(y: int, m: int)
    requires 0 <= m < 12
    ensures 28 <= GridSize(y, m) <= 42
  {
  }

  /** Cell `i`: the date `new Date(y, m, i + 1 - startDow)`, its weekday name,
      and whether it lies in month `m`. The date is a real one and the label
      is one of the seven weekday names. */
  function GridCell(y: int, m: int, i: int): (r: Cell)
    requires 0 <= m < 12 && 0 <= i < GridSize(y, m)
    ensures ValidDate(r.date) && r.dayOfWeek in Weekdays
  {
    var date := ShiftDay(y, m, i + 1 - FirstWeekday(y, m));
    Cell(date, Weekdays[WeekdayOf(date)], date.month == m)
  }

  /** The loop of the effect: pushes one cell per index. */
  method BuildMonth(y: int, m: int) returns (days: seq<Cell>)
    requires 0 <= m < 12
    ensures |days| == GridSize(y, m)
    ensures forall i :: 0 <= i < |days| ==> days[i] == GridCell(y, m, i)
  {
    var startDow := WeekdayOf(Date(y, m, 1));
    var totalDays := DaysInMonth(y, m);
    var totalCells := ((startDow + totalDays + 6) / 7) * 7;
    assert totalCells == GridSize(y, m);
    days := [];
    for i := 0 to totalCells
      invariant |days| == i
      invariant forall j :: 0 <= j < i ==> days[j] == GridCell(y, m, j)
    {
      var date := ShiftDay(y, m, i + 1 - startDow);
      days := days + [Cell(date, Weekdays[WeekdayOf(date)], date.month == m)];
    }
  }

  /** Cell `i` lies `i - startDow` days after the first of the month. */
  lemma GridCellOffset(y: int, m: int, i: int)
    requires 0 <= m < 12 && 0 <= i < GridSize(y, m)
    ensures ValidDate(GridCell(y, m, i).date)
    ensures DayNumber(GridCell(y, m, i).date) == DayNumber(Date(y, m, 1)) + i - FirstWeekday(y, m)
  {
  }

  /** Neighbouring cells are neighbouring days: the grid has no gap and no
      repeated date. */
  lemma GridDaysConsecutive(y: int, m: int, i: int)
    requires 0 <= m < 12 && 0 <= i && i + 1 < GridSize(y, m)
    ensures DayNumber(GridCell(y, m, i + 1).date) == DayNumber(GridCell(y, m, i).date) + 1
  {
    GridCellOffset(y, m, i);
    GridCellOffset(y, m, i + 1);
  }

  /** Moving `i - (a % 7)` days on from day `a - 1` lands on weekday `i % 7`. */
  lemma ShiftedWeekday(a: int, i: int)
    ensures (a - 1 + i - a % 7 + 1) % 7 == i % 7
  {
    assert a - a % 7 == 7 * (a / 7);
  }

  /** Every row starts on Sunday: cell `i` falls on `WEEKDAYS[i % 7]`, and
      its label is that weekday. */
  lemma GridCellWeekday(y: int, m: int, i: int)
    requires 0 <= m < 12 && 0 <= i < GridSize(y, m)
    ensures WeekdayOf(GridCell(y, m, i).date) == i % 7
    ensures GridCell(y, m, i).dayOfWeek == Weekdays[i % 7]
  {
    GridCellOffset(y, m, i);
    ShiftedWeekday(DayNumber(Date(y, m, 1)) + 1, i);
  }

  /** Exactly the cells `startDow .. startDow + totalDays - 1` are in the
      month, and they are its days 1, 2, ... in order. */
  lemma GridCellInMonth(y: int, m: int, i: int)
    requires 0 <= m < 12 && 0 <= i < GridSize(y, m)
    ensures GridCell(y, m, i).inMonth <==> FirstWeekday(y, m) <= i < FirstWeekday(y, m) + DaysInMonth(y, m)
    ensures GridCell(y, m, i).inMonth ==> GridCell(y, m, i).date == Date(y, m, i + 1 - FirstWeekday(y, m))
  {
  }

  /** Every day of the month has its cell. */
  lemma GridCoversMonth(y: int, m: int, d: int)
    requires 0 <= m < 12 && 1 <= d <= DaysInMonth(y, m)
    ensures 0 <= FirstWeekday(y, m) + d - 1 < GridSize(y, m)
    ensures GridCell(y, m, FirstWeekday(y, m) + d - 1).date == Date(y, m, d)
    ensures GridCell(y, m, FirstWeekday(y, m) + d - 1).inMonth
  {
    GridShape(y, m);
  }

  /** The cells before the month end the previous month, and the cells after
      it begin the next month. */
  lemma GridCellNeighbours(y: int, m: int, i: int)
    requires 0 <= m < 12 && 0 <= i < GridSize(y, m)
    ensures i < FirstWeekday(y, m) ==>
      var (py, pm) := MonthBefore(y, m);
      GridCell(y, m, i).date == Date(py, pm, DaysInMonth(py, pm) + i + 1 - FirstWeekday(y, m))
    ensures i >= FirstWeekday(y, m) + DaysInMonth(y, m) ==>
      var (ny, nm) := MonthAfter(y, m);
      GridCell(y, m, i).date == Date(ny, nm, i + 1 - FirstWeekday(y, m) - DaysInMonth(y, m))
  {
  }

  /** February 2025 has 28 days and starts on a Saturday: five weeks, from
      Sunday 26 January to Saturday 1 March. */
  lemma February2025()
    ensures FirstWeekday(2025, 1) == 6
    ensures GridSize(2025, 1) == 35
    ensures GridCell(2025, 1, 0) == Cell(Date(2025, 0, 26), "Sunday", false)
    ensures GridCell(2025, 1, 34) == Cell(Date(2025, 2, 1), "Saturday", false)
  {
    assert DayNumber(Date(2025, 1, 1)) == 739282;
  }
}
