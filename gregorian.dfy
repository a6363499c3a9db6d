/** Integer proleptic-Gregorian arithmetic standing in for the JavaScript
    `Date` object: month lengths, a day number for every date, the weekday
    of a date and the day-overflow rule of `new Date(year, month, day)`.
    Months are numbered 0..11, as `Date` numbers them. */
module Gregorian {

  datatype Date = Date(year: int, month: int, day: int)

  predicate IsLeap(y: int) {
    y % 4 == 0 && (y % 100 != 0 || y % 400 == 0)
  }

  function DaysInMonth(y: int, m: int): (n: int)
    requires 0 <= m < 12
    ensures 28 <= n <= 31
  {
    if m == 1 then (if IsLeap(y) then 29 else 28)
    else if m == 3 || m == 5 || m == 8 || m == 10 then 30
    else 31
  }

  predicate ValidDate(d: Date) {
    0 <= d.month < 12 && 1 <= d.day <= DaysInMonth(d.year, d.month)
  }

  /** Days from 1 January of year 1 to 1 January of year `y`. */
  function DaysBeforeYear(y: int): int {
    365 * (y - 1) + (y - 1) / 4 - (y - 1) / 100 + (y - 1) / 400
  }

  /** Days from 1 January of year `y` to the first of month `m`. */
  function DaysBeforeMonth(y: int, m: int): int
    requires 0 <= m < 12
  {
    var cumulative := [0, 31, 59, 90, 120, 151, 181, 212, 243, 273, 304, 334];
    cumulative[m] + (if m > 1 && IsLeap(y) then 1 else 0)
  }

  /** The number of days from 1 January of year 1 (a Monday) to `d`. */
  function DayNumber(d: Date): int
    requires ValidDate(d)
  {
    DaysBeforeYear(d.year) + DaysBeforeMonth(d.year, d.month) + d.day - 1
  }

  /** `Date.prototype.getDay`: 0 is Sunday, 6 is Saturday. */
  function WeekdayOf(d: Date): (w: int)
    requires ValidDate(d)
    ensures 0 <= w < 7
  {
    (DayNumber(d) + 1) % 7
  }

  /** The day count starts on 1 January of year 1, a Monday. */
  lemma FirstDayIsMonday()
    ensures DayNumber(Date(1, 0, 1)) == 0
    ensures WeekdayOf(Date(1, 0, 1)) == 1
  {
  }

  /** The month after month `m` of year `y`. */
  function MonthAfter(y: int, m: int): (r: (int, int))
    requires 0 <= m < 12
    ensures 0 <= r.1 < 12 && r.1 != m
    ensures 12 * r.0 + r.1 == 12 * y + m + 1
  {
    if m == 11 then (y + 1, 0) else (y, m + 1)
  }

  /** The month before month `m` of year `y`. */
  function MonthBefore(y: int, m: int): (r: (int, int))
    requires 0 <= m < 12
    ensures 0 <= r.1 < 12 && r.1 != m
    ensures 12 * r.0 + r.1 == 12 * y + m - 1
  {
    if m == 0 then (y - 1, 11) else (y, m - 1)
  }

  /** Stepping a year back moves its quotient by `k` exactly when it is a
      multiple of `k`. */
  lemma QuotientStep(y: int, k: int)
    requires k == 4 || k == 100 || k == 400
    ensures (y - 1) / k == if y % k == 0 then y / k - 1 else y / k
  {
    var q, r := y / k, y % k;
    assert y == k * q + r && 0 <= r < k;
    if r == 0 {
      assert y - 1 == k * (q - 1) + (k - 1);
    } else {
      assert y - 1 == k * q + (r - 1);
    }
  }

  /** A multiple of `k * j` is a multiple of `k`. */
  lemma MultipleOf(y: int, k: int, j: int)
    requires (k == 4 && j == 25) || (k == 100 && j == 4)
    requires y % (k * j) == 0
    ensures y % k == 0
  {
    var q := y / (k * j);
    assert y == (k * j) * q;
    assert y == k * (j * q);
  }

  /** February has 29 days exactly in leap years, every other month has 30
      or 31, and the twelve months add up to the length of the year. */
  lemma MonthLengths(y: int)
    ensures DaysInMonth(y, 1) == 29 <==> IsLeap(y)
    ensures forall m :: 0 <= m < 12 && m != 1 ==> 30 <= DaysInMonth(y, m)
    ensures DaysInMonth(y, 0) + DaysInMonth(y, 1) + DaysInMonth(y, 2) + DaysInMonth(y, 3)
      + DaysInMonth(y, 4) + DaysInMonth(y, 5) + DaysInMonth(y, 6) + DaysInMonth(y, 7)
      + DaysInMonth(y, 8) + DaysInMonth(y, 9) + DaysInMonth(y, 10) + DaysInMonth(y, 11)
      == DaysBeforeYear(y + 1) - DaysBeforeYear(y)
  {
    YearLength(y);
  }

  /** A year has 366 days exactly when it is a leap year. */
  lemma YearLength(y: int)
    ensures DaysBeforeYear(y + 1) - DaysBeforeYear(y) == if IsLeap(y) then 366 else 365
  {
    QuotientStep(y, 4);
    QuotientStep(y, 100);
    QuotientStep(y, 400);
    if y % 400 == 0 {
      MultipleOf(y, 100, 4);
    }
    if y % 100 == 0 {
      MultipleOf(y, 4, 25);
    }
  }

  /** The first of the next month is `DaysInMonth` days after the first of
      this one. */
  lemma NextMonthStart(y: int, m: int)
    requires 0 <= m < 12
    ensures var (ny, nm) := MonthAfter(y, m);
      DayNumber(Date(ny, nm, 1)) == DayNumber(Date(y, m, 1)) + DaysInMonth(y, m)
  {
    if m == 11 {
      YearLength(y);
    }
  }

  /** `new Date(y, m, d)` for a day that may run up to four weeks past
      either end of month `m`: the result rolls into the neighbouring month
      and stays `d - 1` days after the first of month `m`. */
  function ShiftDay(y: int, m: int, d: int): (r: Date)
    requires 0 <= m < 12 && -27 <= d <= DaysInMonth(y, m) + 28
    ensures ValidDate(r)
    ensures DayNumber(r) == DayNumber(Date(y, m, 1)) + d - 1
    ensures r.month == m <==> 1 <= d <= DaysInMonth(y, m)
  {
    if d < 1 then
      var (py, pm) := MonthBefore(y, m);
      NextMonthStart(py, pm);
      Date(py, pm, DaysInMonth(py, pm) + d)
    else if d <= DaysInMonth(y, m) then
      Date(y, m, d)
    else
      var (ny, nm) := MonthAfter(y, m);
      NextMonthStart(y, m);
      Date(ny, nm, d - DaysInMonth(y, m))
  }

  /** Day numbers step by one from each date to the next and are one-to-one:
      two valid dates with the same day number are the same date. */
  lemma DayNumberInjective(a: Date, b: Date)
    requires ValidDate(a) && ValidDate(b) && DayNumber(a) == DayNumber(b)
    ensures a == b
  {
    if a.year < b.year {
      DayNumberBelowYear(a, b.year);
    } else if b.year < a.year {
      DayNumberBelowYear(b, a.year);
    } else if a.month < b.month {
      DayNumberBelowMonth(a, b.month);
    } else if b.month < a.month {
      DayNumberBelowMonth(b, a.month);
    }
  }

  /** Every day of year `d.year` comes before 1 January of any later year. */
  lemma {:induction false} DayNumberBelowYear(d: Date, y: int)
    requires ValidDate(d) && d.year < y
    ensures DayNumber(d) < DaysBeforeYear(y)
    decreases y - d.year
  {
    YearLength(d.year);
    if d.year + 1 < y {
      DayNumberBelowYear(Date(d.year + 1, 0, 1), y);
    }
  }

  /** Every day of month `d.month` comes before the first of any later month
      of the same year. */
  lemma DayNumberBelowMonth(d: Date, m: int)
    requires ValidDate(d) && d.month < m < 12
    ensures DayNumber(d) < DayNumber(Date(d.year, m, 1))
  {
  }
}
