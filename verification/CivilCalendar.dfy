/**
 The proleptic Gregorian calendar the scheduler reads its dates from.  Days are
 numbered from 0001-01-01, a Monday; the two directions between day numbers and
 dates are proved inverse, and both keep order.
 */
module CivilCalendar {

  datatype Date = Date(year: int, month: int, day: int)

  predicate Leap(y: int)
  {
    y % 4 == 0 && (y % 100 != 0 || y % 400 == 0)
  }

  function DaysIn(y: int, m: int): (n: int)
    ensures 28 <= n <= 31
  {
    if m == 2 then (if Leap(y) then 29 else 28)
    else if m in {4, 6, 9, 11} then 30
    else 31
  }

  predicate Valid(d: Date)
  {
    1 <= d.month <= 12 && 1 <= d.day <= DaysIn(d.year, d.month)
  }

  function YearLength(y: int): int
  {
    if Leap(y) then 366 else 365
  }

  function DaysBeforeYear(y: int): int
    decreases if y >= 1 then y - 1 else 1 - y
  {
    if y == 1 then 0
    else if y > 1 then DaysBeforeYear(y - 1) + YearLength(y - 1)
    else DaysBeforeYear(y + 1) - YearLength(y)
  }

  function DaysBeforeMonth(y: int, m: int): int
    requires 1 <= m <= 13
    decreases m
  {
    if m == 1 then 0 else DaysBeforeMonth(y, m - 1) + DaysIn(y, m - 1)
  }

  /** The number of the first day of a month; the 13th month is next year's first. */
  function MonthStart(y: int, m: int): int
    requires 1 <= m <= 13
  {
    DaysBeforeYear(y) + DaysBeforeMonth(y, m)
  }

  function DayNumber(d: Date): int
    requires 1 <= d.month <= 12
  {
    MonthStart(d.year, d.month) + d.day - 1
  }

  /** The rule of leap years in closed form. */
  lemma {:induction false} DaysBeforeYearClosed(y: int)
    ensures DaysBeforeYear(y) == 365 * (y - 1) + (y - 1) / 4 - (y - 1) / 100 + (y - 1) / 400
    decreases if y >= 1 then y - 1 else 1 - y
  {
    if y > 1 {
      DaysBeforeYearClosed(y - 1);
      LeapStep(y - 1);
    } else if y < 1 {
      DaysBeforeYearClosed(y + 1);
      LeapStep(y);
    }
  }

  lemma LeapStep(y: int)
    ensures var z := y - 1;
            365 * y + y / 4 - y / 100 + y / 400 == 365 * z + z / 4 - z / 100 + z / 400 + YearLength(y)
  {
    var z := y - 1;
    assert y / 4 == z / 4 + if y % 4 == 0 then 1 else 0;
    assert y / 100 == z / 100 + if y % 100 == 0 then 1 else 0;
    assert y / 400 == z / 400 + if y % 400 == 0 then 1 else 0;
  }

  lemma MonthsOfYear(y: int)
    ensures MonthStart(y, 13) == MonthStart(y + 1, 1)
  {
    var b := DaysBeforeMonth(y, 4);
    assert b == 90 + if Leap(y) then 1 else 0 by {
      assert DaysBeforeMonth(y, 2) == 31;
    }
    assert DaysBeforeMonth(y, 7) == b + 91 by {
      assert DaysBeforeMonth(y, 5) == b + 30;
    }
    assert DaysBeforeMonth(y, 10) == b + 183 by {
      assert DaysBeforeMonth(y, 8) == b + 122;
    }
    assert DaysBeforeMonth(y, 13) == b + 275 by {
      assert DaysBeforeMonth(y, 11) == b + 214;
    }
  }

  predicate MonthBefore(y1: int, m1: int, y2: int, m2: int)
  {
    y1 < y2 || (y1 == y2 && m1 < m2)
  }

  function NextMonth(y: int, m: int): (int, int)
  {
    if m == 12 then (y + 1, 1) else (y, m + 1)
  }

  function PreviousMonth(y: int, m: int): (int, int)
  {
    if m == 1 then (y - 1, 12) else (y, m - 1)
  }

  lemma NextMonthStart(y: int, m: int)
    requires 1 <= m <= 12
    ensures var n := NextMonth(y, m); MonthStart(n.0, n.1) == MonthStart(y, m) + DaysIn(y, m)
  {
    if m == 12 {
      MonthsOfYear(y);
    }
  }

  /** A month ends before every later month begins. */
  lemma {:induction false} MonthsAreOrdered(y1: int, m1: int, y2: int, m2: int)
    requires 1 <= m1 <= 12 && 1 <= m2 <= 12 && MonthBefore(y1, m1, y2, m2)
    ensures MonthStart(y1, m1) + DaysIn(y1, m1) <= MonthStart(y2, m2)
    decreases y2 - y1, if y1 == y2 then m2 - m1 else 13 - m1
  {
    var n := NextMonth(y1, m1);
    NextMonthStart(y1, m1);
    if n != (y2, m2) {
      MonthsAreOrdered(n.0, n.1, y2, m2);
    }
  }

  predicate Before(a: Date, b: Date)
  {
    MonthBefore(a.year, a.month, b.year, b.month)
    || (a.year == b.year && a.month == b.month && a.day < b.day)
  }

  lemma DayNumberKeepsOrder(a: Date, b: Date)
    requires Valid(a) && Valid(b)
    ensures Before(a, b) <==> DayNumber(a) < DayNumber(b)
    ensures a == b <==> DayNumber(a) == DayNumber(b)
  {
    if MonthBefore(a.year, a.month, b.year, b.month) {
      MonthsAreOrdered(a.year, a.month, b.year, b.month);
    } else if MonthBefore(b.year, b.month, a.year, a.month) {
      MonthsAreOrdered(b.year, b.month, a.year, a.month);
    }
  }

  function Tomorrow(d: Date): (r: Date)
    requires Valid(d)
    ensures Valid(r)
  {
    if d.day < DaysIn(d.year, d.month) then d.(day := d.day + 1)
    else var n := NextMonth(d.year, d.month); Date(n.0, n.1, 1)
  }

  function Yesterday(d: Date): (r: Date)
    requires Valid(d)
    ensures Valid(r)
  {
    if d.day > 1 then d.(day := d.day - 1)
    else var p := PreviousMonth(d.year, d.month); Date(p.0, p.1, DaysIn(p.0, p.1))
  }

  /** The date of a day number. */
  function DateOf(n: int): (d: Date)
    ensures Valid(d)
    decreases if n >= 0 then n else -n
  {
    if n == 0 then Date(1, 1, 1)
    else if n > 0 then Tomorrow(DateOf(n - 1))
    else Yesterday(DateOf(n + 1))
  }

  lemma TomorrowIsNext(d: Date)
    requires Valid(d)
    ensures DayNumber(Tomorrow(d)) == DayNumber(d) + 1
  {
    NextMonthStart(d.year, d.month);
  }

  lemma YesterdayIsPrevious(d: Date)
    requires Valid(d)
    ensures DayNumber(Yesterday(d)) == DayNumber(d) - 1
  {
    var p := PreviousMonth(d.year, d.month);
    NextMonthStart(p.0, p.1);
  }

  lemma {:induction false} DayNumberOfDateOf(n: int)
    ensures DayNumber(DateOf(n)) == n
    decreases if n >= 0 then n else -n
  {
    if n > 0 {
      DayNumberOfDateOf(n - 1);
      TomorrowIsNext(DateOf(n - 1));
    } else if n < 0 {
      DayNumberOfDateOf(n + 1);
      YesterdayIsPrevious(DateOf(n + 1));
    } else {
      assert DayNumber(Date(1, 1, 1)) == 0;
    }
  }

  lemma DateOfDayNumber(d: Date)
    requires Valid(d)
    ensures DateOf(DayNumber(d)) == d
  {
    DayNumberOfDateOf(DayNumber(d));
    DayNumberKeepsOrder(DateOf(DayNumber(d)), d);
  }

  /** Day numbers of a month are exactly the dates of that month. */
  lemma DateInMonth(n: int, y: int, m: int)
    requires 1 <= m <= 12
    ensures (DateOf(n).year == y && DateOf(n).month == m)
            <==> MonthStart(y, m) <= n < MonthStart(y, m) + DaysIn(y, m)
  {
    var d := DateOf(n);
    DayNumberOfDateOf(n);
    if MonthStart(y, m) <= n < MonthStart(y, m) + DaysIn(y, m) {
      DateOfDayNumber(Date(y, m, n - MonthStart(y, m) + 1));
    }
  }

  /** time.AddDate(0, -1, 0): the day of the month is kept and overflows forward. */
  function MonthEarlier(d: Date): Date
    requires Valid(d)
  {
    var p := PreviousMonth(d.year, d.month);
    DateOf(MonthStart(p.0, p.1) + d.day - 1)
  }

  /** It lands in the previous month unless that month is too short for the day, and
      then it lands back in the month it started from. */
  lemma MonthEarlierLands(d: Date)
    requires Valid(d)
    ensures var p, r := PreviousMonth(d.year, d.month), MonthEarlier(d);
            (r.year, r.month) == if d.day <= DaysIn(p.0, p.1) then p else (d.year, d.month)
  {
    var p := PreviousMonth(d.year, d.month);
    var start := MonthStart(p.0, p.1);
    var n := start + d.day - 1;
    if d.day <= DaysIn(p.0, p.1) {
      DateInMonth(n, p.0, p.1);
    } else {
      assert MonthStart(d.year, d.month) == start + DaysIn(p.0, p.1) by { NextMonthStart(p.0, p.1); }
      DateInMonth(n, d.year, d.month);
    }
  }

  /** time.Weekday, Sunday first. */
  function Weekday(n: int): int
  {
    (n + 1) % 7
  }

  // ---- The calendar on the wall ----

  /** Thirty days have April, June, September and November; February has 28 or, every fourth
      year but for three in four centuries, 29; all the rest have 31. */
  lemma MonthLengths(y: int, m: int)
    ensures m == 4 || m == 6 || m == 9 || m == 11 ==> DaysIn(y, m) == 30
    ensures m == 1 || m == 3 || m == 5 || m == 7 || m == 8 || m == 10 || m == 12 ==> DaysIn(y, m) == 31
    ensures m == 2 ==> DaysIn(y, m) == if y % 400 == 0 || (y % 4 == 0 && y % 100 != 0) then 29 else 28
  {
    FourthYear(y);
  }

  lemma FourthYear(y: int)
    ensures y % 400 == 0 ==> y % 4 == 0
  {
    assert y == 400 * (y / 400) + y % 400;
  }

  /** New Year's Day by year: 365 days for each year before, and one for each leap year. */
  lemma NewYear(y: int)
    ensures DayNumber(Date(y, 1, 1)) == 365 * (y - 1) + (y - 1) / 4 - (y - 1) / 100 + (y - 1) / 400
  {
    DaysBeforeYearClosed(y);
  }

  /** Day 0, 1 January of year 1, is a Monday, and weekdays follow each other. */
  lemma WeekdaysFollow(day: int)
    ensures Weekday(0) == 1
    ensures Weekday(day + 1) == if Weekday(day) == 6 then 0 else Weekday(day) + 1
  {
  }
}
