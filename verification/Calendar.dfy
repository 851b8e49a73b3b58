/**
 UTC calendar arithmetic on time values in milliseconds, after section 21.4.1 of
 ECMA-262: days, years, months, dates and MakeDay, and Date.UTC with its special
 treatment of two-digit years.
 */
module Calendar {

  const MS_PER_DAY := 86_400_000

  function Day(t: int): int {
    t / MS_PER_DAY
  }

  predicate LeapYear(y: int) {
    (y % 4 == 0 && y % 100 != 0) || y % 400 == 0
  }

  function DaysInYear(y: int): int {
    if LeapYear(y) then 366 else 365
  }

  /** The day number of January 1 of year y: the lengths of the years from 1970 on, added up. */
  function DayFromYear(y: int): int
    decreases if y < 1970 then 1970 - y else y - 1970
  {
    if y == 1970 then 0
    else if y > 1970 then DayFromYear(y - 1) + DaysInYear(y - 1)
    else DayFromYear(y + 1) - DaysInYear(y)
  }

  lemma YearLength(y: int)
    ensures DayFromYear(y + 1) == DayFromYear(y) + DaysInYear(y)
  {
  }

  /** The year of day d, searched for from a year at or before it. */
  function YearUp(d: int, y: int): (r: int)
    requires DayFromYear(y) <= d
    ensures DayFromYear(r) <= d < DayFromYear(r + 1)
    decreases d - DayFromYear(y)
  {
    YearLength(y);
    if d < DayFromYear(y + 1) then y else YearUp(d, y + 1)
  }

  function YearDown(d: int, y: int): (r: int)
    requires d < DayFromYear(y + 1)
    ensures DayFromYear(r) <= d < DayFromYear(r + 1)
    decreases DayFromYear(y + 1) - d
  {
    YearLength(y);
    if DayFromYear(y) <= d then y else YearDown(d, y - 1)
  }

  function YearFromDay(d: int): (r: int)
    ensures DayFromYear(r) <= d < DayFromYear(r + 1)
  {
    if DayFromYear(1970) <= d then YearUp(d, 1970) else YearDown(d, 1970)
  }

  lemma {:induction false} YearsOrdered(y: int, z: int)
    requires y <= z
    ensures DayFromYear(y) + 365 * (z - y) <= DayFromYear(z)
    decreases z - y
  {
    if y < z {
      YearLength(y);
      YearsOrdered(y + 1, z);
    }
  }

  /** A day lies in one year only. */
  lemma YearUnique(d: int, y: int)
    requires DayFromYear(y) <= d < DayFromYear(y + 1)
    ensures YearFromDay(d) == y
  {
    var r := YearFromDay(d);
    if r < y {
      YearsOrdered(r + 1, y);
    } else if y < r {
      YearsOrdered(y + 1, r);
    }
  }

  function DaysInMonth(leap: bool, m: int): int {
    if m == 1 then (if leap then 29 else 28)
    else if m == 3 || m == 5 || m == 8 || m == 10 then 30
    else 31
  }

  /** Days of the year before month m, for m from 0 to 12. */
  function MonthStart(leap: bool, m: int): int
    requires 0 <= m <= 12
    decreases m
  {
    if m == 0 then 0 else MonthStart(leap, m - 1) + DaysInMonth(leap, m - 1)
  }

  lemma MonthsFillYear(leap: bool)
    ensures MonthStart(leap, 12) == if leap then 366 else 365
  {
    assert MonthStart(leap, 3) == 59 + (if leap then 1 else 0) + 31;
    assert MonthStart(leap, 6) == MonthStart(leap, 3) + 91;
    assert MonthStart(leap, 9) == MonthStart(leap, 6) + 92;
  }

  function DayInYear(d: int): (r: int)
    ensures 0 <= r < MonthStart(LeapYear(YearFromDay(d)), 12)
  {
    YearLength(YearFromDay(d));
    MonthsFillYear(LeapYear(YearFromDay(d)));
    d - DayFromYear(YearFromDay(d))
  }

  /** The month whose days include day n of the year. */
  function MonthFrom(leap: bool, n: int, m: int): (r: int)
    requires 0 <= m <= 11 && MonthStart(leap, m) <= n < MonthStart(leap, 12)
    ensures m <= r <= 11 && MonthStart(leap, r) <= n < MonthStart(leap, r + 1)
    decreases 11 - m
  {
    if n < MonthStart(leap, m + 1) then m else MonthFrom(leap, n, m + 1)
  }

  function MonthFromDay(d: int): (m: int)
    ensures 0 <= m <= 11
    ensures MonthStart(LeapYear(YearFromDay(d)), m) <= DayInYear(d) < MonthStart(LeapYear(YearFromDay(d)), m + 1)
  {
    MonthFrom(LeapYear(YearFromDay(d)), DayInYear(d), 0)
  }

  /** The first day of the month of day d, and the first day after that month. */
  function MonthFirst(d: int): (f: int)
    ensures f <= d
  {
    DayFromYear(YearFromDay(d)) + MonthStart(LeapYear(YearFromDay(d)), MonthFromDay(d))
  }

  function MonthLimit(d: int): (l: int)
    ensures d < l
  {
    DayFromYear(YearFromDay(d)) + MonthStart(LeapYear(YearFromDay(d)), MonthFromDay(d) + 1)
  }

  function DateFromDay(d: int): (r: int)
    ensures 1 <= r
  {
    d - MonthFirst(d) + 1
  }

  function WeekDay(d: int): int {
    (d + 4) % 7
  }

  function MakeDay(year: int, month: int, date: int): int {
    var y := year + month / 12;
    DayFromYear(y) + MonthStart(LeapYear(y), month % 12) + date - 1
  }

  /** MakeFullYear: Date.UTC takes the years 0 to 99 for 1900 to 1999. */
  function FullYear(year: int): int {
    if 0 <= year <= 99 then 1900 + year else year
  }

  function DateUtc(year: int, month: int, date: int): int {
    MakeDay(FullYear(year), month, date) * MS_PER_DAY
  }

  lemma MakeDayInYear(y: int, m: int, date: int)
    requires 0 <= m <= 11
    ensures MakeDay(y, m, date) == DayFromYear(y) + MonthStart(LeapYear(y), m) + date - 1
  {
    assert m / 12 == 0 && m % 12 == m;
  }

  /** Taking a day apart and putting it together again gives the day. */
  lemma MakeDayRoundTrip(d: int, shift: int)
    ensures MakeDay(YearFromDay(d), MonthFromDay(d), DateFromDay(d) + shift) == d + shift
  {
    MakeDayInYear(YearFromDay(d), MonthFromDay(d), DateFromDay(d) + shift);
  }

  lemma {:induction false} MonthStartsOrdered(leap: bool, a: int, b: int)
    requires 0 <= a < b <= 12
    ensures MonthStart(leap, a) + 28 <= MonthStart(leap, b)
    decreases b - a
  {
    if a + 1 < b {
      MonthStartsOrdered(leap, a, b - 1);
    }
  }

  /** A day of year y within month m has that month. */
  lemma MonthUnique(d: int, y: int, m: int)
    requires 0 <= m <= 11 && YearFromDay(d) == y
    requires DayFromYear(y) + MonthStart(LeapYear(y), m) <= d < DayFromYear(y) + MonthStart(LeapYear(y), m + 1)
    ensures MonthFromDay(d) == m
  {
    MonthsApart(LeapYear(y), MonthFromDay(d), m, d - DayFromYear(y));
  }

  lemma MonthsApart(leap: bool, r: int, m: int, x: int)
    requires 0 <= r <= 11 && 0 <= m <= 11
    requires MonthStart(leap, r) <= x < MonthStart(leap, r + 1) && MonthStart(leap, m) <= x < MonthStart(leap, m + 1)
    ensures r == m
  {
    if r + 1 < m {
      MonthStartsOrdered(leap, r + 1, m);
    } else if m + 1 < r {
      MonthStartsOrdered(leap, m + 1, r);
    }
  }

  lemma InMonth(d: int, y: int, m: int)
    requires 0 <= m <= 11
    requires DayFromYear(y) + MonthStart(LeapYear(y), m) <= d < DayFromYear(y) + MonthStart(LeapYear(y), m + 1)
    ensures YearFromDay(d) == y && MonthFromDay(d) == m
  {
    var leap := LeapYear(y);
    YearLength(y);
    MonthsFillYear(leap);
    if m < 11 {
      MonthStartsOrdered(leap, m + 1, 12);
    }
    if m > 0 {
      MonthStartsOrdered(leap, 0, m);
    }
    YearUnique(d, y);
    MonthUnique(d, y, m);
  }

  /** The days of one month agree on where it starts and ends. */
  lemma SameMonth(d: int, e: int)
    requires MonthFirst(d) <= e < MonthLimit(d)
    ensures YearFromDay(e) == YearFromDay(d) && MonthFromDay(e) == MonthFromDay(d)
    ensures MonthFirst(e) == MonthFirst(d) && MonthLimit(e) == MonthLimit(d)
  {
    InMonth(e, YearFromDay(d), MonthFromDay(d));
  }

  lemma FirstDay(d: int, y: int, m: int)
    requires 0 <= m <= 11 && d == DayFromYear(y) + MonthStart(LeapYear(y), m)
    ensures YearFromDay(d) == y && MonthFromDay(d) == m && MonthFirst(d) == d
  {
    MonthStartsOrdered(LeapYear(y), m, m + 1);
    InMonth(d, y, m);
  }

  /** The month after the month of day d starts where that month ends, over the end of the year too. */
  lemma NextMonth(d: int)
    ensures MakeDay(YearFromDay(d), MonthFromDay(d) + 1, 1) == MonthLimit(d)
    ensures MonthFirst(MonthLimit(d)) == MonthLimit(d)
  {
    var y, m := YearFromDay(d), MonthFromDay(d);
    if m == 11 {
      DecemberEnds(y);
      FirstDay(MonthLimit(d), y + 1, 0);
    } else {
      MakeDayInYear(y, m + 1, 1);
      FirstDay(MonthLimit(d), y, m + 1);
    }
  }

  lemma DecemberEnds(y: int)
    ensures MakeDay(y, 12, 1) == DayFromYear(y + 1) == DayFromYear(y) + MonthStart(LeapYear(y), 12)
  {
    assert 12 / 12 == 1 && 12 % 12 == 0;
    YearLength(y);
    MonthsFillYear(LeapYear(y));
  }

  // ----- the closed form of section 21.4.1.3 -------------------------------

  function LeapDays(y: int): int {
    (y - 1969) / 4 - (y - 1901) / 100 + (y - 1601) / 400
  }

  lemma Quarter(y: int)
    ensures (y - 1968) / 4 == (y - 1969) / 4 + if y % 4 == 0 then 1 else 0
  {
  }

  lemma Hundredth(y: int)
    ensures (y - 1900) / 100 == (y - 1901) / 100 + if y % 100 == 0 then 1 else 0
  {
  }

  lemma FourHundredth(y: int)
    ensures (y - 1600) / 400 == (y - 1601) / 400 + if y % 400 == 0 then 1 else 0
  {
  }

  lemma CenturiesAreFourths(y: int)
    ensures y % 100 == 0 ==> y % 4 == 0
    ensures y % 400 == 0 ==> y % 100 == 0
  {
  }

  lemma LeapDaysStep(y: int)
    ensures LeapDays(y + 1) == LeapDays(y) + if LeapYear(y) then 1 else 0
  {
    Quarter(y);
    Hundredth(y);
    FourHundredth(y);
    CenturiesAreFourths(y);
  }

  /** Adding up year lengths gives 365 days a year and one for every leap year passed. */
  lemma {:induction false} DayFromYearClosedForm(y: int)
    ensures DayFromYear(y) == 365 * (y - 1970) + LeapDays(y)
    decreases if y < 1970 then 1970 - y else y - 1970
  {
    if y > 1970 {
      DayFromYearClosedForm(y - 1);
      LeapDaysStep(y - 1);
    } else if y < 1970 {
      DayFromYearClosedForm(y + 1);
      LeapDaysStep(y);
    }
  }
}
