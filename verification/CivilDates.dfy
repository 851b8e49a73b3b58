/**
 Days, buckets and period keys against the calendar counted from March, which needs neither
 the lengths of the months nor those of the years.
 */
module CivilDates {
  import opened Common
  import opened Calendar
  import opened Analytics
  import opened Numerals

  /**
   The day of a date, with months counted from 0 for January: the year begins with March, the
   first days of its months are 153 days in five months apart, and a leap day ends it.
   */
  function Civil(year: int, month: int, date: int): int {
    var mp := (month + 10) % 12;
    var y := if month < 2 then year - 1 else year;
    365 * y + y / 4 - y / 100 + y / 400 + (153 * mp + 2) / 5 + date - 1 - 719468
  }

  /** The first day of the month after. */
  function CivilNext(year: int, month: int): int {
    if month == 11 then Civil(year + 1, 0, 1) else Civil(year, month + 1, 1)
  }

  lemma FromMarch(y: int)
    ensures LeapDays(y + 1) == y / 4 - y / 100 + y / 400 - 477
  {
  }

  lemma MonthStartsFromMarch(leap: bool, m: int)
    requires 0 <= m <= 11
    ensures m == 0 ==> MonthStart(leap, m) == 0
    ensures m == 1 ==> MonthStart(leap, m) == 31
    ensures m >= 2 ==> MonthStart(leap, m) == 59 + (if leap then 1 else 0) + (153 * (m - 2) + 2) / 5
  {
    assert MonthStart(leap, 2) == 59 + if leap then 1 else 0;
    assert MonthStart(leap, 4) == MonthStart(leap, 2) + 61;
    assert MonthStart(leap, 6) == MonthStart(leap, 4) + 61;
    assert MonthStart(leap, 8) == MonthStart(leap, 6) + 62;
    assert MonthStart(leap, 10) == MonthStart(leap, 8) + 61;
  }

  /** The first two months belong to the year that began in the March before. */
  lemma FirstMonthsStart(y: int, m: int)
    requires 0 <= m <= 1
    ensures DayFromYear(y) + MonthStart(LeapYear(y), m) == Civil(y, m, 1)
  {
    DayFromYearClosedForm(y);
    FromMarch(y - 1);
    MonthStartsFromMarch(LeapYear(y), m);
  }

  lemma LaterMonthsStart(y: int, m: int)
    requires 2 <= m <= 11
    ensures DayFromYear(y) + MonthStart(LeapYear(y), m) == Civil(y, m, 1)
  {
    DayFromYearClosedForm(y + 1);
    YearLength(y);
    FromMarch(y);
    MonthStartsFromMarch(LeapYear(y), m);
    assert (m + 10) % 12 == m - 2;
  }

  /** The first day of every month is where the formula says. */
  lemma MonthsStart(y: int, m: int)
    requires 0 <= m <= 11
    ensures DayFromYear(y) + MonthStart(LeapYear(y), m) == Civil(y, m, 1)
  {
    if m < 2 {
      FirstMonthsStart(y, m);
    } else {
      LaterMonthsStart(y, m);
    }
  }

  lemma NextMonthStarts(y: int, m: int)
    requires 0 <= m <= 11
    ensures DayFromYear(y) + MonthStart(LeapYear(y), m + 1) == CivilNext(y, m)
  {
    if m == 11 {
      MonthsStart(y + 1, 0);
      YearLength(y);
      MonthsFillYear(LeapYear(y));
    } else {
      MonthsStart(y, m + 1);
    }
  }

  lemma CivilDays(y: int, m: int, date: int)
    ensures Civil(y, m, date) == Civil(y, m, 1) + date - 1
  {
  }

  /** Where the parts of a day come from. */
  lemma DayParts(d: int)
    ensures
      var y, m := YearFromDay(d), MonthFromDay(d);
      && DayFromYear(y) + MonthStart(LeapYear(y), m) == d - DateFromDay(d) + 1
      && d < DayFromYear(y) + MonthStart(LeapYear(y), m + 1)
  {
  }

  /** Taking a day apart gives the date whose day the formula says it is, within its month. */
  lemma DateExact(d: int)
    ensures
      var y, m, date := YearFromDay(d), MonthFromDay(d), DateFromDay(d);
      0 <= m <= 11 && 1 <= date && d == Civil(y, m, date) && Civil(y, m, 1) <= d < CivilNext(y, m)
  {
    var y, m := YearFromDay(d), MonthFromDay(d);
    DayParts(d);
    MonthsStart(y, m);
    NextMonthStarts(y, m);
    CivilDays(y, m, DateFromDay(d));
  }

  /** And no other date has that day: the formula's months do not overlap. */
  lemma {:induction false} CivilMonthsGrow(y: int, m: int, z: int, n: int)
    requires 0 <= m <= 11 && 0 <= n <= 11 && 12 * y + m <= 12 * z + n
    ensures Civil(y, m, 1) + 28 * (12 * (z - y) + n - m) <= Civil(z, n, 1)
    decreases 12 * (z - y) + n - m
  {
    if 12 * y + m < 12 * z + n {
      MonthLasts(y, m);
      if m == 11 {
        CivilMonthsGrow(y + 1, 0, z, n);
      } else {
        CivilMonthsGrow(y, m + 1, z, n);
      }
    }
  }

  lemma MonthLasts(y: int, m: int)
    requires 0 <= m <= 11
    ensures Civil(y, m, 1) + 28 <= CivilNext(y, m)
  {
    MonthsStart(y, m);
    NextMonthStarts(y, m);
    MonthStartsOrdered(LeapYear(y), m, m + 1);
  }

  lemma DateUnique(d: int, y: int, m: int, date: int)
    requires 0 <= m <= 11 && 1 <= date && d == Civil(y, m, date) && d < CivilNext(y, m)
    ensures YearFromDay(d) == y && MonthFromDay(d) == m && DateFromDay(d) == date
  {
    CivilDays(y, m, date);
    MonthsStart(y, m);
    NextMonthStarts(y, m);
    InMonth(d, y, m);
    DayParts(d);
  }

  // ----- buckets -----------------------------------------------------------

  /** Buckets start with the day, with a Monday, and with the first of a month: June 3, 2024 was a Monday. */
  function BucketDay(d: int, b: Bucket): int {
    match b
    case DayBucket => d
    case WeekBucket => d - (d - Civil(2024, 5, 3)) % 7
    case MonthBucket => Civil(YearFromDay(d), MonthFromDay(d), 1)
  }

  lemma MondayIs(d: int)
    ensures SinceMonday(d) == (d - Civil(2024, 5, 3)) % 7
  {
    assert Civil(2024, 5, 3) == 19877;
  }

  lemma BucketStartExact(d: int, b: Bucket)
    ensures FloorDay(d, b) == BucketDay(d, b)
  {
    match b {
      case DayBucket =>
      case WeekBucket => MondayIs(d);
      case MonthBucket => MonthStartExact(d);
    }
  }

  lemma MonthStartExact(d: int)
    ensures MonthFirst(d) == Civil(YearFromDay(d), MonthFromDay(d), 1)
  {
    DayParts(d);
    MonthsStart(YearFromDay(d), MonthFromDay(d));
  }

  // ----- period keys -------------------------------------------------------

  lemma {:induction false} PadReads(n: nat, w: nat)
    requires n < Pow10(w)
    ensures AllDigits(Pad(n, w)) && Value(Pad(n, w)) == n
    decreases w
  {
    if w > 0 {
      var s := Pad(n, w);
      PadReads(n / 10, w - 1);
      assert s[..w - 1] == Pad(n / 10, w - 1) && s[w - 1] == DigitChar(n % 10);
    }
  }

  /** Four digits of a year, two of a month counted from 1 and two of a date, with dashes between them. */
  predicate Reads(text: string, y: int, m: int, date: int) {
    && |text| == 10 && text[4] == '-' && text[7] == '-'
    && AllDigits(text[..4]) && Value(text[..4]) == y
    && AllDigits(text[5..7]) && Value(text[5..7]) == m + 1
    && AllDigits(text[8..]) && Value(text[8..]) == date
  }

  lemma PartsRead(y: int, m: int, date: int)
    requires 0 <= y <= 9999 && 0 <= m <= 11 && 1 <= date <= 31
    ensures Reads(Pad(y, 4) + "-" + Pad(m + 1, 2) + "-" + Pad(date, 2), y, m, date)
  {
    assert Pow10(2) == 100 && Pow10(4) == 10000;
    PadReads(y, 4);
    PadReads(m + 1, 2);
    PadReads(date, 2);
    Dashes(Pad(y, 4), Pad(m + 1, 2), Pad(date, 2));
    DateParts(Pad(y, 4), Pad(m + 1, 2), Pad(date, 2));
  }

  /** The period key of a day of a four-digit year is its date. */
  lemma KeyReads(d: int)
    requires FourDigitYear(d)
    ensures Reads(PeriodKey(d * MS_PER_DAY), YearFromDay(d), MonthFromDay(d), DateFromDay(d))
  {
    DateText(d);
    DatesShort(d);
    TextReads(PeriodKey(d * MS_PER_DAY), YearFromDay(d), MonthFromDay(d), DateFromDay(d));
  }

  lemma TextReads(text: string, y: int, m: int, date: int)
    requires 0 <= y <= 9999 && 0 <= m <= 11 && 1 <= date <= 31
    requires text == Pad(y, 4) + "-" + Pad(m + 1, 2) + "-" + Pad(date, 2)
    ensures Reads(text, y, m, date)
  {
    PartsRead(y, m, date);
  }

  lemma Dashes(year: string, month: string, date: string)
    requires |year| == 4 && |month| == 2 && |date| == 2
    ensures (year + "-" + month + "-" + date)[4] == '-' && (year + "-" + month + "-" + date)[7] == '-'
  {
  }

  /** The key reads as a date of its month, and that date's day is d. */
  ghost predicate KeyOfDay(key: string, d: int) {
    exists y, m, date :: Reads(key, y, m, date) && IsDate(d, y, m, date)
  }

  predicate IsDate(d: int, y: int, m: int, date: int) {
    0 <= m <= 11 && 1 <= date && d == Civil(y, m, date) && d < CivilNext(y, m)
  }

  lemma KeyOfStart(d: int)
    requires FourDigitYear(d)
    ensures KeyOfDay(PeriodKey(d * MS_PER_DAY), d)
  {
    KeyReads(d);
    DateExact(d);
    assert IsDate(d, YearFromDay(d), MonthFromDay(d), DateFromDay(d));
  }

  /**
   An instant of the years 100 to 9999 is put in the period whose key is the date of its day,
   of its Monday, or of the first of its month.
   */
  lemma PeriodExact(t: int, b: Bucket)
    requires 100 <= YearFromDay(FloorDay(t / 86_400_000, b)) && YearFromDay(t / 86_400_000) <= 9999
    ensures KeyOfDay(PeriodKey(TruncateUtc(t, b)), BucketDay(t / 86_400_000, b))
  {
    var d, first := Day(t), FloorDay(Day(t), b);
    FloorDayStarts(d, b);
    YearsFollowDays(first, d);
    TruncateRight(t, b);
    KeyOfStart(first);
    BucketStartExact(d, b);
  }
}
