/**
 Bucketed invoice series: UTC day, Monday week and month buckets, the list of
 buckets of a range, and the counts and volumes per bucket. Times are time values
 in milliseconds.
 */
module Analytics {
  import opened Common
  import opened Calendar
  import opened Numerals

  datatype Bucket = DayBucket | WeekBucket | MonthBucket

  const MAX_BUCKETS := 1000

  // ----- what the code does ------------------------------------------------

  function SinceMonday(d: int): (r: int)
    ensures 0 <= r <= 6
  {
    (WeekDay(d) + 6) % 7
  }

  function TruncateUtc(t: int, b: Bucket): int {
    var y := YearFromDay(Day(t));
    var m := MonthFromDay(Day(t));
    var d := DateFromDay(Day(t));
    match b
    case MonthBucket => DateUtc(y, m, 1)
    case WeekBucket => DateUtc(y, m, d - SinceMonday(Day(t)))
    case DayBucket => DateUtc(y, m, d)
  }

  function NextBucket(t: int, b: Bucket): int {
    NextFrom(YearFromDay(Day(t)), MonthFromDay(Day(t)), DateFromDay(Day(t)), b)
  }

  function NextFrom(y: int, m: int, d: int, b: Bucket): int {
    match b
    case MonthBucket => DateUtc(y, m + 1, 1)
    case WeekBucket => DateUtc(y, m, d + 7)
    case DayBucket => DateUtc(y, m, d + 1)
  }

  // ----- what a bucket is, in days -----------------------------------------

  /** Day d starts a bucket: any day, a Monday, or the first of a month. */
  predicate StartDay(d: int, b: Bucket) {
    match b
    case DayBucket => true
    case WeekBucket => WeekDay(d) == 1
    case MonthBucket => DateFromDay(d) == 1
  }

  /** The start of the bucket day d is in. */
  function FloorDay(d: int, b: Bucket): int {
    match b
    case DayBucket => d
    case WeekBucket => d - SinceMonday(d)
    case MonthBucket => MonthFirst(d)
  }

  /** The start of the bucket after the one that starts on day d. */
  function CeilDay(d: int, b: Bucket): int {
    match b
    case DayBucket => d + 1
    case WeekBucket => d + 7
    case MonthBucket => MonthLimit(d)
  }

  lemma FloorDayStarts(d: int, b: Bucket)
    ensures StartDay(FloorDay(d, b), b) && FloorDay(d, b) <= d
  {
    if b.MonthBucket? {
      SameMonth(d, MonthFirst(d));
    }
  }

  /** No bucket starts between the start of a day's bucket and the day. */
  lemma FloorDayGreatest(d: int, b: Bucket, e: int)
    requires StartDay(e, b) && e <= d
    ensures e <= FloorDay(d, b)
  {
    match b {
      case DayBucket =>
      case WeekBucket =>
      case MonthBucket =>
        if MonthFirst(d) < e {
          SameMonth(d, e);
        }
    }
  }

  lemma CeilDayStarts(d: int, b: Bucket)
    requires StartDay(d, b)
    ensures StartDay(CeilDay(d, b), b) && d < CeilDay(d, b)
  {
    if b.MonthBucket? {
      NextMonth(d);
    }
  }

  /** No bucket starts between a bucket start and the next one. */
  lemma CeilDayLeast(d: int, b: Bucket, e: int)
    requires StartDay(d, b) && StartDay(e, b) && d < e
    ensures CeilDay(d, b) <= e
  {
    match b {
      case DayBucket =>
      case WeekBucket =>
      case MonthBucket =>
        if e < MonthLimit(d) {
          SameMonth(d, e);
        }
    }
  }

  lemma YearsFollowDays(d: int, e: int)
    requires d <= e
    ensures YearFromDay(d) <= YearFromDay(e)
  {
    if YearFromDay(e) < YearFromDay(d) {
      YearsOrdered(YearFromDay(e) + 1, YearFromDay(d));
    }
  }

  // ----- what the code computes --------------------------------------------

  predicate TwoDigitYear(d: int) {
    0 <= YearFromDay(d) <= 99
  }

  /** The date of the month that truncation goes to. */
  function TruncateDate(date: int, sinceMonday: int, b: Bucket): int {
    match b
    case MonthBucket => 1
    case WeekBucket => date - sinceMonday
    case DayBucket => date
  }

  function TruncateDay(d: int, b: Bucket): int {
    MakeDay(FullYear(YearFromDay(d)), MonthFromDay(d), TruncateDate(DateFromDay(d), SinceMonday(d), b))
  }

  lemma TruncateInDays(t: int, b: Bucket)
    ensures TruncateUtc(t, b) == TruncateDay(Day(t), b) * MS_PER_DAY
  {
  }

  lemma DateOfDay(d: int, date: int)
    requires !TwoDigitYear(d)
    ensures MakeDay(FullYear(YearFromDay(d)), MonthFromDay(d), date) == d - DateFromDay(d) + date
  {
    MakeDayInYear(YearFromDay(d), MonthFromDay(d), date);
  }

  lemma TruncateDayRight(d: int, b: Bucket)
    requires !TwoDigitYear(d)
    ensures TruncateDay(d, b) == FloorDay(d, b)
  {
    var date := TruncateDate(DateFromDay(d), SinceMonday(d), b);
    DateOfDay(d, date);
    assert FloorDay(d, b) == d - DateFromDay(d) + date;
  }

  lemma TruncateRight(t: int, b: Bucket)
    requires !TwoDigitYear(Day(t))
    ensures TruncateUtc(t, b) == FloorDay(Day(t), b) * MS_PER_DAY
  {
    TruncateInDays(t, b);
    TruncateDayRight(Day(t), b);
  }

  lemma TruncateWrong(t: int, b: Bucket)
    requires TwoDigitYear(Day(t))
    ensures TruncateUtc(t, b) > t
  {
    TruncateInDays(t, b);
    TruncateLate(Day(t), b);
    LaterDay(t, TruncateDay(Day(t), b));
  }

  lemma LaterDay(t: int, e: int)
    requires Day(t) < e
    ensures t < e * MS_PER_DAY
  {
  }

  /** Truncation is right exactly for the years that Date.UTC does not take for 1900 to 1999. */
  lemma TruncateExact(t: int, b: Bucket)
    ensures TruncateUtc(t, b) == FloorDay(Day(t), b) * MS_PER_DAY <==> !TwoDigitYear(Day(t))
    ensures TwoDigitYear(Day(t)) ==> TruncateUtc(t, b) > t
  {
    if TwoDigitYear(Day(t)) {
      TruncateWrong(t, b);
      FloorDayStarts(Day(t), b);
      StartOf(t);
    } else {
      TruncateRight(t, b);
    }
  }

  lemma StartOf(t: int)
    ensures Day(t) * MS_PER_DAY <= t < (Day(t) + 1) * MS_PER_DAY
  {
  }

  /** 1900 years on, even the start of the bucket lies after the day. */
  lemma TruncateLate(d: int, b: Bucket)
    requires TwoDigitYear(d)
    ensures TruncateDay(d, b) > d
  {
    var date := TruncateDate(DateFromDay(d), SinceMonday(d), b);
    TruncateDateBound(DateFromDay(d), SinceMonday(d), b);
    MuchLater(d, YearFromDay(d), MonthFromDay(d), date);
  }

  lemma TruncateDateBound(date: int, sinceMonday: int, b: Bucket)
    requires date >= 1 && sinceMonday <= 6
    ensures TruncateDate(date, sinceMonday, b) >= -5
  {
  }

  lemma MuchLater(d: int, y: int, m: int, date: int)
    requires 0 <= y <= 99 && d < DayFromYear(y + 1) && 0 <= m <= 11 && date >= -5
    ensures MakeDay(FullYear(y), m, date) > d
  {
    YearsOrdered(y + 1, y + 1900);
    MakeDayInYear(y + 1900, m, date);
    if m > 0 {
      MonthStartsOrdered(LeapYear(y + 1900), 0, m);
    }
  }

  /** The day that stepping on goes to. */
  function NextDay(d: int, b: Bucket): int {
    MakeDay(FullYear(YearFromDay(d)), NextMonthOf(MonthFromDay(d), b), NextDate(DateFromDay(d), b))
  }

  function NextMonthOf(m: int, b: Bucket): int {
    if b.MonthBucket? then m + 1 else m
  }

  function NextDate(date: int, b: Bucket): int {
    match b
    case MonthBucket => 1
    case WeekBucket => date + 7
    case DayBucket => date + 1
  }

  lemma NextFromInDays(y: int, m: int, date: int, b: Bucket)
    ensures NextFrom(y, m, date, b) == MakeDay(FullYear(y), NextMonthOf(m, b), NextDate(date, b)) * MS_PER_DAY
  {
  }

  lemma NextInDays(d: int, b: Bucket)
    ensures NextBucket(d * MS_PER_DAY, b) == NextDay(d, b) * MS_PER_DAY
  {
    assert Day(d * MS_PER_DAY) == d;
    NextFromInDays(YearFromDay(d), MonthFromDay(d), DateFromDay(d), b);
  }

  /** From a bucket start of another year, the code goes to the next bucket start. */
  lemma NextBucketExact(d: int, b: Bucket)
    requires StartDay(d, b) && !TwoDigitYear(d)
    ensures NextBucket(d * MS_PER_DAY, b) == CeilDay(d, b) * MS_PER_DAY
  {
    NextInDays(d, b);
    NextDayRight(d, b);
  }

  lemma NextDayRight(d: int, b: Bucket)
    requires !TwoDigitYear(d)
    ensures NextDay(d, b) == CeilDay(d, b)
  {
    if b.MonthBucket? {
      NextMonthRight(d);
    } else {
      NextDateRight(d, b);
    }
  }

  lemma NextDateRight(d: int, b: Bucket)
    requires !TwoDigitYear(d) && !b.MonthBucket?
    ensures NextDay(d, b) == CeilDay(d, b)
  {
    DateOfDay(d, NextDate(DateFromDay(d), b));
  }

  lemma NextMonthRight(d: int)
    requires !TwoDigitYear(d)
    ensures NextDay(d, MonthBucket) == CeilDay(d, MonthBucket)
  {
    NextMonth(d);
  }

  // ----- the periods of a range --------------------------------------------

  /** The last w decimal digits of n. */
  function Pad(n: nat, w: nat): (r: string)
    ensures |r| == w
  {
    if w == 0 then "" else Pad(n / 10, w - 1) + [DigitChar(n % 10)]
  }

  /** The date part of toISOString; years outside 0 to 9999 have a sign and six digits. */
  function IsoDate(d: int): (r: string)
    ensures |r| >= 10
  {
    var y := YearFromDay(d);
    var year := if 0 <= y <= 9999 then Pad(y, 4) else if y < 0 then "-" + Pad(-y, 6) else "+" + Pad(y, 6);
    year + "-" + Pad(MonthFromDay(d) + 1, 2) + "-" + Pad(DateFromDay(d), 2)
  }

  function PeriodKey(t: int): string {
    IsoDate(Day(t))[..10]
  }

  predicate FourDigitYear(d: int) {
    0 <= YearFromDay(d) <= 9999
  }

  lemma {:induction false} PadInjective(a: nat, b: nat, w: nat)
    requires a < Pow10(w) && b < Pow10(w) && Pad(a, w) == Pad(b, w)
    ensures a == b
    decreases w
  {
    if w > 0 {
      var x, y := Pad(a, w), Pad(b, w);
      assert x[..w - 1] == Pad(a / 10, w - 1) && y[..w - 1] == Pad(b / 10, w - 1);
      assert x[w - 1] == DigitChar(a % 10) && y[w - 1] == DigitChar(b % 10);
      PadInjective(a / 10, b / 10, w - 1);
    }
  }

  lemma DateParts(year: string, month: string, date: string)
    requires |year| == 4 && |month| == 2 && |date| == 2
    ensures
      var text := year + "-" + month + "-" + date;
      |text| == 10 && text[..4] == year && text[5..7] == month && text[8..] == date
  {
  }

  lemma DateText(d: int)
    requires FourDigitYear(d)
    ensures |IsoDate(d)| == 10 && PeriodKey(d * MS_PER_DAY) == IsoDate(d)
    ensures IsoDate(d)[..4] == Pad(YearFromDay(d), 4)
    ensures IsoDate(d)[5..7] == Pad(MonthFromDay(d) + 1, 2)
    ensures IsoDate(d)[8..] == Pad(DateFromDay(d), 2)
  {
    assert Day(d * MS_PER_DAY) == d;
    DateParts(Pad(YearFromDay(d), 4), Pad(MonthFromDay(d) + 1, 2), Pad(DateFromDay(d), 2));
  }

  /** Within four-digit years, a period key names one day. */
  lemma PeriodKeyInjective(d: int, e: int)
    requires FourDigitYear(d) && FourDigitYear(e) && PeriodKey(d * MS_PER_DAY) == PeriodKey(e * MS_PER_DAY)
    ensures d == e
  {
    DateText(d);
    DateText(e);
    SameFields(d, e);
    SameDay(d, e);
  }

  lemma SameFields(d: int, e: int)
    requires FourDigitYear(d) && FourDigitYear(e)
    requires Pad(YearFromDay(d), 4) == Pad(YearFromDay(e), 4)
    requires Pad(MonthFromDay(d) + 1, 2) == Pad(MonthFromDay(e) + 1, 2)
    requires Pad(DateFromDay(d), 2) == Pad(DateFromDay(e), 2)
    ensures YearFromDay(d) == YearFromDay(e) && MonthFromDay(d) == MonthFromDay(e) && DateFromDay(d) == DateFromDay(e)
  {
    DatesShort(d);
    DatesShort(e);
    FourDigits(YearFromDay(d), YearFromDay(e));
    TwoDigits(MonthFromDay(d) + 1, MonthFromDay(e) + 1);
    TwoDigits(DateFromDay(d), DateFromDay(e));
  }

  lemma FourDigits(a: int, b: int)
    requires 0 <= a <= 9999 && 0 <= b <= 9999 && Pad(a, 4) == Pad(b, 4)
    ensures a == b
  {
    assert Pow10(4) == 10000;
    PadInjective(a, b, 4);
  }

  lemma TwoDigits(a: int, b: int)
    requires 0 <= a <= 99 && 0 <= b <= 99 && Pad(a, 2) == Pad(b, 2)
    ensures a == b
  {
    assert Pow10(2) == 100;
    PadInjective(a, b, 2);
  }

  lemma SameDay(d: int, e: int)
    requires YearFromDay(d) == YearFromDay(e) && MonthFromDay(d) == MonthFromDay(e) && DateFromDay(d) == DateFromDay(e)
    ensures d == e
  {
    MakeDayRoundTrip(d, 0);
    MakeDayRoundTrip(e, 0);
  }

  lemma DatesShort(d: int)
    ensures DateFromDay(d) <= 31
  {
    assert MonthLimit(d) == MonthFirst(d) + DaysInMonth(LeapYear(YearFromDay(d)), MonthFromDay(d));
  }

  /** The loop of listPeriods from `cur` on, which gives up after n periods. */
  function Walk(next: int -> int, key: int -> string, cur: int, end: int, n: nat): seq<string>
    decreases n
  {
    if n == 0 || cur > end then [] else [key(cur)] + Walk(next, key, next(cur), end, n - 1)
  }

  method WalkPeriods(next: int -> int, key: int -> string, first: int, end: int, limit: nat)
    returns (periods: seq<string>)
    ensures periods == Walk(next, key, first, end, limit + 1) && |periods| <= limit + 1
  {
    periods := [];
    var cur := first;
    ghost var left := limit + 1;
    ghost var all := Walk(next, key, first, end, left);
    while cur <= end
      invariant |periods| + left == limit + 1 && left > 0
      invariant all == periods + Walk(next, key, cur, end, left)
      decreases left
    {
      WalkStep(next, key, cur, end, left, periods);
      periods := periods + [key(cur)];
      left := left - 1;
      if |periods| > limit {
        break;
      }
      cur := next(cur);
    }
  }

  lemma WalkStep(next: int -> int, key: int -> string, cur: int, end: int, n: nat, before: seq<string>)
    requires n > 0 && cur <= end
    ensures before + Walk(next, key, cur, end, n) == before + [key(cur)] + Walk(next, key, next(cur), end, n - 1)
    ensures n == 1 ==> before + Walk(next, key, cur, end, n) == before + [key(cur)]
  {
  }

  function NextIn(b: Bucket): int -> int {
    (t: int) => NextBucket(t, b)
  }

  function Periods(start: int, end: int, b: Bucket): seq<string> {
    Walk(NextIn(b), PeriodKey, TruncateUtc(start, b), end, MAX_BUCKETS + 1)
  }

  method ListPeriods(start: int, end: int, b: Bucket) returns (periods: seq<string>)
    ensures periods == Periods(start, end, b) && |periods| <= 1001
  {
    periods := WalkPeriods(NextIn(b), PeriodKey, TruncateUtc(start, b), end, MAX_BUCKETS);
  }

  /** The bucket starts from day d to day `last`, at most n of them. */
  function Starts(d: int, last: int, b: Bucket, n: nat): seq<int>
    decreases n
  {
    if n == 0 || d > last then [] else [d] + Starts(CeilDay(d, b), last, b, n - 1)
  }

  function Keys(key: int -> string, days: seq<int>): (keys: seq<string>)
    ensures |keys| == |days|
  {
    seq(|days|, i requires 0 <= i < |days| => key(days[i] * MS_PER_DAY))
  }

  lemma KeysCons(key: int -> string, d: int, days: seq<int>)
    ensures Keys(key, [d] + days) == [key(d * MS_PER_DAY)] + Keys(key, days)
  {
  }

  /** A bucket start that the code steps on from rightly. */
  predicate Steady(d: int, b: Bucket) {
    StartDay(d, b) && YearFromDay(d) >= 100
  }

  lemma SteadyStep(d: int, b: Bucket)
    requires Steady(d, b)
    ensures NextIn(b)(d * MS_PER_DAY) == CeilDay(d, b) * MS_PER_DAY && Steady(CeilDay(d, b), b)
  {
    NextBucketExact(d, b);
    CeilDayStarts(d, b);
    YearsFollowDays(d, CeilDay(d, b));
  }

  /** On the days in `good`, `next` steps to the next bucket start, which is in `good` again. */
  ghost predicate Follows(next: int -> int, good: int -> bool, b: Bucket) {
    forall x {:trigger good(CeilDay(x, b))} ::
      good(x) ==> next(x * MS_PER_DAY) == CeilDay(x, b) * MS_PER_DAY && good(CeilDay(x, b))
  }

  lemma FollowsAt(next: int -> int, good: int -> bool, b: Bucket, d: int)
    requires good(d) && Follows(next, good, b)
    ensures next(d * MS_PER_DAY) == CeilDay(d, b) * MS_PER_DAY && good(CeilDay(d, b))
  {
  }

  /** The loop lists the keys of the bucket starts. */
  lemma {:induction false} WalkListsStarts(
      next: int -> int, key: int -> string, good: int -> bool, d: int, end: int, b: Bucket, n: nat)
    requires good(d) && Follows(next, good, b)
    ensures Walk(next, key, d * MS_PER_DAY, end, n) == Keys(key, Starts(d, Day(end), b, n))
    decreases n
  {
    WalkUnfold(next, key, d, end, b, n);
    if n > 0 && d <= Day(end) {
      var c := CeilDay(d, b);
      FollowsAt(next, good, b, d);
      WalkListsStarts(next, key, good, c, end, b, n - 1);
      KeysCons(key, d, Starts(c, Day(end), b, n - 1));
    }
  }

  lemma WalkUnfold(next: int -> int, key: int -> string, d: int, end: int, b: Bucket, n: nat)
    ensures n == 0 || d > Day(end) ==>
      Walk(next, key, d * MS_PER_DAY, end, n) == [] && Starts(d, Day(end), b, n) == []
    ensures n > 0 && d <= Day(end) ==>
      && Walk(next, key, d * MS_PER_DAY, end, n) ==
         [key(d * MS_PER_DAY)] + Walk(next, key, next(d * MS_PER_DAY), end, n - 1)
      && Starts(d, Day(end), b, n) == [d] + Starts(CeilDay(d, b), Day(end), b, n - 1)
  {
    StartOf(end);
    BeforeOrAfter(d, end);
  }

  lemma BeforeOrAfter(d: int, end: int)
    ensures d * MS_PER_DAY <= end <==> d <= Day(end)
  {
  }

  /** From the year 100 on, the code lists the keys of the bucket starts of the range. */
  lemma PeriodsAreStarts(start: int, end: int, b: Bucket)
    requires YearFromDay(FloorDay(Day(start), b)) >= 100
    ensures Periods(start, end, b) == Keys(PeriodKey, RangeStarts(start, end, b))
  {
    var first := FloorDay(Day(start), b);
    FloorDayStarts(Day(start), b);
    YearsFollowDays(first, Day(start));
    TruncateRight(start, b);
    var good := (d: int) => Steady(d, b);
    forall x | good(x)
      ensures NextIn(b)(x * MS_PER_DAY) == CeilDay(x, b) * MS_PER_DAY && good(CeilDay(x, b))
    {
      SteadyStep(x, b);
    }
    WalkListsStarts(NextIn(b), PeriodKey, good, first, end, b, MAX_BUCKETS + 1);
  }

  predicate Increasing(ns: seq<int>) {
    forall i, j :: 0 <= i < j < |ns| ==> ns[i] < ns[j]
  }

  lemma IncreasingCons(n: int, ns: seq<int>)
    requires Increasing(ns) && forall m :: m in ns ==> n < m
    ensures Increasing([n] + ns)
  {
    forall i, j | 0 <= i < j < |[n] + ns|
      ensures ([n] + ns)[i] < ([n] + ns)[j]
    {
      assert ([n] + ns)[j] == ns[j - 1] && ns[j - 1] in ns;
      assert i > 0 ==> ([n] + ns)[i] == ns[i - 1];
    }
  }

  /** When it does not give up, the list has exactly the bucket starts of the range, in order. */
  lemma {:induction false} StartsComplete(d: int, last: int, b: Bucket, n: nat)
    requires StartDay(d, b) && |Starts(d, last, b, n)| < n
    ensures forall e :: e in Starts(d, last, b, n) <==> StartDay(e, b) && d <= e <= last
    ensures Increasing(Starts(d, last, b, n))
    decreases n
  {
    if d <= last {
      var rest := Starts(CeilDay(d, b), last, b, n - 1);
      CeilDayStarts(d, b);
      StartsComplete(CeilDay(d, b), last, b, n - 1);
      FromNextStart(d, last, b);
      IncreasingCons(d, rest);
    }
  }

  lemma FromNextStart(d: int, last: int, b: Bucket)
    requires StartDay(d, b)
    ensures forall e :: StartDay(e, b) && d < e <= last <==> StartDay(e, b) && CeilDay(d, b) <= e <= last
  {
    CeilDayStarts(d, b);
    forall e | StartDay(e, b) && d < e <= last
      ensures CeilDay(d, b) <= e
    {
      CeilDayLeast(d, b, e);
    }
  }

  /** The bucket starts of a range of instants. */
  function RangeStarts(start: int, end: int, b: Bucket): seq<int> {
    Starts(FloorDay(Day(start), b), Day(end), b, MAX_BUCKETS + 1)
  }

  /**
   The buckets tile the range: the listed periods are strictly increasing, every
   instant of the range lies in one of them, and every one has an instant of the range.
   */
  lemma BucketsTile(start: int, end: int, b: Bucket)
    requires start <= end && |RangeStarts(start, end, b)| <= 1000
    ensures var ps := RangeStarts(start, end, b);
      && (forall i, j :: 0 <= i < j < |ps| ==> ps[i] < ps[j])
      && (forall t :: start <= t <= end ==> FloorDay(Day(t), b) in ps)
      && (forall p :: p in ps ==> exists t :: start <= t <= end && FloorDay(Day(t), b) == p)
  {
    var ps := RangeStarts(start, end, b);
    var first := FloorDay(Day(start), b);
    FloorDayStarts(Day(start), b);
    StartsComplete(first, Day(end), b, MAX_BUCKETS + 1);
    forall t | start <= t <= end
      ensures FloorDay(Day(t), b) in ps
    {
      FloorDayStarts(Day(t), b);
      FloorDayGreatest(Day(t), b, first);
    }
    forall p | p in ps
      ensures exists t :: start <= t <= end && FloorDay(Day(t), b) == p
    {
      StartOf(end);
      var t := Max(start, p * MS_PER_DAY);
      if p == first {
        StartOf(start);
        FloorDayStarts(Day(start), b);
        assert p * MS_PER_DAY <= start;
        assert FloorDay(Day(start), b) == p;
      } else {
        LaterStart(start, b, p);
        assert Day(p * MS_PER_DAY) == p;
        FloorDayStarts(p, b);
        FloorDayGreatest(p, b, p);
        assert FloorDay(Day(p * MS_PER_DAY), b) == p;
      }
    }
  }

  /** A bucket start after the first one lies after the instant the range starts with. */
  lemma LaterStart(start: int, b: Bucket, p: int)
    requires StartDay(p, b) && FloorDay(Day(start), b) < p
    ensures start < p * MS_PER_DAY
  {
    if p <= Day(start) {
      FloorDayGreatest(Day(start), b, p);
    }
    StartOf(start);
  }

  /** The key is at place i of the list and nowhere else. */
  ghost predicate OnlyAt(periods: seq<string>, key: string, i: nat) {
    i < |periods| && periods[i] == key && forall j :: 0 <= j < |periods| && periods[j] == key ==> j == i
  }

  lemma OneKeyEach(key: int -> string, ps: seq<int>, i: nat)
    requires i < |ps| && key == PeriodKey
    requires forall j, k :: 0 <= j < k < |ps| ==> ps[j] < ps[k]
    requires forall j :: 0 <= j < |ps| ==> FourDigitYear(ps[j])
    ensures OnlyAt(Keys(key, ps), key(ps[i] * MS_PER_DAY), i)
  {
    forall j | 0 <= j < |ps| && key(ps[j] * MS_PER_DAY) == key(ps[i] * MS_PER_DAY)
      ensures j == i
    {
      PeriodKeyInjective(ps[j], ps[i]);
    }
  }

  /** The starts of a range lie between its first bucket and its end. */
  lemma RangeYears(start: int, end: int, b: Bucket, d: int)
    requires start <= end && |RangeStarts(start, end, b)| <= 1000 && d in RangeStarts(start, end, b)
    requires FourDigitYear(FloorDay(Day(start), b)) && FourDigitYear(Day(end))
    ensures FourDigitYear(d)
  {
    FloorDayStarts(Day(start), b);
    StartsComplete(FloorDay(Day(start), b), Day(end), b, MAX_BUCKETS + 1);
    YearsBetween(FloorDay(Day(start), b), d, Day(end));
  }

  // ----- exactly when the list is right ------------------------------------

  /** A date of a month of year y is a day of the years y - 1 to y + 1. */
  lemma DateNear(y: int, m: int, date: int)
    requires 0 <= m <= 12 && -6 <= date <= 38
    ensures DayFromYear(y) - 7 <= MakeDay(y, m, date) < DayFromYear(y + 2)
  {
    YearsOrdered(y + 1, y + 2);
    DecemberEnds(y);
    if m < 12 {
      MakeDayInYear(y, m, date);
      MonthStartsOrdered(LeapYear(y), m, 12);
      if m > 0 {
        MonthStartsOrdered(LeapYear(y), 0, m);
      }
    } else {
      assert MakeDay(y, 12, date) == MakeDay(y, 12, 1) + date - 1;
    }
  }

  lemma DayOfCentury(d: int)
    requires DayFromYear(1899) <= d < DayFromYear(2101)
    ensures FourDigitYear(d)
  {
    if YearFromDay(d) < 0 {
      YearsOrdered(YearFromDay(d) + 1, 1899);
    } else if 9999 < YearFromDay(d) {
      YearsOrdered(2101, YearFromDay(d));
    }
  }

  /** Within a week before, or the two years from the start of, the year 1900 years after y. */
  predicate Century(y: int, e: int) {
    DayFromYear(y + 1900) - 7 <= e < DayFromYear(y + 1902)
  }

  lemma InCentury(y: int, e: int)
    requires 0 <= y <= 99 && Century(y, e)
    ensures FourDigitYear(e)
  {
    YearsOrdered(1899, y + 1900);
    YearsOrdered(y + 1902, 2101);
    YearLength(1899);
    BeforeYear(y, e);
    DayOfCentury(e);
  }

  lemma BeforeYear(y: int, e: int)
    requires 0 <= y && DayFromYear(y + 1900) - 7 <= e
    ensures DayFromYear(1899) <= e
  {
    YearsOrdered(1900, y + 1900);
    YearLength(1899);
  }

  lemma DateInCentury(y: int, m: int, date: int)
    requires 0 <= y <= 99 && 0 <= m <= 12 && -6 <= date <= 38
    ensures Century(y, MakeDay(FullYear(y), m, date))
  {
    DateNear(y + 1900, m, date);
  }

  lemma DatesNear(date: int, sinceMonday: int, b: Bucket)
    requires 1 <= date <= 31 && 0 <= sinceMonday <= 6
    ensures -6 <= TruncateDate(date, sinceMonday, b) <= 38 && -6 <= NextDate(date, b) <= 38
  {
  }

  lemma TruncateNear(d: int, b: Bucket)
    requires TwoDigitYear(d)
    ensures Century(YearFromDay(d), TruncateDay(d, b))
  {
    DatesShort(d);
    DatesNear(DateFromDay(d), SinceMonday(d), b);
    DateInCentury(YearFromDay(d), MonthFromDay(d), TruncateDate(DateFromDay(d), SinceMonday(d), b));
  }

  lemma NextNear(d: int, b: Bucket)
    requires TwoDigitYear(d)
    ensures Century(YearFromDay(d), NextDay(d, b))
  {
    DatesShort(d);
    DatesNear(DateFromDay(d), SinceMonday(d), b);
    DateInCentury(YearFromDay(d), NextMonthOf(MonthFromDay(d), b), NextDate(DateFromDay(d), b));
  }

  /** From a day of a two-digit year, both truncation and stepping on land in the twentieth century. */
  lemma TruncatesToCentury(d: int, b: Bucket)
    requires TwoDigitYear(d)
    ensures FourDigitYear(TruncateDay(d, b))
  {
    TruncateNear(d, b);
    InCentury(YearFromDay(d), TruncateDay(d, b));
  }

  lemma StepsToCentury(d: int, b: Bucket)
    requires TwoDigitYear(d)
    ensures FourDigitYear(NextDay(d, b)) && Century(YearFromDay(d), NextDay(d, b))
  {
    NextNear(d, b);
    InCentury(YearFromDay(d), NextDay(d, b));
  }

  lemma CeilDayNear(d: int, b: Bucket)
    ensures CeilDay(d, b) <= DayFromYear(YearFromDay(d) + 1) + 7
  {
    if b.MonthBucket? {
      var leap, m := LeapYear(YearFromDay(d)), MonthFromDay(d);
      YearLength(YearFromDay(d));
      MonthsFillYear(leap);
      if m < 11 {
        MonthStartsOrdered(leap, m + 1, 12);
      }
    }
  }

  lemma NextDayLate(d: int, b: Bucket)
    requires TwoDigitYear(d)
    ensures NextDay(d, b) > CeilDay(d, b) && FourDigitYear(NextDay(d, b))
  {
    StepsToCentury(d, b);
    CeilDayNear(d, b);
    YearsOrdered(YearFromDay(d) + 1, YearFromDay(d) + 1900);
  }

  /**
   What a caller can check: the range does not start in the years 0 to 99, and its first
   bucket does not either, unless that is the only one (a week that starts in the year 99).
   */
  predicate ListedRightly(start: int, end: int, b: Bucket) {
    var first := FloorDay(Day(start), b);
    !TwoDigitYear(Day(start)) && (!TwoDigitYear(first) || Day(end) < CeilDay(first, b))
  }

  /** For four-digit years, the code lists the bucket starts of the range exactly then. */
  lemma PeriodsExact(start: int, end: int, b: Bucket)
    requires start <= end && FourDigitYear(FloorDay(Day(start), b)) && FourDigitYear(Day(end))
    ensures Periods(start, end, b) == Keys(PeriodKey, RangeStarts(start, end, b)) <==> ListedRightly(start, end, b)
  {
    var first := FloorDay(Day(start), b);
    FloorDayStarts(Day(start), b);
    YearsFollowDays(first, Day(start));
    if TwoDigitYear(Day(start)) {
      FirstPeriodWrong(start, end, b);
    } else if TwoDigitYear(first) {
      TruncateRight(start, b);
      SecondPeriodWrong(first, end, b);
    } else {
      PeriodsAreStarts(start, end, b);
    }
  }

  lemma FirstPeriodWrong(start: int, end: int, b: Bucket)
    requires start <= end && TwoDigitYear(Day(start)) && FourDigitYear(FloorDay(Day(start), b))
    ensures Periods(start, end, b) != Keys(PeriodKey, RangeStarts(start, end, b))
  {
    var first, d := FloorDay(Day(start), b), TruncateDay(Day(start), b);
    var periods, keys := Periods(start, end, b), Keys(PeriodKey, RangeStarts(start, end, b));
    FloorDayStarts(Day(start), b);
    TruncateInDays(start, b);
    TruncateLate(Day(start), b);
    TruncatesToCentury(Day(start), b);
    DaysOrdered(start, end);
    WalkUnfold(NextIn(b), PeriodKey, d, end, b, MAX_BUCKETS + 1);
    WalkUnfold(NextIn(b), PeriodKey, first, end, b, MAX_BUCKETS + 1);
    assert keys[0] == PeriodKey(first * MS_PER_DAY);
    if |periods| > 0 && periods[0] == keys[0] {
      PeriodKeyInjective(first, d);
    }
  }

  lemma DaysOrdered(t: int, u: int)
    requires t <= u
    ensures Day(t) <= Day(u)
  {
  }

  /** A walk that steps too far lists the first bucket start but not the second one. */
  lemma SecondPeriod(next: int -> int, key: int -> string, first: int, n: int, end: int, b: Bucket)
    requires first <= Day(end) && next(first * MS_PER_DAY) == n * MS_PER_DAY && CeilDay(first, b) < n
    ensures
      var periods := Walk(next, key, first * MS_PER_DAY, end, MAX_BUCKETS + 1);
      var keys := Keys(key, Starts(first, Day(end), b, MAX_BUCKETS + 1));
      && (Day(end) < CeilDay(first, b) ==> periods == keys)
      && (CeilDay(first, b) <= Day(end) && periods == keys ==>
            key(CeilDay(first, b) * MS_PER_DAY) == key(n * MS_PER_DAY))
  {
    var c := CeilDay(first, b);
    WalkUnfold(next, key, first, end, b, MAX_BUCKETS + 1);
    WalkUnfold(next, key, n, end, b, MAX_BUCKETS);
    WalkUnfold(next, key, c, end, b, MAX_BUCKETS);
    var periods := Walk(next, key, first * MS_PER_DAY, end, MAX_BUCKETS + 1);
    var days := Starts(first, Day(end), b, MAX_BUCKETS + 1);
    KeysCons(key, first, days[1..]);
    assert days == [first] + days[1..];
    if c <= Day(end) && periods == Keys(key, days) {
      assert Keys(key, days)[1] == key(c * MS_PER_DAY);
      assert n <= Day(end);
    }
  }

  lemma SecondPeriodWrong(first: int, end: int, b: Bucket)
    requires TwoDigitYear(first) && first <= Day(end) && FourDigitYear(Day(end))
    ensures
      var periods := Walk(NextIn(b), PeriodKey, first * MS_PER_DAY, end, MAX_BUCKETS + 1);
      periods == Keys(PeriodKey, Starts(first, Day(end), b, MAX_BUCKETS + 1)) <==> Day(end) < CeilDay(first, b)
  {
    var n, c := NextDay(first, b), CeilDay(first, b);
    NextDayLate(first, b);
    NextInDays(first, b);
    SecondPeriod(NextIn(b), PeriodKey, first, n, end, b);
    if c <= Day(end) && PeriodKey(c * MS_PER_DAY) == PeriodKey(n * MS_PER_DAY) {
      YearsBetween(first, c, Day(end));
      PeriodKeyInjective(c, n);
    }
  }

  lemma YearsBetween(d: int, c: int, e: int)
    requires YearFromDay(d) >= 0 && YearFromDay(e) <= 9999 && d <= c <= e
    ensures FourDigitYear(c)
  {
    YearsFollowDays(d, c);
    YearsFollowDays(c, e);
  }

  // ----- exactly when every instant is listed ------------------------------

  /** From any day of the year 100 on, the loop steps from start to start. */
  lemma LaterPeriods(e: int, end: int, b: Bucket, n: nat)
    requires YearFromDay(e) >= 100
    ensures Walk(NextIn(b), PeriodKey, e * MS_PER_DAY, end, n) == Keys(PeriodKey, Starts(e, Day(end), b, n))
  {
    var good := (d: int) => YearFromDay(d) >= 100;
    forall x | good(x)
      ensures NextIn(b)(x * MS_PER_DAY) == CeilDay(x, b) * MS_PER_DAY && good(CeilDay(x, b))
    {
      NextInDays(x, b);
      NextDayRight(x, b);
      YearsFollowDays(x, CeilDay(x, b));
    }
    WalkListsStarts(NextIn(b), PeriodKey, good, e, end, b, n);
  }

  lemma CeilDayLater(d: int, b: Bucket)
    ensures d < CeilDay(d, b)
  {
  }

  lemma {:induction false} StartsBetween(d: int, last: int, b: Bucket, n: nat)
    ensures forall x :: x in Starts(d, last, b, n) ==> d <= x <= last
    decreases n
  {
    if n > 0 && d <= last {
      CeilDayLater(d, b);
      StartsBetween(CeilDay(d, b), last, b, n - 1);
    }
  }

  /** The keys of later days do not hold the key of p. */
  lemma NotAmongLater(p: int, e: int, last: int, b: Bucket, n: nat)
    requires p < e && FourDigitYear(p) && FourDigitYear(last)
    ensures PeriodKey(p * MS_PER_DAY) !in Keys(PeriodKey, Starts(e, last, b, n))
  {
    var days := Starts(e, last, b, n);
    StartsBetween(e, last, b, n);
    forall i | 0 <= i < |days|
      ensures PeriodKey(days[i] * MS_PER_DAY) != PeriodKey(p * MS_PER_DAY)
    {
      assert days[i] in days;
      YearsBetween(p, days[i], last);
      if PeriodKey(days[i] * MS_PER_DAY) == PeriodKey(p * MS_PER_DAY) {
        PeriodKeyInjective(days[i], p);
      }
    }
  }

  lemma LateYear(y: int, e: int)
    requires 0 <= y && Century(y, e)
    ensures YearFromDay(e) >= 1899
  {
    BeforeYear(y, e);
    if YearFromDay(e) < 1899 {
      YearsOrdered(YearFromDay(e) + 1, 1899);
    }
  }

  /** A range that starts in the years 0 to 99 is listed from a later day on. */
  lemma LateList(start: int, end: int, b: Bucket)
    requires TwoDigitYear(Day(start))
    ensures
      var e := TruncateDay(Day(start), b);
      && Periods(start, end, b) == Keys(PeriodKey, Starts(e, Day(end), b, MAX_BUCKETS + 1))
      && YearFromDay(e) >= 1899 && Day(start) < e
  {
    var e := TruncateDay(Day(start), b);
    TruncateInDays(start, b);
    TruncateLate(Day(start), b);
    TruncateNear(Day(start), b);
    LateYear(YearFromDay(Day(start)), e);
    LaterPeriods(e, end, b, MAX_BUCKETS + 1);
  }

  /** A list that steps on wrongly from its first bucket leaves out the second. */
  lemma SecondLeftOut(first: int, end: int, b: Bucket)
    requires TwoDigitYear(first) && FourDigitYear(Day(end)) && first < CeilDay(first, b) <= Day(end)
    ensures
      PeriodKey(CeilDay(first, b) * MS_PER_DAY) !in
      Walk(NextIn(b), PeriodKey, first * MS_PER_DAY, end, MAX_BUCKETS + 1)
  {
    var c, n := CeilDay(first, b), NextDay(first, b);
    NextInDays(first, b);
    NextDayLate(first, b);
    NextNear(first, b);
    LateYear(YearFromDay(first), n);
    WalkUnfold(NextIn(b), PeriodKey, first, end, b, MAX_BUCKETS + 1);
    LaterPeriods(n, end, b, MAX_BUCKETS);
    YearsBetween(first, c, Day(end));
    NotAmongLater(c, n, Day(end), b, MAX_BUCKETS);
    if PeriodKey(c * MS_PER_DAY) == PeriodKey(first * MS_PER_DAY) {
      PeriodKeyInjective(c, first);
    }
  }

  /** In a range that is not listed rightly, the bucket of some instant is not in the list. */
  lemma BucketLeftOut(start: int, end: int, b: Bucket) returns (t: int)
    requires start <= end && FourDigitYear(FloorDay(Day(start), b)) && FourDigitYear(Day(end))
    requires !ListedRightly(start, end, b)
    ensures start <= t <= end && PeriodKey(FloorDay(Day(t), b) * MS_PER_DAY) !in Periods(start, end, b)
    ensures TwoDigitYear(Day(start)) ==> t == start
    ensures !TwoDigitYear(Day(start)) ==> !TwoDigitYear(Day(t))
  {
    var first := FloorDay(Day(start), b);
    FloorDayStarts(Day(start), b);
    if TwoDigitYear(Day(start)) {
      t := start;
      LateList(start, end, b);
      NotAmongLater(first, TruncateDay(Day(start), b), Day(end), b, MAX_BUCKETS + 1);
    } else {
      var c := CeilDay(first, b);
      t := c * MS_PER_DAY;
      TruncateRight(start, b);
      CeilDayStarts(first, b);
      LaterStart(start, b, c);
      StartsAreFloors(c, b);
      SecondLeftOut(first, end, b);
      StartOf(end);
      DaysOrdered(start, t);
      YearsFollowDays(first, Day(start));
      YearsFollowDays(Day(start), c);
    }
  }

  lemma StartsAreFloors(d: int, b: Bucket)
    requires StartDay(d, b)
    ensures Day(d * MS_PER_DAY) == d && FloorDay(d, b) == d
  {
    FloorDayStarts(d, b);
    FloorDayGreatest(d, b, d);
  }

  ghost predicate ListedOnce(start: int, end: int, b: Bucket, t: int) {
    exists i: nat :: OnlyAt(Periods(start, end, b), PeriodKey(TruncateUtc(t, b)), i)
  }

  lemma InstantListedOnce(start: int, end: int, b: Bucket, t: int)
    requires start <= t <= end && |Periods(start, end, b)| <= 1000
    requires FourDigitYear(FloorDay(Day(start), b)) && FourDigitYear(Day(end)) && ListedRightly(start, end, b)
    ensures ListedOnce(start, end, b, t)
  {
    var ps, p := RangeStarts(start, end, b), FloorDay(Day(t), b);
    PeriodsExact(start, end, b);
    BucketsTile(start, end, b);
    DaysOrdered(start, t);
    FloorDayStarts(Day(start), b);
    YearsFollowDays(FloorDay(Day(start), b), Day(start));
    YearsFollowDays(Day(start), Day(t));
    TruncateRight(t, b);
    assert p in ps;
    var i: nat :| i < |ps| && ps[i] == p;
    forall j | 0 <= j < |ps|
      ensures FourDigitYear(ps[j])
    {
      assert ps[j] in ps;
      RangeYears(start, end, b, ps[j]);
    }
    OneKeyEach(PeriodKey, ps, i);
    assert Day(p * MS_PER_DAY) == p;
  }

  /** The first day of the year 100 is in a range that goes on from the years before it to the twentieth century. */
  lemma HundredLeftOut(start: int, end: int, b: Bucket)
    requires start <= end && FourDigitYear(FloorDay(Day(start), b)) && FourDigitYear(Day(end))
    requires TwoDigitYear(Day(start)) && TruncateDay(Day(start), b) <= Day(end)
    ensures
      var t := DayFromYear(100) * MS_PER_DAY;
      start <= t <= end && PeriodKey(TruncateUtc(t, b)) !in Periods(start, end, b)
  {
    var d, first, e := DayFromYear(100), FloorDay(Day(start), b), TruncateDay(Day(start), b);
    var t := d * MS_PER_DAY;
    LateList(start, end, b);
    YearsOrdered(YearFromDay(Day(start)) + 1, 100);
    YearsOrdered(101, YearFromDay(e));
    YearLength(100);
    assert Day(start) < d < e;
    LaterDay(start, d);
    StartOf(end);
    assert Day(t) == d;
    YearOfFirstDay(100);
    TruncateRight(t, b);
    FloorDayStarts(Day(start), b);
    FloorDayStarts(d, b);
    FloorDayGreatest(d, b, first);
    YearsBetween(first, FloorDay(d, b), Day(end));
    NotAmongLater(FloorDay(d, b), e, Day(end), b, MAX_BUCKETS + 1);
  }

  lemma YearOfFirstDay(y: int)
    ensures YearFromDay(DayFromYear(y)) == y
  {
    YearLength(y);
    if YearFromDay(DayFromYear(y)) < y {
      YearsOrdered(YearFromDay(DayFromYear(y)) + 1, y);
    } else if YearFromDay(DayFromYear(y)) > y {
      YearsOrdered(y + 1, YearFromDay(DayFromYear(y)));
    }
  }

  lemma InstantNotListed(start: int, end: int, b: Bucket) returns (t: int)
    requires start <= end && FourDigitYear(FloorDay(Day(start), b)) && FourDigitYear(Day(end))
    requires !ListedRightly(start, end, b)
    ensures start <= t <= end && !ListedOnce(start, end, b, t)
  {
    t := start;
    if !TwoDigitYear(Day(start)) {
      t := BucketLeftOut(start, end, b);
      TruncateRight(t, b);
    } else if TruncateDay(Day(start), b) <= Day(end) {
      t := DayFromYear(100) * MS_PER_DAY;
      HundredLeftOut(start, end, b);
    } else {
      LateList(start, end, b);
    }
  }

  /**
   For four-digit years and a list within the limit, every instant of the range truncates to
   exactly one listed period exactly if the list is right.
   */
  lemma EachInstantListedOnce(start: int, end: int, b: Bucket)
    requires start <= end && |Periods(start, end, b)| <= 1000
    requires FourDigitYear(FloorDay(Day(start), b)) && FourDigitYear(Day(end))
    ensures (forall t :: start <= t <= end ==> ListedOnce(start, end, b, t)) <==> ListedRightly(start, end, b)
  {
    if ListedRightly(start, end, b) {
      forall t | start <= t <= end
        ensures ListedOnce(start, end, b, t)
      {
        InstantListedOnce(start, end, b, t);
      }
    } else {
      var t := InstantNotListed(start, end, b);
    }
  }
}
