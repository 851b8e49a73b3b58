/**
 The bucketed invoice series: Mongo groups the matched invoices by bucket, the
 code looks the groups up by period key and fills the gaps with zeros. The
 database's $group and $dateTrunc stages are taken at their documentation.
 */
module InvoiceSeries {
  import opened Common
  import opened Calendar
  import opened Analytics

  datatype Invoice = Invoice(createdAt: int, merchant: string, token: string, status: string, amount: int)

  /** An absent filter and an empty one match every invoice. */
  datatype Query = Query(bucket: Bucket, start: int, end: int, merchant: Option<string>, token: Option<string>)

  predicate Passes(filter: Option<string>, value: string) {
    filter == None || filter == Some("") || filter == Some(value)
  }

  predicate Matches(q: Query, invoice: Invoice) {
    && q.start <= invoice.createdAt <= q.end
    && Passes(q.merchant, invoice.merchant) && Passes(q.token, invoice.token)
  }

  function Matched(q: Query, invoices: seq<Invoice>): (r: seq<Invoice>)
    ensures forall i :: i in r ==> Matches(q, i)
  {
    if invoices == [] then []
    else (if Matches(q, invoices[0]) then [invoices[0]] else []) + Matched(q, invoices[1..])
  }

  function SettledAmount(invoice: Invoice): int {
    if invoice.status == "Paid" || invoice.status == "Released" then invoice.amount else 0
  }

  function Total(ns: seq<int>): int {
    if ns == [] then 0 else ns[0] + Total(ns[1..])
  }

  /** The sum of the weights that belong to day p. */
  function TotalOn(days: seq<int>, weights: seq<int>, p: int): int
    requires |days| == |weights|
  {
    if days == [] then 0
    else (if days[0] == p then weights[0] else 0) + TotalOn(days[1..], weights[1..], p)
  }

  function BucketDays(invoices: seq<Invoice>, b: Bucket): (days: seq<int>)
    ensures |days| == |invoices|
    ensures forall i :: 0 <= i < |days| ==> days[i] == FloorDay(Day(invoices[i].createdAt), b)
  {
    seq(|invoices|, i requires 0 <= i < |invoices| => FloorDay(Day(invoices[i].createdAt), b))
  }

  function Ones(invoices: seq<Invoice>): (ws: seq<int>)
    ensures |ws| == |invoices|
  {
    seq(|invoices|, i => 1)
  }

  function Amounts(invoices: seq<Invoice>): (ws: seq<int>)
    ensures |ws| == |invoices|
  {
    seq(|invoices|, i requires 0 <= i < |invoices| => SettledAmount(invoices[i]))
  }

  /** One group of the aggregation; its _id is the instant at which day `day` starts. */
  datatype Row = Row(day: int, count: int, volume: int)

  /** What $group over $dateTrunc gives: one row for every bucket with a matched invoice, and no other. */
  ghost predicate Grouped(rows: seq<Row>, matched: seq<Invoice>, b: Bucket) {
    var days := BucketDays(matched, b);
    && (forall i :: 0 <= i < |rows| ==>
        && rows[i].day in days
        && rows[i].count == TotalOn(days, Ones(matched), rows[i].day)
        && rows[i].volume == TotalOn(days, Amounts(matched), rows[i].day))
    && (forall d :: d in days ==> HasRow(rows, d))
  }

  ghost predicate HasRow(rows: seq<Row>, d: int) {
    exists i :: 0 <= i < |rows| && rows[i].day == d
  }

  datatype Point = Point(period: string, count: int, volume: int)

  /** The last row with a given period key, as in a Map built from the rows in order. */
  function RowOf(key: int -> string, rows: seq<Row>, period: string): (r: Option<Row>)
    ensures r.Some? ==> r.value in rows && key(r.value.day * MS_PER_DAY) == period
    ensures r.None? ==> forall i :: 0 <= i < |rows| ==> key(rows[i].day * MS_PER_DAY) != period
  {
    if rows == [] then None
    else
      var last := rows[|rows| - 1];
      if key(last.day * MS_PER_DAY) == period then Some(last) else RowOf(key, rows[..|rows| - 1], period)
  }

  function PointOf(key: int -> string, rows: seq<Row>, period: string): Point {
    match RowOf(key, rows, period)
    case Some(row) => Point(period, row.count, row.volume)
    case None => Point(period, 0, 0)
  }

  ghost predicate SeriesFor(series: seq<Point>, key: int -> string, rows: seq<Row>, periods: seq<string>) {
    |series| == |periods| && forall i :: 0 <= i < |series| ==> series[i] == PointOf(key, rows, periods[i])
  }

  /** The points of the series, from the rows that the database returned. */
  method BuildSeries(rows: seq<Row>, q: Query) returns (series: seq<Point>)
    ensures SeriesFor(series, PeriodKey, rows, Periods(q.start, q.end, q.bucket))
  {
    var byPeriod := IndexRows(PeriodKey, rows);
    var periods := ListPeriods(q.start, q.end, q.bucket);
    series := FillGaps(PeriodKey, rows, byPeriod, periods);
  }

  method IndexRows(key: int -> string, rows: seq<Row>) returns (byPeriod: map<string, Row>)
    ensures Indexes(byPeriod, key, rows)
  {
    byPeriod := map[];
    for k := 0 to |rows|
      invariant Indexes(byPeriod, key, rows[..k])
    {
      IndexOneMore(byPeriod, key, rows, k);
      byPeriod := byPeriod[key(rows[k].day * MS_PER_DAY) := rows[k]];
    }
    assert rows[..|rows|] == rows;
  }

  method FillGaps(key: int -> string, rows: seq<Row>, byPeriod: map<string, Row>, periods: seq<string>)
    returns (series: seq<Point>)
    requires Indexes(byPeriod, key, rows)
    ensures SeriesFor(series, key, rows, periods)
  {
    series := [];
    for k := 0 to |periods|
      invariant SeriesFor(series, key, rows, periods[..k])
    {
      var period := periods[k];
      assert Indexed(byPeriod, key, rows, period);
      var count := if period in byPeriod then byPeriod[period].count else 0;
      var volume := if period in byPeriod then byPeriod[period].volume else 0;
      series := series + [Point(period, count, volume)];
    }
    assert periods[..|periods|] == periods;
  }

  ghost predicate Indexes(byPeriod: map<string, Row>, key: int -> string, rows: seq<Row>) {
    forall period :: Indexed(byPeriod, key, rows, period)
  }

  ghost predicate Indexed(byPeriod: map<string, Row>, key: int -> string, rows: seq<Row>, period: string) {
    RowOf(key, rows, period) == if period in byPeriod then Some(byPeriod[period]) else None
  }

  lemma IndexOneMore(byPeriod: map<string, Row>, key: int -> string, rows: seq<Row>, k: nat)
    requires k < |rows| && Indexes(byPeriod, key, rows[..k])
    ensures Indexes(byPeriod[key(rows[k].day * MS_PER_DAY) := rows[k]], key, rows[..k + 1])
  {
    var more, before, after := byPeriod[key(rows[k].day * MS_PER_DAY) := rows[k]], rows[..k], rows[..k + 1];
    assert after[..k] == before;
    forall period: string
      ensures Indexed(more, key, after, period)
    {
      assert Indexed(byPeriod, key, before, period);
    }
  }

  // ----- every point is right ----------------------------------------------

  lemma {:induction false} NothingOn(days: seq<int>, weights: seq<int>, p: int)
    requires |days| == |weights| && p !in days
    ensures TotalOn(days, weights, p) == 0
    decreases days
  {
    if days != [] {
      NothingOn(days[1..], weights[1..], p);
    }
  }

  /** The point of a bucket start has that bucket's count and settled volume, if its key names it alone. */
  lemma PointRight(key: int -> string, rows: seq<Row>, matched: seq<Invoice>, b: Bucket, p: int)
    requires Grouped(rows, matched, b)
    requires forall d :: d in BucketDays(matched, b) && key(d * MS_PER_DAY) == key(p * MS_PER_DAY) ==> d == p
    ensures
      var days := BucketDays(matched, b);
      PointOf(key, rows, key(p * MS_PER_DAY)) ==
      Point(key(p * MS_PER_DAY), TotalOn(days, Ones(matched), p), TotalOn(days, Amounts(matched), p))
  {
    var days, row := BucketDays(matched, b), RowOf(key, rows, key(p * MS_PER_DAY));
    if row.None? {
      assert !HasRow(rows, p);
      NothingOn(days, Ones(matched), p);
      NothingOn(days, Amounts(matched), p);
    } else {
      assert row.value.day in days;
    }
  }

  // ----- the points add up -------------------------------------------------

  function Spread(ps: seq<int>, days: seq<int>, weights: seq<int>): (r: seq<int>)
    requires |days| == |weights|
    ensures |r| == |ps|
  {
    seq(|ps|, i requires 0 <= i < |ps| => TotalOn(days, weights, ps[i]))
  }

  lemma {:induction false} ZeroTotal(ps: seq<int>)
    ensures Total(Spread(ps, [], [])) == 0
    decreases ps
  {
    if ps != [] {
      ZeroTotal(ps[1..]);
      assert Spread(ps, [], [])[1..] == Spread(ps[1..], [], []);
    }
  }

  /** A further weight is added to the totals as often as its day is listed. */
  lemma {:induction false} SpreadOneMore(ps: seq<int>, d: int, w: int, days: seq<int>, weights: seq<int>)
    requires |days| == |weights|
    ensures Total(Spread(ps, [d] + days, [w] + weights)) == Total(Spread(ps, days, weights)) + multiset(ps)[d] * w
    decreases ps
  {
    if ps != [] {
      var p, rest := ps[0], ps[1..];
      SpreadOneMore(rest, d, w, days, weights);
      assert ps == [p] + rest;
      assert Spread(ps, days, weights)[1..] == Spread(rest, days, weights);
      assert Spread(ps, [d] + days, [w] + weights)[1..] == Spread(rest, [d] + days, [w] + weights);
      assert ([d] + days)[1..] == days && ([w] + weights)[1..] == weights;
      assert TotalOn([d] + days, [w] + weights, p) == (if p == d then w else 0) + TotalOn(days, weights, p);
      CountOneMore(p, rest, d, w);
    }
  }

  lemma CountOneMore(p: int, rest: seq<int>, d: int, w: int)
    ensures multiset([p] + rest)[d] * w == multiset(rest)[d] * w + if p == d then w else 0
  {
    assert multiset([p] + rest) == multiset{p} + multiset(rest);
    var n := multiset(rest)[d];
    assert (n + 1) * w == n * w + w;
  }

  /** Totals over days that list every weight's day once add up to all the weights. */
  lemma {:induction false} TotalsAddUp(ps: seq<int>, days: seq<int>, weights: seq<int>)
    requires |days| == |weights|
    requires forall d :: d in days ==> multiset(ps)[d] == 1
    ensures Total(Spread(ps, days, weights)) == Total(weights)
    decreases days
  {
    if days == [] {
      assert weights == [];
      ZeroTotal(ps);
    } else {
      assert days == [days[0]] + days[1..] && weights == [weights[0]] + weights[1..];
      TotalsAddUp(ps, days[1..], weights[1..]);
      SpreadOneMore(ps, days[0], weights[0], days[1..], weights[1..]);
    }
  }

  lemma {:induction false} ListedOnce(ps: seq<int>, d: int)
    requires d in ps
    requires forall i, j :: 0 <= i < j < |ps| ==> ps[i] < ps[j]
    ensures multiset(ps)[d] == 1
    decreases ps
  {
    var rest := ps[1..];
    assert ps == [ps[0]] + rest;
    if d == ps[0] {
      assert d !in rest;
      assert multiset(rest)[d] == 0;
    } else {
      ListedOnce(rest, d);
    }
  }

  function Counts(series: seq<Point>): (r: seq<int>)
    ensures |r| == |series|
  {
    seq(|series|, i requires 0 <= i < |series| => series[i].count)
  }

  function Volumes(series: seq<Point>): (r: seq<int>)
    ensures |r| == |series|
  {
    seq(|series|, i requires 0 <= i < |series| => series[i].volume)
  }

  lemma {:induction false} OnesTotal(n: nat)
    ensures Total(seq(n, i => 1)) == n
  {
    if n > 0 {
      assert seq(n, i => 1)[1..] == seq(n - 1, i => 1);
      OnesTotal(n - 1);
    }
  }

  lemma MatchedListedOnce(q: Query, matched: seq<Invoice>, ps: seq<int>)
    requires q.start <= q.end && ps == RangeStarts(q.start, q.end, q.bucket) && |ps| <= 1000
    requires forall i :: i in matched ==> Matches(q, i)
    ensures forall d :: d in BucketDays(matched, q.bucket) ==> d in ps && multiset(ps)[d] == 1
  {
    var days := BucketDays(matched, q.bucket);
    BucketsTile(q.start, q.end, q.bucket);
    forall d | d in days
      ensures d in ps && multiset(ps)[d] == 1
    {
      var i :| 0 <= i < |days| && days[i] == d;
      assert matched[i] in matched;
      ListedOnce(ps, d);
    }
  }

  /** The series of a query over what the database holds and returns. */
  ghost predicate Answers(invoices: seq<Invoice>, rows: seq<Row>, q: Query, series: seq<Point>) {
    && Grouped(rows, Matched(q, invoices), q.bucket)
    && SeriesFor(series, PeriodKey, rows, Periods(q.start, q.end, q.bucket))
  }

  ghost predicate AddsUp(invoices: seq<Invoice>, q: Query, series: seq<Point>) {
    && Total(Counts(series)) == |Matched(q, invoices)|
    && Total(Volumes(series)) == Total(Amounts(Matched(q, invoices)))
  }

  lemma RightSeriesAddsUp(invoices: seq<Invoice>, rows: seq<Row>, q: Query, series: seq<Point>)
    requires q.start <= q.end && |Periods(q.start, q.end, q.bucket)| <= 1000
    requires FourDigitYear(FloorDay(Day(q.start), q.bucket)) && FourDigitYear(Day(q.end))
    requires ListedRightly(q.start, q.end, q.bucket) && Answers(invoices, rows, q, series)
    ensures AddsUp(invoices, q, series)
  {
    var matched := Matched(q, invoices);
    var ps, days := RangeStarts(q.start, q.end, q.bucket), BucketDays(matched, q.bucket);
    PeriodsExact(q.start, q.end, q.bucket);
    MatchedListedOnce(q, matched, ps);
    SeriesPoints(rows, matched, q, ps, series);
    PointsAddUp(series, ps, days, Ones(matched), Amounts(matched));
    OnesTotal(|matched|);
  }

  // ----- a series that does not add up -------------------------------------

  /** An invoice at t that the query matches. */
  function InvoiceAt(q: Query, t: int): Invoice {
    Invoice(t, q.merchant.GetOr(""), q.token.GetOr(""), "Pending", 0)
  }

  function SeriesOf(key: int -> string, rows: seq<Row>, periods: seq<string>): (series: seq<Point>)
    ensures SeriesFor(series, key, rows, periods)
  {
    seq(|periods|, i requires 0 <= i < |periods| => PointOf(key, rows, periods[i]))
  }

  lemma {:induction false} NothingCounted(series: seq<Point>)
    requires forall i :: 0 <= i < |series| ==> series[i].count == 0
    ensures Total(Counts(series)) == 0
    decreases series
  {
    if series != [] {
      NothingCounted(series[1..]);
      assert Counts(series)[1..] == Counts(series[1..]);
    }
  }

  lemma OneGrouped(q: Query, t: int)
    requires q.start <= t <= q.end
    ensures
      var invoice, d := InvoiceAt(q, t), FloorDay(Day(t), q.bucket);
      Matched(q, [invoice]) == [invoice] && Grouped([Row(d, 1, 0)], [invoice], q.bucket)
  {
    var invoice, d := InvoiceAt(q, t), FloorDay(Day(t), q.bucket);
    assert [invoice][1..] == [];
    assert Matched(q, [invoice]) == [invoice] + Matched(q, []);
    var days, ones, amounts := BucketDays([invoice], q.bucket), Ones([invoice]), Amounts([invoice]);
    assert days[1..] == [] && ones[1..] == [] && amounts[1..] == [];
    assert TotalOn(days, ones, d) == 1 + TotalOn([], [], d) && TotalOn(days, amounts, d) == 0 + TotalOn([], [], d);
    var rows := [Row(d, 1, 0)];
    assert rows[0].day == d && days[0] == d;
    assert HasRow(rows, d);
  }

  /** An invoice in a bucket that is not listed is not counted. */
  lemma OneLeftOut(q: Query, t: int) returns (invoices: seq<Invoice>, rows: seq<Row>, series: seq<Point>)
    requires q.start <= t <= q.end
    requires PeriodKey(FloorDay(Day(t), q.bucket) * MS_PER_DAY) !in Periods(q.start, q.end, q.bucket)
    ensures Answers(invoices, rows, q, series) && !AddsUp(invoices, q, series)
  {
    var periods := Periods(q.start, q.end, q.bucket);
    invoices, rows := [InvoiceAt(q, t)], [Row(FloorDay(Day(t), q.bucket), 1, 0)];
    series := SeriesOf(PeriodKey, rows, periods);
    OneGrouped(q, t);
    forall i | 0 <= i < |series|
      ensures series[i].count == 0
    {
      assert periods[i] in periods;
      assert series[i] == PointOf(PeriodKey, rows, periods[i]);
    }
    NothingCounted(series);
  }

  /**
   For four-digit years and a list within the limit, every matched invoice is counted in exactly
   one bucket, whatever the invoices and whatever the order of the groups, so that the counts
   add up to the number of matched invoices and the volumes to their settled total, exactly if
   the list is right.
   */
  lemma SeriesAddsUp(q: Query)
    requires q.start <= q.end && |Periods(q.start, q.end, q.bucket)| <= 1000
    requires FourDigitYear(FloorDay(Day(q.start), q.bucket)) && FourDigitYear(Day(q.end))
    ensures
      (forall invoices, rows, series :: Answers(invoices, rows, q, series) ==> AddsUp(invoices, q, series)) <==>
      ListedRightly(q.start, q.end, q.bucket)
  {
    if ListedRightly(q.start, q.end, q.bucket) {
      forall invoices, rows, series | Answers(invoices, rows, q, series)
        ensures AddsUp(invoices, q, series)
      {
        RightSeriesAddsUp(invoices, rows, q, series);
      }
    } else {
      var t := BucketLeftOut(q.start, q.end, q.bucket);
      var invoices, rows, series := OneLeftOut(q, t);
    }
  }

  lemma PointsAddUp(series: seq<Point>, ps: seq<int>, days: seq<int>, ones: seq<int>, amounts: seq<int>)
    requires |days| == |ones| == |amounts| && |series| == |ps|
    requires forall d :: d in days ==> multiset(ps)[d] == 1
    requires forall i :: 0 <= i < |ps| ==>
      series[i].count == TotalOn(days, ones, ps[i]) && series[i].volume == TotalOn(days, amounts, ps[i])
    ensures Total(Counts(series)) == Total(ones)
    ensures Total(Volumes(series)) == Total(amounts)
  {
    TotalsAddUp(ps, days, ones);
    TotalsAddUp(ps, days, amounts);
    assert Counts(series) == Spread(ps, days, ones);
    assert Volumes(series) == Spread(ps, days, amounts);
  }

  lemma SeriesPoints(rows: seq<Row>, matched: seq<Invoice>, q: Query, ps: seq<int>, series: seq<Point>)
    requires ps == RangeStarts(q.start, q.end, q.bucket)
    requires q.start <= q.end && |ps| <= 1000
    requires FourDigitYear(FloorDay(Day(q.start), q.bucket)) && FourDigitYear(Day(q.end))
    requires Periods(q.start, q.end, q.bucket) == Keys(PeriodKey, ps)
    requires Grouped(rows, matched, q.bucket) && SeriesFor(series, PeriodKey, rows, Periods(q.start, q.end, q.bucket))
    requires forall d :: d in BucketDays(matched, q.bucket) ==> d in ps
    ensures |series| == |ps|
    ensures forall i :: 0 <= i < |ps| ==>
      series[i] == Point(PeriodKey(ps[i] * MS_PER_DAY),
                         TotalOn(BucketDays(matched, q.bucket), Ones(matched), ps[i]),
                         TotalOn(BucketDays(matched, q.bucket), Amounts(matched), ps[i]))
  {
    forall i | 0 <= i < |ps|
      ensures series[i] == Point(PeriodKey(ps[i] * MS_PER_DAY),
                                 TotalOn(BucketDays(matched, q.bucket), Ones(matched), ps[i]),
                                 TotalOn(BucketDays(matched, q.bucket), Amounts(matched), ps[i]))
    {
      assert ps[i] in ps;
      forall d | d in BucketDays(matched, q.bucket) && PeriodKey(d * MS_PER_DAY) == PeriodKey(ps[i] * MS_PER_DAY)
        ensures d == ps[i]
      {
        RangeKeys(q, ps, d, ps[i]);
      }
      PointRight(PeriodKey, rows, matched, q.bucket, ps[i]);
    }
  }

  lemma RangeKeys(q: Query, ps: seq<int>, d: int, p: int)
    requires ps == RangeStarts(q.start, q.end, q.bucket) && d in ps && p in ps
    requires q.start <= q.end && |ps| <= 1000
    requires FourDigitYear(FloorDay(Day(q.start), q.bucket)) && FourDigitYear(Day(q.end))
    requires PeriodKey(d * MS_PER_DAY) == PeriodKey(p * MS_PER_DAY)
    ensures d == p
  {
    RangeYears(q.start, q.end, q.bucket, d);
    RangeYears(q.start, q.end, q.bucket, p);
    PeriodKeyInjective(d, p);
  }

  // ----- what one invoice adds ---------------------------------------------

  /** In the range, and of the merchant and the token asked for, if any are. */
  predicate Wanted(q: Query, x: Invoice) {
    && !(x.createdAt < q.start) && !(x.createdAt > q.end)
    && (q.merchant.GetOr("") != "" ==> q.merchant.GetOr("") == x.merchant)
    && (q.token.GetOr("") != "" ==> q.token.GetOr("") == x.token)
  }

  /** One invoice more counts one if it is wanted, and adds its amount if it is paid or released as well. */
  lemma OneMoreInvoice(q: Query, invoices: seq<Invoice>, x: Invoice)
    ensures
      var before, after := Matched(q, invoices), Matched(q, [x] + invoices);
      && |after| == |before| + (if Wanted(q, x) then 1 else 0)
      && Total(Amounts(after)) ==
         Total(Amounts(before)) + if Wanted(q, x) && x.status in {"Paid", "Released"} then x.amount else 0
  {
    var before, after := Matched(q, invoices), Matched(q, [x] + invoices);
    assert ([x] + invoices)[1..] == invoices;
    if Wanted(q, x) {
      assert after == [x] + before;
      assert Amounts(after)[1..] == Amounts(before);
    } else {
      assert after == before;
    }
  }
}
