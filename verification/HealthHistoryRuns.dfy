/** What rolling up and rotating keep: counts through two levels of aggregation, the error of the
    twice-truncated average, and an exact account of every run that a rotation drops. */
module HealthHistoryRuns {
  import opened Options
  import opened Grouping
  import opened HealthHistory
  import opened Sequences

  // ---------- two levels of aggregation ----------

  function HourWith(p: string -> bool): Hourly -> bool {
    (r: Hourly) => p(r.hour)
  }

  lemma RowCounts(hour: string, es: seq<Raw>, c: Counter)
    ensures HourlyCount(c)(HourlyRow(hour, es)) == Weigh(es, RawCount(c))
  {}

  lemma DailyRowCounts(date: string, rs: seq<Hourly>, c: Counter)
    ensures DailyCount(c)(DailyRow(date, rs)) == Weigh(rs, HourlyCount(c))
  {}

  lemma {:induction false} RowsWeighBuckets(hours: seq<string>, es: seq<Raw>, p: string -> bool, c: Counter)
    ensures Weigh(Select(HourlyRows(hours, es), HourWith(p)), HourlyCount(c)) ==
            WeighBuckets(Select(hours, p), es, HourOf(), RawCount(c))
  {
    hide HourlyRow, Bucket, RawCount, HourlyCount;
    if hours != [] {
      var init, h := hours[..|hours| - 1], hours[|hours| - 1];
      RowsWeighBuckets(init, es, p, c);
      assert HourlyRows(hours, es)[..|hours| - 1] == HourlyRows(init, es);
      var row := HourlyRow(h, Bucket(es, HourOf(), h));
      RowCounts(h, Bucket(es, HourOf(), h), c);
      WeighOne(Select(HourlyRows(init, es), HourWith(p)), row, HourlyCount(c));
      BucketsOne(Select(init, p), h, es, HourOf(), RawCount(c));
    } else {
      assert HourlyRows(hours, es) == [];
    }
  }

  lemma BucketsOne<E>(ks: seq<string>, k: string, s: seq<E>, key: E -> Option<string>, w: E -> int)
    ensures WeighBuckets(ks + [k], s, key, w) == WeighBuckets(ks, s, key, w) + Weigh(Bucket(s, key, k), w)
  {}

  /** The hourly rows whose hour meets a condition count exactly the runs whose hour meets it. */
  lemma HourlyAccounts(es: seq<Raw>, p: string -> bool, c: Counter)
    ensures Weigh(Select(HourlyOf(es), HourWith(p)), HourlyCount(c)) ==
            Weigh(Select(es, KeyWith(HourOf(), p)), RawCount(c))
  {
    hide HourlyRows, RawCount, HourlyCount, HourOf, Select, HourWith;
    RowsWeighBuckets(Hours(es), es, p, c);
    GroupedWeight(es, HourOf(), p, RawCount(c));
  }

  function DateWith(p: string -> bool): Daily -> bool {
    (r: Daily) => p(r.date)
  }

  lemma {:induction false} DailyRowsWeighBuckets(dates: seq<string>, rs: seq<Hourly>, p: string -> bool, c: Counter)
    ensures Weigh(Select(DailyRows(dates, rs), DateWith(p)), DailyCount(c)) ==
            WeighBuckets(Select(dates, p), rs, DateOf(), HourlyCount(c))
  {
    hide DailyRow, Bucket, HourlyCount, DailyCount;
    if dates != [] {
      var init, d := dates[..|dates| - 1], dates[|dates| - 1];
      DailyRowsWeighBuckets(init, rs, p, c);
      assert DailyRows(dates, rs)[..|dates| - 1] == DailyRows(init, rs);
      var row := DailyRow(d, Bucket(rs, DateOf(), d));
      DailyRowCounts(d, Bucket(rs, DateOf(), d), c);
      WeighOne(Select(DailyRows(init, rs), DateWith(p)), row, DailyCount(c));
      BucketsOne(Select(init, p), d, rs, DateOf(), HourlyCount(c));
    } else {
      assert DailyRows(dates, rs) == [];
    }
  }

  lemma DailyAccounts(rs: seq<Hourly>, p: string -> bool, c: Counter)
    ensures Weigh(Select(DailyOf(rs), DateWith(p)), DailyCount(c)) ==
            Weigh(Select(rs, KeyWith(DateOf(), p)), HourlyCount(c))
  {
    hide DailyRows, DailyCount, HourlyCount, DateOf, Select, DateWith;
    DailyRowsWeighBuckets(Dates(rs), rs, p, c);
    GroupedWeight(rs, DateOf(), p, HourlyCount(c));
  }

  predicate HourOnDate(hour: string, date: string) {
    |hour| >= 10 && hour[..10] == date
  }

  function OnDate(date: string): string -> bool {
    (hour: string) => HourOnDate(hour, date)
  }

  /** The runs of a day, straight from the raw log. */
  function RunsOn(es: seq<Raw>, date: string): seq<Raw> {
    Select(es, KeyWith(HourOf(), OnDate(date)))
  }

  lemma DayBucket(rs: seq<Hourly>, date: string)
    ensures Bucket(rs, DateOf(), date) == Select(rs, HourWith(OnDate(date)))
  {}

  /** Rolling up by hour and then by day gives each day the counts of its raw runs. */
  lemma TwoLevelCounts(es: seq<Raw>, i: nat, c: Counter)
    requires i < |DailyOf(HourlyOf(es))|
    ensures var row := DailyOf(HourlyOf(es))[i];
            Of(row.counts, c) == Weigh(RunsOn(es, row.date), RawCount(c))
  {
    hide HourlyOf, Select, DailyRow, KeyWith, HourOf, DateOf, OnDate, HourWith;
    var rs := HourlyOf(es);
    var date := Dates(rs)[i];
    DailyRowCounts(date, Bucket(rs, DateOf(), date), c);
    DayBucket(rs, date);
    HourlyAccounts(es, OnDate(date), c);
  }

  lemma HourlyRowHours(es: seq<Raw>, hour: string)
    ensures (exists r :: r in HourlyOf(es) && r.hour == hour) <==> (exists e :: e in es && HourOf()(e) == Some(hour))
  {
    var hours, rows := Hours(es), HourlyOf(es);
    SortMembers(Keys(es, HourOf()), hour);
    if hour in hours {
      var i :| 0 <= i < |hours| && hours[i] == hour;
      assert rows[i] in rows && rows[i].hour == hour;
    }
    if r :| r in rows && r.hour == hour {
      var i :| 0 <= i < |rows| && rows[i] == r;
      assert hours[i] in hours;
    }
  }

  /** A day has a row exactly when some raw run falls on it, and the rows are in order. */
  lemma TwoLevelDates(es: seq<Raw>, date: string)
    ensures Ascending(Hours(es)) && Ascending(Dates(HourlyOf(es)))
    ensures date in Dates(HourlyOf(es)) <==> RunsOn(es, date) != []
  {
    SortAscending(Keys(es, HourOf()));
    hide HourlyOf, Select, Ascending, Keys, Sort;
    var rs := HourlyOf(es);
    SortAscending(Keys(rs, DateOf()));
    SortMembers(Keys(rs, DateOf()), date);
    hide Dates, Hours;
    RowsOfDate(es, date);
  }

  lemma RowsOfDate(es: seq<Raw>, date: string)
    ensures (exists r :: r in HourlyOf(es) && DateOf()(r) == Some(date)) <==> RunsOn(es, date) != []
  {
    hide HourlyOf, Select;
    var rs := HourlyOf(es);
    if r :| r in rs && DateOf()(r) == Some(date) {
      HourlyRowHours(es, r.hour);
      var e :| e in es && HourOf()(e) == Some(r.hour);
      SelectMembers(es, KeyWith(HourOf(), OnDate(date)), e);
    }
    if RunsOn(es, date) != [] {
      var e := RunsOn(es, date)[0];
      SelectMembers(es, KeyWith(HourOf(), OnDate(date)), e);
      HourlyRowHours(es, e.stamp.value.hour);
      var r :| r in rs && r.hour == e.stamp.value.hour;
      assert DateOf()(r) == Some(date);
    }
  }

  // ---------- the uptime ----------

  lemma NearestBounds(a: nat, n: nat)
    requires n > 0
    ensures 2 * a - n <= 2 * (n * Nearest(a, n)) <= 2 * a + n
  {
    assert a == n * (a / n) + a % n;
  }

  lemma NearestFull(h: nat, t: nat)
    requires t > 0 && h <= t
    ensures Nearest(1000 * h, t) <= 1000
    ensures Nearest(1000 * h, t) == 1000 <==> 2000 * (t - h) <= t
  {
    var a := 1000 * h;
    assert a == t * (a / t) + a % t;
    if h == t {
      QuotientIs(a, t, 1000, 0);
    } else if 1000 * (t - h) <= t {
      QuotientIs(a, t, 999, t - 1000 * (t - h));
    } else {
      QuotientBelow(a, t, 999);
    }
  }

  lemma Multiples(n: nat, k: int)
    ensures k >= 1 ==> n * k >= n
    ensures k <= -1 ==> n * k + n <= 0
  {}

  lemma QuotientIs(a: nat, n: nat, q: nat, r: nat)
    requires a == n * q + r && r < n
    ensures a / n == q && a % n == r
  {
    var d := a / n;
    assert a == n * d + a % n;
    assert n * (d - q) == n * d - n * q;
    Multiples(n, d - q);
  }

  lemma QuotientBelow(a: nat, n: nat, q: nat)
    requires n > 0 && a < n * q
    ensures a / n < q
  {}

  lemma {:induction false} CountedRuns(es: seq<Raw>, c: Counter)
    ensures 0 <= Weigh(es, RawCount(c)) <= |es| == Weigh(es, RawCount(Runs))
  {
    if es != [] {
      CountedRuns(es[..|es| - 1], c);
    }
  }

  lemma UptimeIs(date: string, rs: seq<Hourly>)
    ensures var k := DailyRow(date, rs).counts;
            k.total > 0 ==> DailyRow(date, rs).uptime == Nearest(1000 * k.healthy, k.total)
  {}

  /** A day's uptime is the share of its raw runs that were healthy, to the nearest tenth of a percent;
      100.0 says that at most one run in 2000 was not. */
  lemma UptimeOfDay(es: seq<Raw>, i: nat)
    requires i < |DailyOf(HourlyOf(es))|
    ensures var row := DailyOf(HourlyOf(es))[i];
            var h, t := Weigh(RunsOn(es, row.date), RawCount(Healthy)), |RunsOn(es, row.date)|;
            && h <= t && t > 0
            && 2 * (1000 * h) - t <= 2 * (t * row.uptime) <= 2 * (1000 * h) + t
            && row.uptime <= 1000 && (row.uptime == 1000 <==> 2000 * (t - h) <= t)
  {
    hide HourlyOf, DailyRow, RunsOn, RawCount, Nearest, Weigh;
    var rs := HourlyOf(es);
    var date := Dates(rs)[i];
    TwoLevelCounts(es, i, Healthy);
    TwoLevelCounts(es, i, Runs);
    TwoLevelDates(es, date);
    CountedRuns(RunsOn(es, date), Healthy);
    UptimeIs(date, Bucket(rs, DateOf(), date));
    var h, t := Weigh(RunsOn(es, date), RawCount(Healthy)), |RunsOn(es, date)|;
    NearestBounds(1000 * h, t);
    NearestFull(h, t);
  }

  // ---------- the average ----------

  lemma TruncatedBounds(a: int, n: int)
    requires n > 0 && a >= 0
    ensures Truncated(a, n) * n <= a < Truncated(a, n) * n + n && Truncated(a, n) >= 0
  {}

  /** A bucket's total duration lies within one run's worth of milliseconds of its rounded average. */
  lemma BucketAverage(hour: string, es: seq<Raw>)
    requires es != [] && forall e :: e in es ==> e.duration >= 0
    ensures var row := HourlyRow(hour, es);
            && AverageTimesRuns()(row) <= Weigh(es, Duration()) <= AverageTimesRuns()(row) + row.counts.total - 1
            && row.counts.total >= 1 && AverageTimesRuns()(row) >= 0
  {
    WeighNotNegative(es, Duration());
    TruncatedBounds(Weigh(es, Duration()), |es|);
  }

  /** What the rounded averages of some hours miss of the total duration. */
  ghost predicate RoundingBound(rows: seq<Hourly>, s: int) {
    && 0 <= Weigh(rows, AverageTimesRuns()) <= s
    && s <= Weigh(rows, AverageTimesRuns()) + Weigh(rows, HourlyCount(Runs)) - |rows|
  }

  lemma RoundingStep(rows: seq<Hourly>, s: int, hour: string, es: seq<Raw>)
    requires RoundingBound(rows, s)
    requires es != [] && forall e :: e in es ==> e.duration >= 0
    ensures RoundingBound(rows + [HourlyRow(hour, es)], s + Weigh(es, Duration()))
  {
    hide HourlyRow, AverageTimesRuns, Duration, Weigh;
    var row := HourlyRow(hour, es);
    BucketAverage(hour, es);
    WeighOne(rows, row, AverageTimesRuns());
    WeighOne(rows, row, HourlyCount(Runs));
  }

  /** The selected rows and bucket weights with one more hour. */
  lemma OneMoreHour(hours: seq<string>, h: string, es: seq<Raw>, p: string -> bool)
    ensures var row := HourlyRow(h, Bucket(es, HourOf(), h));
            var rows, sum := Select(HourlyRows(hours, es), HourWith(p)),
                             WeighBuckets(Select(hours, p), es, HourOf(), Duration());
            var rows', sum' := Select(HourlyRows(hours + [h], es), HourWith(p)),
                               WeighBuckets(Select(hours + [h], p), es, HourOf(), Duration());
            if p(h) then rows' == rows + [row] && sum' == sum + Weigh(Bucket(es, HourOf(), h), Duration())
            else rows' == rows && sum' == sum
  {
    hide HourlyRow, Bucket, Duration, Weigh;
    assert HourlyRows(hours + [h], es) == HourlyRows(hours, es) + [HourlyRow(h, Bucket(es, HourOf(), h))];
    BucketsOne(Select(hours, p), h, es, HourOf(), Duration());
    SelectOne(hours, p, h);
    SelectOne(HourlyRows(hours, es), HourWith(p), HourlyRow(h, Bucket(es, HourOf(), h)));
    hide Select, WeighBuckets;
  }

  /** Summed over the hours of a day, the rounding costs less than one millisecond per run. */
  lemma {:induction false} AveragesBound(hours: seq<string>, es: seq<Raw>, p: string -> bool)
    requires forall e :: e in es ==> e.duration >= 0
    requires forall h :: h in hours ==> Bucket(es, HourOf(), h) != []
    ensures RoundingBound(Select(HourlyRows(hours, es), HourWith(p)),
                          WeighBuckets(Select(hours, p), es, HourOf(), Duration()))
  {
    hide *;
    if hours != [] {
      var init, h := hours[..|hours| - 1], hours[|hours| - 1];
      assert hours == init + [h];
      AveragesBound(init, es, p);
      OneMoreHour(init, h, es, p);
      BucketRuns(es, h);
      if p(h) {
        RoundingStep(Select(HourlyRows(init, es), HourWith(p)),
                     WeighBuckets(Select(init, p), es, HourOf(), Duration()), h, Bucket(es, HourOf(), h));
      }
    } else {
      NoRounding(es, p);
    }
  }

  lemma NoRounding(es: seq<Raw>, p: string -> bool)
    ensures RoundingBound(Select(HourlyRows([], es), HourWith(p)),
                          WeighBuckets(Select([], p), es, HourOf(), Duration()))
  {
    assert HourlyRows([], es) == [];
  }

  lemma BucketRuns(es: seq<Raw>, hour: string)
    ensures forall e :: e in Bucket(es, HourOf(), hour) ==> e in es
  {
    forall e | e in Bucket(es, HourOf(), hour) ensures e in es {
      SelectMembers(es, InBucket(HourOf(), hour), e);
    }
  }

  lemma HoursHaveRuns(es: seq<Raw>, hour: string)
    requires hour in Hours(es)
    ensures Bucket(es, HourOf(), hour) != []
  {
    SortMembers(Keys(es, HourOf()), hour);
    var e :| e in es && HourOf()(e) == Some(hour);
    SelectMembers(es, InBucket(HourOf(), hour), e);
  }

  lemma DayAverage(t: int, w: int, s: int, rows: int)
    requires t > 0 && rows > 0 && 0 <= w <= s <= w + t - rows
    ensures t * Truncated(w, t) <= s < t * (Truncated(w, t) + 2)
  {}

  /** The daily average, truncated at both levels, is at most the true mean and less than two
      milliseconds below it. */
  lemma AverageError(es: seq<Raw>, i: nat)
    requires i < |DailyOf(HourlyOf(es))|
    requires forall e :: e in es ==> e.duration >= 0
    ensures var row := DailyOf(HourlyOf(es))[i];
            var s := Weigh(RunsOn(es, row.date), Duration());
            row.counts.total > 0 && row.counts.total * row.avg <= s < row.counts.total * (row.avg + 2)
  {
    hide HourlyOf, DailyRow, RunsOn, Duration;
    DayIsBounded(es, Dates(HourlyOf(es))[i]);
  }

  lemma DayIsBounded(es: seq<Raw>, date: string)
    requires forall e :: e in es ==> e.duration >= 0
    requires date in Dates(HourlyOf(es))
    ensures var rs := HourlyOf(es);
            var row := DailyRow(date, Bucket(rs, DateOf(), date));
            var s := Weigh(RunsOn(es, date), Duration());
            row.counts.total > 0 && row.counts.total * row.avg <= s < row.counts.total * (row.avg + 2)
  {
    var rs := HourlyOf(es);
    var day := Select(rs, HourWith(OnDate(date)));
    hide HourlyRow, Bucket, Select, HourlyCount, AverageTimesRuns, Duration, HourOf, DateOf, HourWith, OnDate, KeyWith,
      Truncated, HourlyRows, Dates;
    forall h | h in Hours(es) ensures Bucket(es, HourOf(), h) != [] { HoursHaveRuns(es, h); }
    DayHasRows(rs, date);
    DayBucket(rs, date);
    AveragesBound(Hours(es), es, OnDate(date));
    GroupedWeight(es, HourOf(), OnDate(date), Duration());
    var t, w := Weigh(day, HourlyCount(Runs)), Weigh(day, AverageTimesRuns());
    DayAverage(t, w, Weigh(RunsOn(es, date), Duration()), |day|);
  }

  lemma DayHasRows(rs: seq<Hourly>, date: string)
    requires date in Dates(rs)
    ensures Select(rs, HourWith(OnDate(date))) != []
  {
    SortMembers(Keys(rs, DateOf()), date);
    var r :| r in rs && DateOf()(r) == Some(date);
    SelectMembers(rs, HourWith(OnDate(date)), r);
  }
}
