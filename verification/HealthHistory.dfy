/** Health history: raw runs rolled up by hour, then by day, under a retention policy. */
module HealthHistory {
  import opened Options
  import opened Grouping
  import opened Sequences

  /** What strftime prints for an hour: at least a one-digit year and nine more characters. */
  type HourKey = h: string | |h| >= 10 witness "2026-03-03"

  datatype Stamp = Stamp(hour: HourKey, instant: int)

  /** A raw run; the stamp is None when the timestamp does not parse. */
  datatype Raw = Raw(stamp: Option<Stamp>, status: string, duration: int, failedChecks: set<string>)

  datatype Counts = Counts(total: nat, healthy: nat, degraded: nat, failed: nat)

  datatype Hourly = Hourly(hour: string, counts: Counts, avg: int, failedChecks: set<string>)

  /** The uptime is in tenths of a percent. */
  datatype Daily = Daily(date: string, counts: Counts, avg: int, uptime: nat, recurring: set<string>)

  datatype Counter = Runs | Healthy | Degraded | Failed

  function Of(k: Counts, c: Counter): nat {
    match c
    case Runs => k.total
    case Healthy => k.healthy
    case Degraded => k.degraded
    case Failed => k.failed
  }

  predicate Counted(e: Raw, c: Counter) {
    match c
    case Runs => true
    case Healthy => e.status == "healthy"
    case Degraded => e.status == "degraded"
    case Failed => e.status == "failed"
  }

  function RawCount(c: Counter): Raw -> int {
    (e: Raw) => if Counted(e, c) then 1 else 0
  }

  function HourlyCount(c: Counter): Hourly -> int {
    (r: Hourly) => Of(r.counts, c)
  }

  function DailyCount(c: Counter): Daily -> int {
    (r: Daily) => Of(r.counts, c)
  }

  function Duration(): Raw -> int {
    (e: Raw) => e.duration
  }

  function AverageTimesRuns(): Hourly -> int {
    (r: Hourly) => r.avg * r.counts.total
  }

  function HourOf(): Raw -> Option<string> {
    (e: Raw) => if e.stamp.Some? then Some(e.stamp.value.hour) else None
  }

  /** Rows whose hour is shorter than a date are ignored. */
  function DateOf(): Hourly -> Option<string> {
    (r: Hourly) => if |r.hour| >= 10 then Some(r.hour[..10]) else None
  }

  /** Integer conversion of a quotient truncates toward zero. */
  function Truncated(a: int, n: int): int
    requires n > 0
  {
    if a >= 0 then a / n else -((-a) / n)
  }

  function CountRaw(es: seq<Raw>, c: Counter): (n: nat)
    ensures n == Weigh(es, RawCount(c))
  {
    WeighNotNegative(es, RawCount(c));
    Weigh(es, RawCount(c))
  }

  function CountHourly(rs: seq<Hourly>, c: Counter): (n: nat)
    ensures n == Weigh(rs, HourlyCount(c))
  {
    WeighNotNegative(rs, HourlyCount(c));
    Weigh(rs, HourlyCount(c))
  }

  function HourlyRow(hour: string, es: seq<Raw>): (row: Hourly)
    ensures row.hour == hour
  {
    Hourly(hour,
           Counts(|es|, CountRaw(es, Healthy), CountRaw(es, Degraded), CountRaw(es, Failed)),
           if es != [] then Truncated(Weigh(es, Duration()), |es|) else 0,
           set e, c | e in es && c in e.failedChecks :: c)
  }

  /** How many of the hours list a check as failed. */
  function Fails(check: string): Hourly -> int {
    (r: Hourly) => if check in r.failedChecks then 1 else 0
  }

  /** The quotient rounded to the nearest integer, a tie to the even one. */
  function Nearest(a: nat, n: nat): nat
    requires n > 0
  {
    var q, r := a / n, a % n;
    if 2 * r < n || (2 * r == n && q % 2 == 0) then q else q + 1
  }

  function DailyRow(date: string, rs: seq<Hourly>): (row: Daily)
    ensures row.date == date
  {
    var total := CountHourly(rs, Runs);
    Daily(date,
          Counts(total, CountHourly(rs, Healthy), CountHourly(rs, Degraded), CountHourly(rs, Failed)),
          if total > 0 then Truncated(Weigh(rs, AverageTimesRuns()), total) else 0,
          if total > 0 then Nearest(1000 * CountHourly(rs, Healthy), total) else 0,
          set r, c | r in rs && c in r.failedChecks && 2 * Weigh(rs, Fails(c)) > |rs| :: c)
  }

  function HourlyRows(hours: seq<string>, es: seq<Raw>): (rows: seq<Hourly>)
    ensures |rows| == |hours|
    ensures forall i :: 0 <= i < |rows| ==> rows[i] == HourlyRow(hours[i], Bucket(es, HourOf(), hours[i]))
  {
    seq(|hours|, i requires 0 <= i < |hours| => HourlyRow(hours[i], Bucket(es, HourOf(), hours[i])))
  }

  function DailyRows(dates: seq<string>, rs: seq<Hourly>): (rows: seq<Daily>)
    ensures |rows| == |dates|
    ensures forall i :: 0 <= i < |rows| ==> rows[i] == DailyRow(dates[i], Bucket(rs, DateOf(), dates[i]))
  {
    seq(|dates|, i requires 0 <= i < |dates| => DailyRow(dates[i], Bucket(rs, DateOf(), dates[i])))
  }

  function Hours(es: seq<Raw>): seq<string> {
    Sort(Keys(es, HourOf()))
  }

  function Dates(rs: seq<Hourly>): seq<string> {
    Sort(Keys(rs, DateOf()))
  }

  function HourlyOf(es: seq<Raw>): seq<Hourly> {
    HourlyRows(Hours(es), es)
  }

  function DailyOf(rs: seq<Hourly>): seq<Daily> {
    DailyRows(Dates(rs), rs)
  }

  method AggregateHourly(es: seq<Raw>) returns (rows: seq<Hourly>)
    ensures rows == HourlyOf(es)
  {
    hide HourlyRow, Bucket, Keys, HourOf;
    var order, buckets := FillBuckets(es, HourOf());
    var keys := Sort(order);
    rows := [];
    for i := 0 to |keys|
      invariant rows == HourlyRows(keys[..i], es)
    {
      SortMembers(order, keys[i]);
      rows := rows + [HourlyRow(keys[i], buckets[keys[i]])];
    }
    assert keys[..|keys|] == keys;
  }

  method AggregateDaily(rs: seq<Hourly>) returns (rows: seq<Daily>)
    ensures rows == DailyOf(rs)
  {
    hide DailyRow, Bucket, Keys, DateOf;
    var order, buckets := FillBuckets(rs, DateOf());
    var keys := Sort(order);
    rows := [];
    for i := 0 to |keys|
      invariant rows == DailyRows(keys[..i], rs)
    {
      SortMembers(order, keys[i]);
      rows := rows + [DailyRow(keys[i], buckets[keys[i]])];
    }
    assert keys[..|keys|] == keys;
  }

  // ---------- rotation ----------

  const DAY := 86400000000 // microseconds

  datatype Retention = Retention(rawDays: int, hourlyDays: int, dailyDays: int)

  /** When the hour and date strings of rows begin, if they parse. */
  datatype Calendar = Calendar(hourAt: string -> Option<int>, dateAt: string -> Option<int>)

  datatype History = History(raw: seq<Raw>, hourly: seq<Hourly>, daily: seq<Daily>)

  function Recent(cutoff: int): Raw -> bool {
    (e: Raw) => e.stamp.Some? && e.stamp.value.instant >= cutoff
  }

  function Old(cutoff: int): Raw -> bool {
    (e: Raw) => e.stamp.Some? && e.stamp.value.instant < cutoff
  }

  /** A row whose hour does not parse is kept for ever. */
  predicate KeepsHour(cal: Calendar, cutoff: int, hour: string) {
    cal.hourAt(hour).None? || cal.hourAt(hour).value >= cutoff
  }

  predicate KeepsDate(cal: Calendar, cutoff: int, date: string) {
    cal.dateAt(date).None? || cal.dateAt(date).value >= cutoff
  }

  function HourKept(cal: Calendar, cutoff: int): Hourly -> bool {
    (r: Hourly) => KeepsHour(cal, cutoff, r.hour)
  }

  function HourExpired(cal: Calendar, cutoff: int): Hourly -> bool {
    (r: Hourly) => !KeepsHour(cal, cutoff, r.hour)
  }

  function DateKept(cal: Calendar, cutoff: int): Daily -> bool {
    (r: Daily) => KeepsDate(cal, cutoff, r.date)
  }

  function HoursIn(rows: seq<Hourly>): set<string> {
    set r | r in rows :: r.hour
  }

  function DatesIn(rows: seq<Daily>): set<string> {
    set r | r in rows :: r.date
  }

  function NewHour(seen: set<string>): Hourly -> bool {
    (r: Hourly) => r.hour !in seen
  }

  function NewDate(seen: set<string>): Daily -> bool {
    (r: Daily) => r.date !in seen
  }

  function OldRaw(s: History, now: int, keep: Retention): seq<Raw> {
    Select(s.raw, Old(now - keep.rawDays * DAY))
  }

  /** The hourly file with the rows for hours it did not have. */
  function MergedHourly(s: History, now: int, keep: Retention): seq<Hourly> {
    s.hourly + Select(HourlyOf(OldRaw(s, now, keep)), NewHour(HoursIn(s.hourly)))
  }

  function Expired(cal: Calendar, s: History, now: int, keep: Retention): seq<Hourly> {
    Select(MergedHourly(s, now, keep), HourExpired(cal, now - keep.hourlyDays * DAY))
  }

  function MergedDaily(cal: Calendar, s: History, now: int, keep: Retention): seq<Daily> {
    s.daily + Select(DailyOf(Expired(cal, s, now, keep)), NewDate(DatesIn(s.daily)))
  }

  function Rotated(cal: Calendar, s: History, now: int, keep: Retention): History {
    History(Select(s.raw, Recent(now - keep.rawDays * DAY)),
            Select(MergedHourly(s, now, keep), HourKept(cal, now - keep.hourlyDays * DAY)),
            Select(MergedDaily(cal, s, now, keep), DateKept(cal, now - keep.dailyDays * DAY)))
  }

  function NotIn(rows: seq<Hourly>): Hourly -> bool {
    (r: Hourly) => r !in rows
  }

  lemma NotInMeans(rows: seq<Hourly>, r: Hourly)
    ensures NotIn(rows)(r) <==> r !in rows
  {}

  /** A row is missing from the kept rows exactly when its hour has expired. */
  lemma NotKeptIsExpired(cal: Calendar, rows: seq<Hourly>, cutoff: int)
    ensures Select(rows, NotIn(Select(rows, HourKept(cal, cutoff)))) == Select(rows, HourExpired(cal, cutoff))
  {
    var kept := Select(rows, HourKept(cal, cutoff));
    forall r | r in rows ensures NotIn(kept)(r) == HourExpired(cal, cutoff)(r) {
      SelectMembers(rows, HourKept(cal, cutoff), r);
      NotInMeans(kept, r);
    }
    SelectSame(rows, NotIn(kept), HourExpired(cal, cutoff));
  }

  /** The three history files. */
  class HealthStore {
    const calendar: Calendar
    var raw: seq<Raw>
    var hourly: seq<Hourly>
    var daily: seq<Daily>

    constructor (calendar: Calendar)
      ensures this.calendar == calendar && Snapshot() == History([], [], [])
    {
      this.calendar := calendar;
      raw, hourly, daily := [], [], [];
    }

    ghost function Snapshot(): History
      reads this
    {
      History(raw, hourly, daily)
    }

    /** Splits the raw runs; runs without a timestamp go to neither list. */
    method SplitRaw(cutoff: int) returns (recent: seq<Raw>, old_: seq<Raw>)
      ensures recent == Select(raw, Recent(cutoff)) && old_ == Select(raw, Old(cutoff))
    {
      recent, old_ := [], [];
      for i := 0 to |raw|
        invariant recent == Select(raw[..i], Recent(cutoff)) && old_ == Select(raw[..i], Old(cutoff))
      {
        assert raw[..i + 1][..i] == raw[..i];
        var e := raw[i];
        if e.stamp.Some? && e.stamp.value.instant >= cutoff {
          recent := recent + [e];
        } else if e.stamp.Some? {
          old_ := old_ + [e];
        }
      }
      assert raw[..|raw|] == raw;
    }

    method MergeHourly(rows: seq<Hourly>) returns (merged: seq<Hourly>)
      ensures merged == hourly + Select(rows, NewHour(HoursIn(hourly)))
    {
      merged := hourly;
      var seen := HoursIn(hourly);
      for i := 0 to |rows|
        invariant merged == hourly + Select(rows[..i], NewHour(seen))
      {
        assert rows[..i + 1][..i] == rows[..i];
        if rows[i].hour !in seen {
          merged := merged + [rows[i]];
        }
      }
      assert rows[..|rows|] == rows;
    }

    method MergeDaily(rows: seq<Daily>) returns (merged: seq<Daily>)
      ensures merged == daily + Select(rows, NewDate(DatesIn(daily)))
    {
      merged := daily;
      var seen := DatesIn(daily);
      for i := 0 to |rows|
        invariant merged == daily + Select(rows[..i], NewDate(seen))
      {
        assert rows[..i + 1][..i] == rows[..i];
        if rows[i].date !in seen {
          merged := merged + [rows[i]];
        }
      }
      assert rows[..|rows|] == rows;
    }

    method RotateWithRollup(now: int, keep: Retention) returns (rawKept: nat, hourlyKept: nat, dailyKept: nat)
      modifies this
      ensures Snapshot() == Rotated(calendar, old(Snapshot()), now, keep)
      ensures rawKept == |raw| && hourlyKept == |hourly| && dailyKept == |daily|
    {
      hide Select, HourlyOf, DailyOf;
      var recent, old_ := SplitRaw(now - keep.rawDays * DAY);
      var newHourly := AggregateHourly(old_);
      var merged := MergeHourly(newHourly);
      var kept := Select(merged, HourKept(calendar, now - keep.hourlyDays * DAY));
      NotKeptIsExpired(calendar, merged, now - keep.hourlyDays * DAY);
      var newDaily := AggregateDaily(Select(merged, NotIn(kept)));
      var mergedDaily := MergeDaily(newDaily);
      raw, hourly := recent, kept;
      daily := Select(mergedDaily, DateKept(calendar, now - keep.dailyDays * DAY));
      rawKept, hourlyKept, dailyKept := |raw|, |hourly|, |daily|;
    }
  }
}
