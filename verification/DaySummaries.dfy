/** What a day's row and a rotated history say of the raw runs, told on statuses, check names and instants. */
module DaySummaries {
  import opened Grouping
  import opened HealthHistory
  import opened HealthHistoryRuns
  import opened Options
  import opened Sequences

  // ---------- the counts ----------

  function HasStatus(status: string): Raw -> bool {
    (e: Raw) => e.status == status
  }

  lemma {:induction false} WeighIsCount(es: seq<Raw>)
    ensures Weigh(es, RawCount(Runs)) == |es|
    ensures Weigh(es, RawCount(Healthy)) == |Select(es, HasStatus("healthy"))|
    ensures Weigh(es, RawCount(Degraded)) == |Select(es, HasStatus("degraded"))|
    ensures Weigh(es, RawCount(Failed)) == |Select(es, HasStatus("failed"))|
  {
    if es != [] {
      WeighIsCount(es[..|es| - 1]);
    }
  }

  /** A day's row counts the runs of the day, and those of each status. */
  lemma DayCounts(es: seq<Raw>, i: nat)
    requires i < |DailyOf(HourlyOf(es))|
    ensures var row := DailyOf(HourlyOf(es))[i];
            var runs := RunsOn(es, row.date);
            && row.counts.total == |runs|
            && row.counts.healthy == |Select(runs, HasStatus("healthy"))|
            && row.counts.degraded == |Select(runs, HasStatus("degraded"))|
            && row.counts.failed == |Select(runs, HasStatus("failed"))|
  {
    hide DailyOf, HourlyOf, RunsOn, Weigh, Select;
    TwoLevelCounts(es, i, Runs);
    TwoLevelCounts(es, i, Healthy);
    TwoLevelCounts(es, i, Degraded);
    TwoLevelCounts(es, i, Failed);
    WeighIsCount(RunsOn(es, DailyOf(HourlyOf(es))[i].date));
  }

  // ---------- recurring checks ----------

  /** The hours of a date in which some run happened. */
  function HoursOn(es: seq<Raw>, date: string): set<string> {
    set e | e in es && e.stamp.Some? && HourOnDate(e.stamp.value.hour, date) :: e.stamp.value.hour
  }

  /** Those in which some run failed the check. */
  function HoursFailing(es: seq<Raw>, date: string, check: string): set<string> {
    set e | e in es && e.stamp.Some? && HourOnDate(e.stamp.value.hour, date) && check in e.failedChecks
      :: e.stamp.value.hour
  }

  ghost predicate FailsIn(es: seq<Raw>, check: string, hour: string) {
    exists e :: e in es && e.stamp.Some? && e.stamp.value.hour == hour && check in e.failedChecks
  }

  ghost function FailedIn(es: seq<Raw>, check: string): string -> bool {
    hour => FailsIn(es, check, hour)
  }

  lemma RowFails(es: seq<Raw>, check: string, hour: string)
    ensures Fails(check)(HourlyRow(hour, Bucket(es, HourOf(), hour))) == if FailsIn(es, check, hour) then 1 else 0
  {
    var b := Bucket(es, HourOf(), hour);
    forall e ensures e in b <==> e in es && e.stamp.Some? && e.stamp.value.hour == hour {
      SelectMembers(es, InBucket(HourOf(), hour), e);
    }
  }

  /** The rows and the hours they are of, and how many of either fail. */
  ghost predicate Matching(rows: seq<Hourly>, hours: seq<string>, es: seq<Raw>, check: string) {
    |rows| == |hours| && Weigh(rows, Fails(check)) == |Select(hours, FailedIn(es, check))|
  }

  lemma MatchingSnoc(rows: seq<Hourly>, hours: seq<string>, es: seq<Raw>, check: string, h: string)
    requires Matching(rows, hours, es, check)
    ensures Matching(rows + [HourlyRow(h, Bucket(es, HourOf(), h))], hours + [h], es, check)
  {
    hide HourlyRow, Bucket, Fails, FailsIn;
    RowFails(es, check, h);
    WeighOne(rows, HourlyRow(h, Bucket(es, HourOf(), h)), Fails(check));
    SelectOne(hours, FailedIn(es, check), h);
    hide Select, Weigh;
  }

  lemma {:induction false} RowsFail(hours: seq<string>, es: seq<Raw>, p: string -> bool, check: string)
    ensures Matching(Select(HourlyRows(hours, es), HourWith(p)), Select(hours, p), es, check)
  {
    hide HourlyRow, Bucket, Matching, HourlyRows, Select;
    if hours != [] {
      var init, h := hours[..|hours| - 1], hours[|hours| - 1];
      assert hours == init + [h];
      RowsFail(init, es, p, check);
      OneRow(init, h, es, p);
      SelectOne(init, p, h);
      if p(h) {
        MatchingSnoc(Select(HourlyRows(init, es), HourWith(p)), Select(init, p), es, check, h);
      } else {
        assert Select(init, p) + [] == Select(init, p);
        assert Select(HourlyRows(init, es), HourWith(p)) + [] == Select(HourlyRows(init, es), HourWith(p));
      }
    } else {
      NoRowsMatch(es, p, check);
    }
  }

  lemma NoRowsMatch(es: seq<Raw>, p: string -> bool, check: string)
    ensures Matching(Select(HourlyRows([], es), HourWith(p)), Select([], p), es, check)
  {
    assert HourlyRows([], es) == [];
  }

  lemma OneRow(hours: seq<string>, h: string, es: seq<Raw>, p: string -> bool)
    ensures Select(HourlyRows(hours + [h], es), HourWith(p)) ==
            Select(HourlyRows(hours, es), HourWith(p))
            + (if p(h) then [HourlyRow(h, Bucket(es, HourOf(), h))] else [])
  {
    OneMoreHour(hours, h, es, p);
    hide HourlyRow, Bucket, HourlyRows, Select;
    var rows := Select(HourlyRows(hours, es), HourWith(p));
    assert rows + [] == rows;
  }

  /** A check recurs on a day exactly when it failed in more than half of the hours with runs. */
  lemma RecursIff(es: seq<Raw>, i: nat, check: string)
    requires i < |DailyOf(HourlyOf(es))|
    ensures var row := DailyOf(HourlyOf(es))[i];
            check in row.recurring <==> 2 * |HoursFailing(es, row.date, check)| > |HoursOn(es, row.date)|
  {
    var date := DailyOf(HourlyOf(es))[i].date;
    var hours := Select(Hours(es), OnDate(date));
    RecursOnRows(date, Bucket(HourlyOf(es), DateOf(), date), check);
    DayBucket(HourlyOf(es), date);
    RowsFail(Hours(es), es, OnDate(date), check);
    HoursDistinct(es, OnDate(date));
    SelectNoRepeats(hours, FailedIn(es, check));
    NoRepeatsSet(hours);
    NoRepeatsSet(Select(hours, FailedIn(es, check)));
    HoursAre(es, date, check);
    hide DailyRow, Bucket, Select, Hours, OnDate, HourWith, HoursOn, HoursFailing, FailedIn, Weigh, Fails, HourlyRows;
  }

  lemma {:induction false} SomeFails(rs: seq<Hourly>, check: string)
    requires Weigh(rs, Fails(check)) > 0
    ensures exists r :: r in rs && check in r.failedChecks
  {
    if check in rs[|rs| - 1].failedChecks {
      assert rs[|rs| - 1] in rs;
    } else {
      SomeFails(rs[..|rs| - 1], check);
    }
  }

  lemma RecursOnRows(date: string, rs: seq<Hourly>, check: string)
    ensures check in DailyRow(date, rs).recurring <==> 2 * Weigh(rs, Fails(check)) > |rs|
  {
    hide Weigh;
    if 2 * Weigh(rs, Fails(check)) > |rs| {
      SomeFails(rs, check);
    }
  }

  lemma HoursDistinct(es: seq<Raw>, p: string -> bool)
    ensures NoRepeats(Select(Hours(es), p))
  {
    SortAscending(Keys(es, HourOf()));
    AscendingNoRepeats(Hours(es));
    SelectNoRepeats(Hours(es), p);
  }

  lemma HoursAre(es: seq<Raw>, date: string, check: string)
    ensures var hours := Select(Hours(es), OnDate(date));
            && (set h | h in hours) == HoursOn(es, date)
            && (set h | h in Select(hours, FailedIn(es, check))) == HoursFailing(es, date, check)
  {
    var hours := Select(Hours(es), OnDate(date));
    forall h ensures (h in hours <==> h in HoursOn(es, date))
                     && (h in Select(hours, FailedIn(es, check)) <==> h in HoursFailing(es, date, check)) {
      SelectMembers(Hours(es), OnDate(date), h);
      SelectMembers(hours, FailedIn(es, check), h);
      SortMembers(Keys(es, HourOf()), h);
    }
  }

  // ---------- what a rotation keeps ----------

  /** Exactly the raw runs within the raw retention stay, and of the rows those within their own retention,
      as well as those whose hour or date does not parse; the rows that were there come first, in order. */
  lemma RotationKeeps(cal: Calendar, s: History, now: int, keep: Retention)
    ensures var s', day := Rotated(cal, s, now, keep), 86400 * 1000000;
            && (forall e :: e in s'.raw <==>
                  e in s.raw && e.stamp.Some? && e.stamp.value.instant >= now - keep.rawDays * day)
            && Select(s.hourly, HourKept(cal, now - keep.hourlyDays * day)) <= s'.hourly
            && Select(s.daily, DateKept(cal, now - keep.dailyDays * day)) <= s'.daily
            && (forall r :: r in s'.hourly ==>
                  cal.hourAt(r.hour).None? || cal.hourAt(r.hour).value >= now - keep.hourlyDays * day)
            && (forall r :: r in s'.daily ==>
                  cal.dateAt(r.date).None? || cal.dateAt(r.date).value >= now - keep.dailyDays * day)
            && (forall r :: r in s.hourly && r !in s'.hourly ==>
                  cal.hourAt(r.hour).Some? && cal.hourAt(r.hour).value < now - keep.hourlyDays * day)
            && (forall r :: r in s.daily && r !in s'.daily ==>
                  cal.dateAt(r.date).Some? && cal.dateAt(r.date).value < now - keep.dailyDays * day)
  {
    hide Select;
    SelectJoin(s.hourly, Select(HourlyOf(OldRaw(s, now, keep)), NewHour(HoursIn(s.hourly))),
               HourKept(cal, now - keep.hourlyDays * DAY));
    SelectJoin(s.daily, Select(DailyOf(Expired(cal, s, now, keep)), NewDate(DatesIn(s.daily))),
               DateKept(cal, now - keep.dailyDays * DAY));
    forall e ensures e in Rotated(cal, s, now, keep).raw <==> e in s.raw && Recent(now - keep.rawDays * DAY)(e) {
      SelectMembers(s.raw, Recent(now - keep.rawDays * DAY), e);
    }
    forall r ensures r in Rotated(cal, s, now, keep).hourly <==>
                     r in MergedHourly(s, now, keep) && HourKept(cal, now - keep.hourlyDays * DAY)(r) {
      SelectMembers(MergedHourly(s, now, keep), HourKept(cal, now - keep.hourlyDays * DAY), r);
    }
    forall r ensures r in Rotated(cal, s, now, keep).daily <==>
                     r in MergedDaily(cal, s, now, keep) && DateKept(cal, now - keep.dailyDays * DAY)(r) {
      SelectMembers(MergedDaily(cal, s, now, keep), DateKept(cal, now - keep.dailyDays * DAY), r);
    }
  }
}
