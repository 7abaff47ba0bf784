/** Rotating the health history: every run it keeps and every run it drops is accounted for. */
module Rotation {
  import opened Options
  import opened Grouping
  import opened HealthHistory
  import opened HealthHistoryRuns
  import opened Sequences

  /** A counter summed over the three files. */
  function Total(s: History, c: Counter): int {
    Weigh(s.raw, RawCount(c)) + Weigh(s.hourly, HourlyCount(c)) + Weigh(s.daily, DailyCount(c))
  }

  // ---------- what a rotation drops ----------

  function Unparsed(): Raw -> bool {
    (e: Raw) => e.stamp.None?
  }

  function SeenHour(seen: set<string>): Raw -> bool {
    (e: Raw) => e.stamp.Some? && e.stamp.value.hour in seen
  }

  /** The row's hour is too short to hold a date, or the date already had a row. */
  function NoNewDate(seen: set<string>): Hourly -> bool {
    (r: Hourly) => |r.hour| < 10 || r.hour[..10] in seen
  }

  function DateAged(cal: Calendar, cutoff: int): Daily -> bool {
    (r: Daily) => !KeepsDate(cal, cutoff, r.date)
  }

  /** Raw runs whose timestamp does not parse. */
  function DroppedUnparsed(s: History): seq<Raw> {
    Select(s.raw, Unparsed())
  }

  /** Old raw runs of an hour that already had a row. */
  function DroppedRaw(s: History, now: int, keep: Retention): seq<Raw> {
    Select(OldRaw(s, now, keep), SeenHour(HoursIn(s.hourly)))
  }

  /** Expired hours of a date that already had a row. */
  function DroppedHourly(cal: Calendar, s: History, now: int, keep: Retention): seq<Hourly> {
    Select(Expired(cal, s, now, keep), NoNewDate(DatesIn(s.daily)))
  }

  /** Dates past the daily retention. */
  function DroppedDaily(cal: Calendar, s: History, now: int, keep: Retention): seq<Daily> {
    Select(MergedDaily(cal, s, now, keep), DateAged(cal, now - keep.dailyDays * DAY))
  }

  function Lost(cal: Calendar, s: History, now: int, keep: Retention, c: Counter): (n: nat)
    ensures n == Weigh(DroppedUnparsed(s), RawCount(c)) + Weigh(DroppedRaw(s, now, keep), RawCount(c))
                 + Weigh(DroppedHourly(cal, s, now, keep), HourlyCount(c))
                 + Weigh(DroppedDaily(cal, s, now, keep), DailyCount(c))
  {
    WeighNotNegative(DroppedUnparsed(s), RawCount(c));
    WeighNotNegative(DroppedRaw(s, now, keep), RawCount(c));
    WeighNotNegative(DroppedHourly(cal, s, now, keep), HourlyCount(c));
    WeighNotNegative(DroppedDaily(cal, s, now, keep), DailyCount(c));
    Weigh(DroppedUnparsed(s), RawCount(c)) + Weigh(DroppedRaw(s, now, keep), RawCount(c))
    + Weigh(DroppedHourly(cal, s, now, keep), HourlyCount(c)) + Weigh(DroppedDaily(cal, s, now, keep), DailyCount(c))
  }

  // ---------- the account ----------

  function Parsed(): Raw -> bool {
    (e: Raw) => e.stamp.Some?
  }

  lemma {:induction false} SelectTwice<E>(s: seq<E>, p: E -> bool, q: E -> bool)
    requires forall e :: e in s ==> (q(e) ==> p(e))
    ensures Select(Select(s, p), q) == Select(s, q)
  {
    if s != [] {
      var init, last := s[..|s| - 1], s[|s| - 1];
      SelectTwice(init, p, q);
      assert last in s;
      assert (Select(init, p) + [last])[..|Select(init, p)|] == Select(init, p);
    }
  }

  lemma RawAccount(s: seq<Raw>, cutoff: int, c: Counter)
    ensures Weigh(s, RawCount(c)) ==
            Weigh(Select(s, Recent(cutoff)), RawCount(c)) + Weigh(Select(s, Old(cutoff)), RawCount(c))
            + Weigh(Select(s, Unparsed()), RawCount(c))
  {
    forall e: Raw ensures Parsed()(e) == !Unparsed()(e) && Recent(cutoff)(e) == (Parsed()(e) && !Old(cutoff)(e)) {}
    WeighSplit(s, Parsed(), Unparsed(), RawCount(c));
    var parsed := Select(s, Parsed());
    forall e | e in parsed ensures Recent(cutoff)(e) == !Old(cutoff)(e) {
      SelectMembers(s, Parsed(), e);
    }
    WeighSplit(parsed, Recent(cutoff), Old(cutoff), RawCount(c));
    SelectTwice(s, Parsed(), Recent(cutoff));
    SelectTwice(s, Parsed(), Old(cutoff));
  }

  function Unseen(seen: set<string>): string -> bool {
    (k: string) => k !in seen
  }

  /** Of the old raw runs, those of new hours reach the hourly file. */
  lemma HourlyMergeAccount(es: seq<Raw>, hourly: seq<Hourly>, c: Counter)
    requires forall e :: e in es ==> e.stamp.Some?
    ensures Weigh(es, RawCount(c)) ==
            Weigh(Select(HourlyOf(es), NewHour(HoursIn(hourly))), HourlyCount(c))
            + Weigh(Select(es, SeenHour(HoursIn(hourly))), RawCount(c))
  {
    hide HourlyOf, HoursIn, RawCount, HourlyCount;
    var seen := HoursIn(hourly);
    HourlyAccounts(es, Unseen(seen), c);
    forall r: Hourly ensures NewHour(seen)(r) == HourWith(Unseen(seen))(r) {}
    SelectSame(HourlyOf(es), NewHour(seen), HourWith(Unseen(seen)));
    forall e: Raw ensures e.stamp.Some? ==> KeyWith(HourOf(), Unseen(seen))(e) == !SeenHour(seen)(e) {}
    WeighSplit(es, KeyWith(HourOf(), Unseen(seen)), SeenHour(seen), RawCount(c));
  }

  /** Of the expired hours, those of new dates reach the daily file. */
  lemma DailyMergeAccount(rs: seq<Hourly>, daily: seq<Daily>, c: Counter)
    ensures Weigh(rs, HourlyCount(c)) ==
            Weigh(Select(DailyOf(rs), NewDate(DatesIn(daily))), DailyCount(c))
            + Weigh(Select(rs, NoNewDate(DatesIn(daily))), HourlyCount(c))
  {
    hide DailyOf, DatesIn, HourlyCount, DailyCount;
    var seen := DatesIn(daily);
    DailyAccounts(rs, Unseen(seen), c);
    forall r: Daily ensures NewDate(seen)(r) == DateWith(Unseen(seen))(r) {}
    SelectSame(DailyOf(rs), NewDate(seen), DateWith(Unseen(seen)));
    forall r: Hourly ensures KeyWith(DateOf(), Unseen(seen))(r) == !NoNewDate(seen)(r) {}
    WeighSplit(rs, KeyWith(DateOf(), Unseen(seen)), NoNewDate(seen), HourlyCount(c));
  }

  lemma HourSplit(cal: Calendar, rows: seq<Hourly>, cutoff: int, c: Counter)
    ensures Weigh(rows, HourlyCount(c)) ==
            Weigh(Select(rows, HourKept(cal, cutoff)), HourlyCount(c))
            + Weigh(Select(rows, HourExpired(cal, cutoff)), HourlyCount(c))
  {}

  lemma DateSplit(cal: Calendar, rows: seq<Daily>, cutoff: int, c: Counter)
    ensures Weigh(rows, DailyCount(c)) ==
            Weigh(Select(rows, DateKept(cal, cutoff)), DailyCount(c))
            + Weigh(Select(rows, DateAged(cal, cutoff)), DailyCount(c))
  {}

  lemma OldIsParsed(s: History, now: int, keep: Retention)
    ensures forall e :: e in OldRaw(s, now, keep) ==> e.stamp.Some? && e in s.raw
  {
    forall e | e in OldRaw(s, now, keep) ensures e.stamp.Some? && e in s.raw {
      SelectMembers(s.raw, Old(now - keep.rawDays * DAY), e);
    }
  }

  /** Nothing is counted twice and nothing vanishes unaccounted: for every counter, what a rotation
      leaves plus what it drops is what there was. */
  lemma RotationAccount(cal: Calendar, s: History, now: int, keep: Retention, c: Counter)
    ensures Total(Rotated(cal, s, now, keep), c) + Lost(cal, s, now, keep, c) == Total(s, c)
  {
    hide Select, HourlyOf, DailyOf, Weigh, RawCount, HourlyCount, DailyCount;
    var es, rs := OldRaw(s, now, keep), Expired(cal, s, now, keep);
    OldIsParsed(s, now, keep);
    RawAccount(s.raw, now - keep.rawDays * DAY, c);
    HourlyMergeAccount(es, s.hourly, c);
    WeighConcat(s.hourly, Select(HourlyOf(es), NewHour(HoursIn(s.hourly))), HourlyCount(c));
    HourSplit(cal, MergedHourly(s, now, keep), now - keep.hourlyDays * DAY, c);
    DailyMergeAccount(rs, s.daily, c);
    WeighConcat(s.daily, Select(DailyOf(rs), NewDate(DatesIn(s.daily))), DailyCount(c));
    DateSplit(cal, MergedDaily(cal, s, now, keep), now - keep.dailyDays * DAY, c);
  }

  lemma {:induction false} WeighZero<E>(s: seq<E>, w: E -> int)
    requires forall e :: e in s ==> w(e) >= 0
    ensures Weigh(s, w) == 0 <==> forall e :: e in s ==> w(e) == 0
  {
    if s != [] {
      var init, last := s[..|s| - 1], s[|s| - 1];
      assert s == init + [last];
      WeighNotNegative(init, w);
      WeighZero(init, w);
    }
  }

  /** A rotation keeps every run exactly when all timestamps parse, no rolled-up hour or date already
      had a row, and no daily row with runs has aged out. */
  lemma NothingLostIff(cal: Calendar, s: History, now: int, keep: Retention)
    ensures Total(Rotated(cal, s, now, keep), Runs) <= Total(s, Runs)
    ensures Total(Rotated(cal, s, now, keep), Runs) == Total(s, Runs) <==>
            && (forall e :: e in s.raw ==> e.stamp.Some?)
            && (forall e :: e in OldRaw(s, now, keep) ==> e.stamp.Some? ==> e.stamp.value.hour !in HoursIn(s.hourly))
            && (forall r :: r in Expired(cal, s, now, keep) && r.counts.total > 0 ==>
                  |r.hour| >= 10 && r.hour[..10] !in DatesIn(s.daily))
            && (forall r :: r in MergedDaily(cal, s, now, keep) && r.counts.total > 0 ==>
                  KeepsDate(cal, now - keep.dailyDays * DAY, r.date))
  {
    RotationAccount(cal, s, now, keep, Runs);
    OldIsParsed(s, now, keep);
    LostRaw(s.raw, Unparsed());
    LostRaw(OldRaw(s, now, keep), SeenHour(HoursIn(s.hourly)));
    LostHourly(Expired(cal, s, now, keep), NoNewDate(DatesIn(s.daily)));
    LostDaily(MergedDaily(cal, s, now, keep), DateAged(cal, now - keep.dailyDays * DAY));
    hide Select, Weigh, Total, Rotated, OldRaw, Expired, MergedDaily, HoursIn, DatesIn;
    WeighNotNegative(DroppedUnparsed(s), RawCount(Runs));
    WeighNotNegative(DroppedRaw(s, now, keep), RawCount(Runs));
    WeighNotNegative(DroppedHourly(cal, s, now, keep), HourlyCount(Runs));
    WeighNotNegative(DroppedDaily(cal, s, now, keep), DailyCount(Runs));
    DropConditions(cal, s, now - keep.dailyDays * DAY);
  }

  lemma LostRaw(es: seq<Raw>, p: Raw -> bool)
    ensures Weigh(Select(es, p), RawCount(Runs)) == 0 <==> forall e :: e in es ==> !p(e)
  {
    forall e ensures e in Select(es, p) <==> e in es && p(e) { SelectMembers(es, p, e); }
    WeighZero(Select(es, p), RawCount(Runs));
  }

  lemma LostHourly(rs: seq<Hourly>, p: Hourly -> bool)
    ensures Weigh(Select(rs, p), HourlyCount(Runs)) == 0 <==> forall r :: r in rs && r.counts.total > 0 ==> !p(r)
  {
    forall r ensures r in Select(rs, p) <==> r in rs && p(r) { SelectMembers(rs, p, r); }
    WeighZero(Select(rs, p), HourlyCount(Runs));
  }

  lemma LostDaily(rs: seq<Daily>, p: Daily -> bool)
    ensures Weigh(Select(rs, p), DailyCount(Runs)) == 0 <==> forall r :: r in rs && r.counts.total > 0 ==> !p(r)
  {
    forall r ensures r in Select(rs, p) <==> r in rs && p(r) { SelectMembers(rs, p, r); }
    WeighZero(Select(rs, p), DailyCount(Runs));
  }

  lemma DropConditions(cal: Calendar, s: History, cutoff: int)
    ensures forall e: Raw :: Unparsed()(e) <==> e.stamp.None?
    ensures forall e: Raw :: SeenHour(HoursIn(s.hourly))(e) <==>
              e.stamp.Some? && e.stamp.value.hour in HoursIn(s.hourly)
    ensures forall r: Hourly :: NoNewDate(DatesIn(s.daily))(r) <==> |r.hour| < 10 || r.hour[..10] in DatesIn(s.daily)
    ensures forall r: Daily :: DateAged(cal, cutoff)(r) <==> !KeepsDate(cal, cutoff, r.date)
  {}

  lemma RawSettled(s: seq<Raw>, cutoff: int)
    ensures var once := Select(s, Recent(cutoff));
            Select(once, Recent(cutoff)) == once && Select(once, Old(cutoff)) == []
  {}

  lemma HourlySettled(cal: Calendar, rows: seq<Hourly>, cutoff: int)
    ensures var once := Select(rows, HourKept(cal, cutoff));
            Select(once, HourKept(cal, cutoff)) == once && Select(once, HourExpired(cal, cutoff)) == []
  {}

  lemma DailySettled(cal: Calendar, rows: seq<Daily>, cutoff: int)
    ensures var once := Select(rows, DateKept(cal, cutoff)); Select(once, DateKept(cal, cutoff)) == once
  {}

  /** Rotating twice at the same moment changes nothing the second time. */
  lemma RotationIdempotent(cal: Calendar, s: History, now: int, keep: Retention)
    ensures var once := Rotated(cal, s, now, keep); Rotated(cal, once, now, keep) == once
  {
    hide Select, HourlyOf, DailyOf, HoursIn, DatesIn;
    var once := Rotated(cal, s, now, keep);
    EmptyMerge(once.hourly, once.daily);
    RawSettled(s.raw, now - keep.rawDays * DAY);
    assert MergedHourly(once, now, keep) == once.hourly;
    HourlySettled(cal, MergedHourly(s, now, keep), now - keep.hourlyDays * DAY);
    assert MergedDaily(cal, once, now, keep) == once.daily;
    DailySettled(cal, MergedDaily(cal, s, now, keep), now - keep.dailyDays * DAY);
  }

  lemma EmptyMerge(hourly: seq<Hourly>, daily: seq<Daily>)
    ensures hourly + Select(HourlyOf([]), NewHour(HoursIn(hourly))) == hourly
    ensures daily + Select(DailyOf([]), NewDate(DatesIn(daily))) == daily
  {}

  lemma NoRows()
    ensures HourlyOf([]) == [] && DailyOf([]) == []
  {}

  // ---------- one row per hour and per date ----------

  predicate UniqueHours(rows: seq<Hourly>) {
    forall i, j :: 0 <= i < j < |rows| ==> rows[i].hour != rows[j].hour
  }

  predicate UniqueDates(rows: seq<Daily>) {
    forall i, j :: 0 <= i < j < |rows| ==> rows[i].date != rows[j].date
  }

  predicate UniqueRows(s: History) {
    UniqueHours(s.hourly) && UniqueDates(s.daily)
  }

  lemma {:induction false} SelectUniqueHours(rows: seq<Hourly>, p: Hourly -> bool)
    requires UniqueHours(rows)
    ensures UniqueHours(Select(rows, p))
  {
    if rows != [] {
      var init, last := rows[..|rows| - 1], rows[|rows| - 1];
      SelectUniqueHours(init, p);
      forall r | r in Select(init, p) ensures r.hour != last.hour { SelectMembers(init, p, r); }
      assert forall i :: 0 <= i < |Select(init, p)| ==> Select(init, p)[i] in Select(init, p);
    }
  }

  lemma {:induction false} SelectUniqueDates(rows: seq<Daily>, p: Daily -> bool)
    requires UniqueDates(rows)
    ensures UniqueDates(Select(rows, p))
  {
    if rows != [] {
      var init, last := rows[..|rows| - 1], rows[|rows| - 1];
      SelectUniqueDates(init, p);
      forall r | r in Select(init, p) ensures r.date != last.date { SelectMembers(init, p, r); }
      assert forall i :: 0 <= i < |Select(init, p)| ==> Select(init, p)[i] in Select(init, p);
    }
  }

  lemma MergeKeepsUniqueHours(hourly: seq<Hourly>, es: seq<Raw>)
    requires UniqueHours(hourly)
    ensures UniqueHours(hourly + Select(HourlyOf(es), NewHour(HoursIn(hourly))))
  {
    SortAscending(Keys(es, HourOf()));
    AscendingNoRepeats(Hours(es));
    SelectUniqueHours(HourlyOf(es), NewHour(HoursIn(hourly)));
    var added := Select(HourlyOf(es), NewHour(HoursIn(hourly)));
    forall i | 0 <= i < |added| ensures added[i].hour !in HoursIn(hourly) {
      SelectMembers(HourlyOf(es), NewHour(HoursIn(hourly)), added[i]);
    }
    assert forall i :: 0 <= i < |hourly| ==> hourly[i].hour in HoursIn(hourly);
  }

  lemma MergeKeepsUniqueDates(daily: seq<Daily>, rs: seq<Hourly>)
    requires UniqueDates(daily)
    ensures UniqueDates(daily + Select(DailyOf(rs), NewDate(DatesIn(daily))))
  {
    SortAscending(Keys(rs, DateOf()));
    AscendingNoRepeats(Dates(rs));
    SelectUniqueDates(DailyOf(rs), NewDate(DatesIn(daily)));
    var added := Select(DailyOf(rs), NewDate(DatesIn(daily)));
    forall i | 0 <= i < |added| ensures added[i].date !in DatesIn(daily) {
      SelectMembers(DailyOf(rs), NewDate(DatesIn(daily)), added[i]);
    }
    assert forall i :: 0 <= i < |daily| ==> daily[i].date in DatesIn(daily);
  }

  lemma RotationKeepsUnique(cal: Calendar, s: History, now: int, keep: Retention)
    requires UniqueRows(s)
    ensures UniqueRows(Rotated(cal, s, now, keep))
  {
    hide HourlyOf, DailyOf, Select;
    MergeKeepsUniqueHours(s.hourly, OldRaw(s, now, keep));
    SelectUniqueHours(MergedHourly(s, now, keep), HourKept(cal, now - keep.hourlyDays * DAY));
    MergeKeepsUniqueDates(s.daily, Expired(cal, s, now, keep));
    SelectUniqueDates(MergedDaily(cal, s, now, keep), DateKept(cal, now - keep.dailyDays * DAY));
  }

  // ---------- runs ----------

  datatype Action = Log(entry: Raw) | Rotate(now: int, keep: Retention)

  function Step(cal: Calendar, s: History, a: Action): History {
    match a
    case Log(e) => s.(raw := s.raw + [e])
    case Rotate(now, keep) => Rotated(cal, s, now, keep)
  }

  function Run(cal: Calendar, s: History, actions: seq<Action>): History {
    if actions == [] then s else Step(cal, Run(cal, s, actions[..|actions| - 1]), actions[|actions| - 1])
  }

  function Logged(c: Counter): Action -> int {
    (a: Action) => if a.Log? then RawCount(c)(a.entry) else 0
  }

  function Dropped(cal: Calendar, s: History, a: Action, c: Counter): nat {
    if a.Rotate? then Lost(cal, s, a.now, a.keep, c) else 0
  }

  function DroppedInRun(cal: Calendar, s: History, actions: seq<Action>, c: Counter): nat {
    if actions == [] then 0 else
      var init := actions[..|actions| - 1];
      DroppedInRun(cal, s, init, c) + Dropped(cal, Run(cal, s, init), actions[|actions| - 1], c)
  }

  lemma LogAccount(s: History, e: Raw, c: Counter)
    ensures var after := s.(raw := s.raw + [e]);
            Total(after, c) == Total(s, c) + RawCount(c)(e) && (UniqueRows(s) ==> UniqueRows(after))
  {}

  /** Over any run of logging and rotating, under any clock and retention: everything logged is in one
      of the files or was dropped by one rotation, and no hour or date ever has two rows. */
  lemma {:induction false} RunAccount(cal: Calendar, s: History, actions: seq<Action>, c: Counter)
    ensures Total(Run(cal, s, actions), c) + DroppedInRun(cal, s, actions, c) == Total(s, c) + Weigh(actions, Logged(c))
    ensures UniqueRows(s) ==> UniqueRows(Run(cal, s, actions))
  {
    if actions != [] {
      hide Rotated, Lost, UniqueRows, Total, RawCount;
      var init, last := actions[..|actions| - 1], actions[|actions| - 1];
      RunAccount(cal, s, init, c);
      var before := Run(cal, s, init);
      match last {
        case Log(e) =>
          LogAccount(before, e, c);
        case Rotate(now, keep) =>
          RotationAccount(cal, before, now, keep, c);
          if UniqueRows(s) { RotationKeepsUnique(cal, before, now, keep); }
      }
    }
  }

  /** Two runs of one hour on either side of the retention boundary: the first rotation writes the
      hour's row, the second finds it there and drops the later run. */
  lemma StraddledHourLosesRun(cal: Calendar, early: Raw, late: Raw, first: int, second: int, keep: Retention)
    requires early.stamp.Some? && late.stamp.Some? && early.stamp.value.hour == late.stamp.value.hour
    requires early.stamp.value.instant < first - keep.rawDays * DAY <= late.stamp.value.instant
    requires late.stamp.value.instant < second - keep.rawDays * DAY
    requires KeepsHour(cal, first - keep.hourlyDays * DAY, early.stamp.value.hour)
    ensures var s := Rotated(cal, History([early, late], [], []), first, keep);
            Total(s, Runs) == 2 && Lost(cal, s, second, keep, Runs) >= 1
  {
    var hour := early.stamp.value.hour;
    var start := History([early, late], [], []);
    var s := Rotated(cal, start, first, keep);
    var cut := first - keep.rawDays * DAY;
    FirstRotation(cal, early, late, first, keep);
    LostRaw(OldRaw(s, second, keep), SeenHour(HoursIn(s.hourly)));
    SelectMembers(s.raw, Old(second - keep.rawDays * DAY), late);
    assert SeenHour(HoursIn(s.hourly))(late);
    WeighNotNegative(DroppedUnparsed(s), RawCount(Runs));
    WeighNotNegative(DroppedRaw(s, second, keep), RawCount(Runs));
    WeighNotNegative(DroppedHourly(cal, s, second, keep), HourlyCount(Runs));
    WeighNotNegative(DroppedDaily(cal, s, second, keep), DailyCount(Runs));
  }

  lemma FirstRotation(cal: Calendar, early: Raw, late: Raw, now: int, keep: Retention)
    requires early.stamp.Some? && late.stamp.Some? && early.stamp.value.hour == late.stamp.value.hour
    requires early.stamp.value.instant < now - keep.rawDays * DAY <= late.stamp.value.instant
    requires KeepsHour(cal, now - keep.hourlyDays * DAY, early.stamp.value.hour)
    ensures var s := Rotated(cal, History([early, late], [], []), now, keep);
            Total(s, Runs) == 2 && late in s.raw && early.stamp.value.hour in HoursIn(s.hourly)
  {
    var start := History([early, late], [], []);
    var hour, cut := early.stamp.value.hour, now - keep.rawDays * DAY;
    OneOldRun(early, late, cut);
    hide Select, HourlyOf, DailyOf, Weigh;
    assert OldRaw(start, now, keep) == [early];
    OneHour(cal, early, now - keep.hourlyDays * DAY);
    assert MergedHourly(start, now, keep) == [HourlyRow(hour, [early])];
    NoRows();
    assert Expired(cal, start, now, keep) == [];
    NothingOnNothing();
    assert MergedDaily(cal, start, now, keep) == [];
    NothingLostIff(cal, start, now, keep);
    TwoRuns(early, late);
    assert HourlyRow(hour, [early]) in [HourlyRow(hour, [early])];
  }

  lemma NothingOnNothing()
    ensures forall p: Daily -> bool :: Select([], p) == []
    ensures forall p: Hourly -> bool :: Select([], p) == []
    ensures forall c :: Weigh([], HourlyCount(c)) == 0 && Weigh([], DailyCount(c)) == 0
  {}

  lemma TwoRuns(a: Raw, b: Raw)
    ensures Weigh([a, b], RawCount(Runs)) == 2
    ensures Weigh([], HourlyCount(Runs)) == 0 && Weigh([], DailyCount(Runs)) == 0
  {
    WeighOnes([a, b], RawCount(Runs));
  }

  lemma OneOldRun(early: Raw, late: Raw, cut: int)
    requires early.stamp.Some? && late.stamp.Some? && early.stamp.value.instant < cut <= late.stamp.value.instant
    ensures Select([early, late], Old(cut)) == [early] && Select([early, late], Recent(cut)) == [late]
  {}

  lemma OneHour(cal: Calendar, e: Raw, cutoff: int)
    requires e.stamp.Some? && KeepsHour(cal, cutoff, e.stamp.value.hour)
    ensures var row := HourlyRow(e.stamp.value.hour, [e]);
            && Select(HourlyOf([e]), NewHour({})) == [row]
            && Select([row], HourKept(cal, cutoff)) == [row]
            && Select([row], HourExpired(cal, cutoff)) == []
  {
    var hour := e.stamp.value.hour;
    hide Select, HourlyRow, Hours;
    OneKey(e);
    SelectOne(e, InBucket(HourOf(), hour));
    var row := HourlyRow(hour, [e]);
    assert HourlyOf([e]) == [row];
    SelectOne(row, NewHour({}));
    SelectOne(row, HourKept(cal, cutoff));
    SelectOne(row, HourExpired(cal, cutoff));
  }

  lemma SelectOne<E>(e: E, p: E -> bool)
    ensures Select([e], p) == if p(e) then [e] else []
  {}

  lemma OneKey(e: Raw)
    requires e.stamp.Some?
    ensures Hours([e]) == [e.stamp.value.hour]
  {
    assert [e][..0] == [] && Keys([e], HourOf()) == [e.stamp.value.hour];
    SortOne(e.stamp.value.hour);
  }

  lemma SortOne(k: string)
    ensures Sort([k]) == [k]
  {}
}
