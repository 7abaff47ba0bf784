/** The daily budget of correction questions: exactly which clocks let a day go over it. */
module QuestionBudget {
  import opened ActiveCorrection
  import opened Options

  /** What a run reads on its clock at each action; nothing at an answer. */
  type Clock = seq<Option<real>>

  function Clocked(actions: seq<Action>): (clock: Clock)
    ensures |clock| == |actions|
    ensures forall n :: 0 <= n < |clock| ==>
              clock[n] == if actions[n].Evaluate? then Some(actions[n].tick.now) else None
  {
    seq(|actions|, n requires 0 <= n < |actions| => if actions[n].Evaluate? then Some(actions[n].tick.now) else None)
  }

  function TimeAt(clock: Clock, n: nat): real {
    if n < |clock| && clock[n].Some? then clock[n].value else 0.0
  }

  predicate OnDay(clock: Clock, n: nat, day: int) {
    n < |clock| && clock[n].Some? && DayOf(clock[n].value) == day
  }

  predicate OffDay(clock: Clock, n: nat, day: int) {
    n < |clock| && clock[n].Some? && DayOf(clock[n].value) != day
  }

  /** Between two positions there is a tick of another day. */
  ghost predicate Left(clock: Clock, day: int, i: nat, j: nat) {
    exists n: nat :: i < n < j && OffDay(clock, n, day)
  }

  function AskedOn(qs: seq<Question>, day: int): nat {
    if qs == [] then 0
    else AskedOn(qs[..|qs| - 1], day) + if DayOf(qs[|qs| - 1].timestamp) == day then 1 else 0
  }

  lemma AskedOnSnoc(qs: seq<Question>, q: Question, day: int)
    ensures AskedOn(qs + [q], day) == AskedOn(qs, day) + if DayOf(q.timestamp) == day then 1 else 0
  {
    assert (qs + [q])[..|qs|] == qs;
  }

  /** The number of questions a day may have. */
  function Budget(k: Settings): nat {
    if k.dailyBudget > 0 then k.dailyBudget else 0
  }

  /** Ticks of one day, in order. */
  ghost predicate InOrder(clock: Clock, day: int, picks: seq<nat>) {
    && (forall a :: 0 <= a < |picks| ==> OnDay(clock, picks[a], day))
    && (forall a, b :: 0 <= a < b < |picks| ==> picks[a] < picks[b])
  }

  /** The first reads at least a cooldown, and each next one at least a cooldown more. */
  ghost predicate Paced(clock: Clock, cooldown: real, picks: seq<nat>) {
    && (picks != [] ==> TimeAt(clock, picks[0]) >= cooldown)
    && (forall a :: 0 < a < |picks| ==> TimeAt(clock, picks[a]) - TimeAt(clock, picks[a - 1]) >= cooldown)
  }

  /** Whenever a budget's worth of questions lies between two of a day, the day was left in between. */
  ghost predicate Refreshed(clock: Clock, day: int, budget: nat, picks: seq<nat>) {
    forall a: nat :: a + budget < |picks| ==> Left(clock, day, picks[a], picks[a + budget])
  }

  // ---------- where a day's questions are asked ----------

  /** `picks` are the ticks at which the day's questions were asked; those asked since the day was
      last left are all in the day's list. */
  ghost predicate Traced(k: Settings, actions: seq<Action>, day: int, picks: seq<nat>) {
    var clock, s := Clocked(actions), Run(k, actions);
    && |picks| == AskedOn(Questions(k, actions), day)
    && InOrder(clock, day, picks)
    && Refreshed(clock, day, Budget(k), picks)
    && (k.cooldown >= 0.0 ==> Paced(clock, k.cooldown, picks))
    && (k.cooldown >= 0.0 ==> s.lastQuery >= LastTime(clock, picks))
    && StillHeld(clock, s, day, picks)
  }

  ghost predicate StillHeld(clock: Clock, s: State, day: int, picks: seq<nat>) {
    forall a :: 0 <= a < |picks| && !Left(clock, day, picks[a], |clock|) ==> Holds(s, day, |picks| - a)
  }

  function LastTime(clock: Clock, picks: seq<nat>): real {
    if picks == [] then 0.0 else TimeAt(clock, picks[|picks| - 1])
  }

  predicate Holds(s: State, day: int, n: int) {
    s.day == day && |s.today| >= n
  }

  lemma LeftGrows(clock: Clock, c: Option<real>, day: int, i: nat, j: nat)
    requires j <= |clock|
    ensures Left(clock + [c], day, i, j) <==> Left(clock, day, i, j)
    ensures Left(clock + [c], day, i, |clock| + 1) <==>
            Left(clock, day, i, |clock|) || (i < |clock| && OffDay(clock + [c], |clock|, day))
  {
    hide DayOf;
    assert forall n: nat :: n < |clock| ==> OffDay(clock + [c], n, day) == OffDay(clock, n, day);
  }

  lemma ClockGrows(clock: Clock, c: Option<real>, day: int, cooldown: real, budget: nat, picks: seq<nat>)
    requires InOrder(clock, day, picks) && Refreshed(clock, day, budget, picks)
    ensures InOrder(clock + [c], day, picks) && Refreshed(clock + [c], day, budget, picks)
    ensures Paced(clock + [c], cooldown, picks) == Paced(clock, cooldown, picks)
    ensures LastTime(clock + [c], picks) == LastTime(clock, picks)
  {
    hide DayOf, Left;
    forall a: nat | a + budget < |picks| ensures Left(clock + [c], day, picks[a], picks[a + budget]) {
      LeftGrows(clock, c, day, picks[a], picks[a + budget]);
    }
  }

  /** A question of the day is one more pick. */
  lemma PickGrows(clock: Clock, c: real, day: int, cooldown: real, budget: nat, picks: seq<nat>)
    requires InOrder(clock, day, picks) && Refreshed(clock, day, budget, picks) && DayOf(c) == day
    requires |picks| >= budget ==> budget > 0 && Left(clock, day, picks[|picks| - budget], |clock|)
    ensures var clock', picks' := clock + [Some(c)], picks + [|clock|];
            && InOrder(clock', day, picks') && Refreshed(clock', day, budget, picks')
            && LastTime(clock', picks') == c
            && (Paced(clock, cooldown, picks) && c - LastTime(clock, picks) >= cooldown ==>
                  Paced(clock', cooldown, picks'))
  {
    hide DayOf, Left;
    ClockGrows(clock, Some(c), day, cooldown, budget, picks);
    if |picks| >= budget {
      LeftGrows(clock, Some(c), day, picks[|picks| - budget], |clock|);
    }
  }

  lemma TraceSkips(k: Settings, init: seq<Action>, last: Action, day: int, picks: seq<nat>)
    requires Traced(k, init, day, picks)
    requires last.Evaluate? && Choice(k, Run(k, init), last.tick).Some? ==> DayOf(last.tick.now) != day
    ensures Traced(k, init + [last], day, picks)
  {
    var actions, clock := init + [last], Clocked(init);
    var c := if last.Evaluate? then Some(last.tick.now) else None;
    assert actions[..|init|] == init && Clocked(actions) == clock + [c];
    RunGrows(k, init, last, day);
    ClockGrows(clock, c, day, k.cooldown, Budget(k), picks);
    hide DayOf, Left, FindUncertainty, InOrder, Refreshed, Paced, AskedOn, LastTime, MayAsk, Run, Questions, StillHeld;
    SkipClock(k, Run(k, init), last, LastTime(clock, picks), day, |picks|);
    HeldAfterSkip(clock, c, Run(k, init), Run(k, actions), day, picks);
  }

  lemma HeldAfterSkip(clock: Clock, c: Option<real>, s: State, s': State, day: int, picks: seq<nat>)
    requires InOrder(clock, day, picks) && StillHeld(clock, s, day, picks)
    requires forall m :: Holds(s, day, m) && (c.Some? ==> DayOf(c.value) == day) ==> Holds(s', day, m)
    ensures StillHeld(clock + [c], s', day, picks)
  {
    hide DayOf, Left, Holds;
    forall a | 0 <= a < |picks| && !Left(clock + [c], day, picks[a], |clock| + 1)
      ensures Holds(s', day, |picks| - a)
    {
      LeftGrows(clock, c, day, picks[a], |clock|);
      PickInside(clock, day, picks, a);
    }
  }

  lemma HeldAfterAsk(clock: Clock, c: real, s: State, s': State, day: int, picks: seq<nat>)
    requires StillHeld(clock, s, day, picks)
    requires Holds(s', day, 1) && forall m :: Holds(s, day, m) ==> Holds(s', day, m + 1)
    ensures StillHeld(clock + [Some(c)], s', day, picks + [|clock|])
  {
    hide DayOf, Left, Holds;
    var picks' := picks + [|clock|];
    forall a | 0 <= a < |picks'| && !Left(clock + [Some(c)], day, picks'[a], |clock| + 1)
      ensures Holds(s', day, |picks'| - a)
    {
      if a < |picks| {
        LeftGrows(clock, Some(c), day, picks[a], |clock|);
      }
    }
  }

  lemma PickInside(clock: Clock, day: int, picks: seq<nat>, a: nat)
    requires InOrder(clock, day, picks) && a < |picks|
    ensures picks[a] < |clock|
  {}

  lemma RunGrows(k: Settings, init: seq<Action>, last: Action, day: int)
    ensures Run(k, init + [last]) == Step(k, Run(k, init), last)
    ensures var asks := last.Evaluate? && Choice(k, Run(k, init), last.tick).Some? && DayOf(last.tick.now) == day;
            AskedOn(Questions(k, init + [last]), day) == AskedOn(Questions(k, init), day) + if asks then 1 else 0
  {
    hide DayOf, FindUncertainty, MayAsk;
    assert (init + [last])[..|init|] == init;
    if last.Evaluate? && Choice(k, Run(k, init), last.tick).Some? {
      AskedOnSnoc(Questions(k, init), Choice(k, Run(k, init), last.tick).value, day);
    }
  }

  /** What an action that asks nothing on the day leaves of the bookkeeping. */
  lemma SkipClock(k: Settings, s: State, last: Action, time: real, day: int, n: nat)
    requires last.Evaluate? && Choice(k, s, last.tick).Some? ==> DayOf(last.tick.now) != day
    ensures var s' := Step(k, s, last);
            && (k.cooldown >= 0.0 && s.lastQuery >= time ==> s'.lastQuery >= time)
            && (forall m :: Holds(s, day, m) && (last.Evaluate? ==> DayOf(last.tick.now) == day) ==> Holds(s', day, m))
  {
    hide DayOf, FindUncertainty;
  }

  lemma TraceAsks(k: Settings, init: seq<Action>, t: Tick, day: int, picks: seq<nat>)
    requires Traced(k, init, day, picks)
    requires Choice(k, Run(k, init), t).Some? && DayOf(t.now) == day
    ensures Traced(k, init + [Evaluate(t)], day, picks + [|init|])
  {
    var s, clock, actions := Run(k, init), Clocked(init), init + [Evaluate(t)];
    assert actions[..|init|] == init && Clocked(actions) == clock + [Some(t.now)];
    RunGrows(k, init, Evaluate(t), day);
    AskClock(k, s, t, day);
    var picks' := picks + [|init|];
    hide DayOf, Left, FindUncertainty, MayAsk, Run, Questions, AskedOn, InOrder, Refreshed, Paced, LastTime, Choice,
      Evaluated, StillHeld, Holds;
    OldestLeft(clock, s, day, Budget(k), picks);
    PickGrows(clock, t.now, day, k.cooldown, Budget(k), picks);
    HeldAfterAsk(clock, t.now, s, Run(k, actions), day, picks);
  }

  /** With fewer than a budget of questions in the day's list, the day was left since the budget-th last. */
  lemma OldestLeft(clock: Clock, s: State, day: int, budget: nat, picks: seq<nat>)
    requires StillHeld(clock, s, day, picks) && budget > 0 && !Holds(s, day, budget)
    ensures |picks| >= budget ==> Left(clock, day, picks[|picks| - budget], |clock|)
  {
    hide Holds, Left;
  }

  /** A question of the day joins its list, which was below the budget. */
  lemma AskClock(k: Settings, s: State, t: Tick, day: int)
    requires Choice(k, s, t).Some? && DayOf(t.now) == day
    ensures var s' := Evaluated(k, s, t);
            && Budget(k) > 0 && !Holds(s, day, Budget(k))
            && t.now - s.lastQuery >= k.cooldown && s'.lastQuery == t.now
            && Holds(s', day, 1) && forall m :: Holds(s, day, m) ==> Holds(s', day, m + 1)
  {
    hide DayOf, FindUncertainty;
  }

  /** In every run the day's questions sit at ticks of that day, in order, paced by the cooldown, and
      with the day left between any two that are a budget apart. */
  lemma {:induction false} DayIsTraced(k: Settings, actions: seq<Action>, day: int) returns (picks: seq<nat>)
    ensures Traced(k, actions, day, picks)
  {
    if actions == [] {
      picks := [];
    } else {
      var init, last := actions[..|actions| - 1], actions[|actions| - 1];
      assert actions == init + [last];
      picks := DayIsTraced(k, init, day);
      if last.Evaluate? && Choice(k, Run(k, init), last.tick).Some? && DayOf(last.tick.now) == day {
        TraceAsks(k, init, last.tick, day, picks);
        picks := picks + [|init|];
      } else {
        TraceSkips(k, init, last, day, picks);
      }
    }
  }

  /** No tick of another day comes between two ticks of this day. */
  ghost predicate NoReturn(clock: Clock, day: int) {
    forall i: nat, j: nat :: OnDay(clock, i, day) && OnDay(clock, j, day) ==> !Left(clock, day, i, j)
  }

  /** A day that the clock does not come back to after leaving it gets no more questions than the
      budget, whatever else the clock and the run do. */
  lemma DailyBudget(k: Settings, actions: seq<Action>, day: int)
    requires NoReturn(Clocked(actions), day)
    ensures AskedOn(Questions(k, actions), day) <= Budget(k)
  {
    hide Left, Questions, DayOf, AskedOn;
    OverBudgetReturns(k, actions, day);
  }

  lemma OverBudgetReturns(k: Settings, actions: seq<Action>, day: int)
    ensures AskedOn(Questions(k, actions), day) > Budget(k) ==>
              exists i: nat, j: nat :: OnDay(Clocked(actions), i, day) && OnDay(Clocked(actions), j, day)
                                       && Left(Clocked(actions), day, i, j)
  {
    hide Left, Questions, DayOf, AskedOn, OnDay;
    var picks := DayIsTraced(k, actions, day);
    if |picks| > Budget(k) {
      assert OnDay(Clocked(actions), picks[0], day) && OnDay(Clocked(actions), picks[0 + Budget(k)], day);
    }
  }

  // ---------- exactly which clocks break the budget ----------

  /** One tick more than the budget on the day, a cooldown apart, with the day left in between. */
  ghost predicate Overrun(k: Settings, clock: Clock, day: int, picks: seq<nat>) {
    && |picks| == Budget(k) + 1
    && InOrder(clock, day, picks) && Paced(clock, k.cooldown, picks)
    && Left(clock, day, picks[0], picks[Budget(k)])
  }

  ghost predicate CanOverrun(k: Settings, clock: Clock, day: int) {
    exists actions :: Clocked(actions) == clock && AskedOn(Questions(k, actions), day) > Budget(k)
  }

  lemma OverrunNeedsReturn(k: Settings, actions: seq<Action>, day: int) returns (picks: seq<nat>)
    requires k.cooldown >= 0.0 && AskedOn(Questions(k, actions), day) > Budget(k)
    ensures Overrun(k, Clocked(actions), day, picks)
  {
    hide Left, Questions, DayOf;
    var all := DayIsTraced(k, actions, day);
    picks := all[..Budget(k) + 1];
    assert Left(Clocked(actions), day, all[0], all[0 + Budget(k)]);
  }

  function Unary(n: nat): (s: string)
    ensures |s| == n
  {
    seq(n, _ => 'a')
  }

  /** Asks about something new at the picked ticks, stays silent at the others. */
  function Schedule(k: Settings, clock: Clock, picks: seq<nat>): (actions: seq<Action>)
    ensures |actions| == |clock|
    ensures forall n :: 0 <= n < |clock| ==> actions[n] == Scheduled(k, clock, picks, n)
  {
    seq(|clock|, n requires 0 <= n < |clock| => Scheduled(k, clock, picks, n))
  }

  function Scheduled(k: Settings, clock: Clock, picks: seq<nat>, n: nat): Action
    requires n < |clock|
  {
    match clock[n]
    case None => Answer(Combo("", ""))
    case Some(now) =>
      Evaluate(Tick(now, Unary(n + 1), 0.0, if n in picks then k.threshold - 1.0 else k.threshold, "nominal", 0))
  }

  /** The first n actions of the schedule asked at the first c picks; the day's list is what was asked
      since the day was last left. */
  ghost predicate OnSchedule(k: Settings, clock: Clock, day: int, picks: seq<nat>, n: nat, c: nat)
    requires n <= |clock| && c <= |picks|
  {
    var init := Schedule(k, clock, picks)[..n];
    && (forall a :: 0 <= a < c ==> picks[a] < n) && (forall a :: c <= a < |picks| ==> picks[a] >= n)
    && Ready(clock, day, picks, n, c, Run(k, init))
    && AskedOn(Questions(k, init), day) == c
  }

  ghost predicate Ready(clock: Clock, day: int, picks: seq<nat>, n: nat, c: nat, s: State)
    requires c <= |picks|
  {
    && s.lastQuery == LastTime(clock, picks[..c])
    && (forall combo :: combo in s.asked ==> |combo.value| <= n)
    && |s.today| <= c && (s.day != day ==> s.today == [])
    && (c > 0 && Left(clock, day, picks[0], n) ==> |s.today| < c)
  }

  /** A scheduled question is asked. */
  lemma AsksOnSchedule(k: Settings, clock: Clock, day: int, picks: seq<nat>, n: nat, c: nat, s: State)
    requires n < |clock| && c < |picks| && picks[c] == n && Overrun(k, clock, day, picks)
    requires k.dailyBudget >= 1 && Ready(clock, day, picks, n, c, s)
    ensures var a := Scheduled(k, clock, picks, n);
            && a.Evaluate? && a.tick.now == TimeAt(clock, n) && DayOf(a.tick.now) == day
            && Choice(k, s, a.tick).Some? && Ready(clock, day, picks, n + 1, c + 1, Step(k, s, a))
  {
    hide DayOf, ActivityText, FlowText;
    var a := Scheduled(k, clock, picks, n);
    assert OnDay(clock, picks[c], day) && n in picks;
    assert c > 0 ==> TimeAt(clock, picks[c]) - TimeAt(clock, picks[c - 1]) >= k.cooldown;
    assert Combo("activity", a.tick.activity) !in s.asked;
    assert picks[..c + 1] == picks[..c] + [n];
    LeftNext(clock, day, picks[0], n);
  }

  lemma LeftNext(clock: Clock, day: int, i: nat, n: nat)
    ensures Left(clock, day, i, n + 1) <==> Left(clock, day, i, n) || (i < n && OffDay(clock, n, day))
  {
    hide DayOf;
  }

  /** The other ticks ask nothing, and one of another day empties the list. */
  lemma SilentOnSchedule(k: Settings, clock: Clock, day: int, picks: seq<nat>, n: nat, c: nat, s: State)
    requires n < |clock| && c <= |picks| && n !in picks && InOrder(clock, day, picks)
    requires Ready(clock, day, picks, n, c, s)
    ensures var a := Scheduled(k, clock, picks, n);
            && (a.Evaluate? ==> Choice(k, s, a.tick).None?) && Ready(clock, day, picks, n + 1, c, Step(k, s, a))
  {
    hide DayOf, ActivityText, FlowText;
    if c > 0 {
      LeftNext(clock, day, picks[0], n);
    }
  }

  lemma {:induction false} ScheduleRuns(k: Settings, clock: Clock, day: int, picks: seq<nat>, n: nat) returns (c: nat)
    requires k.dailyBudget >= 1 && Overrun(k, clock, day, picks) && n <= |clock|
    ensures c <= |picks| && OnSchedule(k, clock, day, picks, n, c)
  {
    hide OnSchedule, Overrun;
    if n == 0 {
      c := 0;
      ReadyAtStart(k, clock, day, picks);
    } else {
      c := ScheduleRuns(k, clock, day, picks, n - 1);
      c := ScheduleNext(k, clock, day, picks, n - 1, c);
    }
  }

  lemma ScheduleNext(k: Settings, clock: Clock, day: int, picks: seq<nat>, n: nat, c: nat) returns (c': nat)
    requires k.dailyBudget >= 1 && Overrun(k, clock, day, picks) && n < |clock|
    requires c <= |picks| && OnSchedule(k, clock, day, picks, n, c)
    ensures c' <= |picks| && OnSchedule(k, clock, day, picks, n + 1, c')
  {
    hide DayOf, Ready, Scheduled, Left, Choice, Run, Questions, AskedOn, Paced, OnDay;
    var actions := Schedule(k, clock, picks);
    var init, a := actions[..n], Scheduled(k, clock, picks, n);
    assert actions[..n + 1] == init + [a];
    RunGrows(k, init, a, day);
    if c < |picks| && picks[c] == n {
      AsksOnSchedule(k, clock, day, picks, n, c, Run(k, init));
      c' := c + 1;
    } else {
      SilentOnSchedule(k, clock, day, picks, n, c, Run(k, init));
      c' := c;
    }
  }

  lemma ReadyAtStart(k: Settings, clock: Clock, day: int, picks: seq<nat>)
    ensures OnSchedule(k, clock, day, picks, 0, 0)
  {}

  lemma AllPicked(clock: Clock, day: int, picks: seq<nat>, c: nat)
    requires InOrder(clock, day, picks)
    ensures c < |picks| ==> picks[c] < |clock|
  {}

  lemma ReturnOverruns(k: Settings, clock: Clock, day: int, picks: seq<nat>)
    requires k.dailyBudget >= 1 && Overrun(k, clock, day, picks)
    ensures CanOverrun(k, clock, day)
  {
    hide DayOf, Ready, Scheduled, Left, Run, Questions, AskedOn;
    var actions := Schedule(k, clock, picks);
    ScheduleIsClocked(k, clock, picks);
    var c := ScheduleRuns(k, clock, day, picks, |clock|);
    assert actions[..|clock|] == actions;
    AllPicked(clock, day, picks, c);
  }

  lemma ScheduleIsClocked(k: Settings, clock: Clock, picks: seq<nat>)
    ensures Clocked(Schedule(k, clock, picks)) == clock
  {}

  /** Exactly which clocks let some run put more questions on a day than the budget: those with one
      tick more than the budget on that day, each a cooldown after the one before and the first at
      least a cooldown after zero, between which the clock leaves the day. */
  lemma BudgetBreaksIff(k: Settings, clock: Clock, day: int)
    requires k.cooldown >= 0.0 && k.dailyBudget >= 1
    ensures CanOverrun(k, clock, day) <==> exists picks :: Overrun(k, clock, day, picks)
  {
    hide Overrun;
    if CanOverrun(k, clock, day) {
      var actions :| Clocked(actions) == clock && AskedOn(Questions(k, actions), day) > Budget(k);
      var picks := OverrunNeedsReturn(k, actions, day);
    }
    if picks :| Overrun(k, clock, day, picks) {
      ReturnOverruns(k, clock, day, picks);
    }
  }

  /** A clock that steps back over midnight can give a budget of one two questions. */
  lemma SteppingBackBreaksBudget()
    ensures CanOverrun(Settings(1, 0.0, 0.4), [Some(10.0), Some(86410.0), Some(20.0)], 0)
  {
    var k, clock: Clock := Settings(1, 0.0, 0.4), [Some(10.0), Some(86410.0), Some(20.0)];
    assert DayOf(10.0) == 0 && DayOf(20.0) == 0 && DayOf(86410.0) == 1;
    assert OffDay(clock, 1, 0);
    assert Overrun(k, clock, 0, [0, 2]);
    ReturnOverruns(k, clock, 0, [0, 2]);
  }

  /** Stepping back over midnight need not: coming in from a later day is harmless. */
  lemma SteppingBackMayKeepBudget()
    ensures !CanOverrun(Settings(1, 0.0, 0.4), [Some(86410.0), Some(20.0)], 0)
  {
    var k, clock: Clock := Settings(1, 0.0, 0.4), [Some(86410.0), Some(20.0)];
    assert DayOf(20.0) == 0 && DayOf(86410.0) == 1;
    BudgetBreaksIff(k, clock, 0);
    forall picks ensures !Overrun(k, clock, 0, picks) {
      if |picks| == 2 && InOrder(clock, 0, picks) {
        assert OnDay(clock, picks[0], 0) && picks[0] < picks[1];
      }
    }
  }
}
