/** Active correction seeking: a daily budget, a cooldown and a memory of what was asked bound the
    questions put to the operator. */
module ActiveCorrection {
  import opened Options

  datatype Combo = Combo(dimension: string, value: string)

  datatype Question = Question(combo: Combo, confidence: real, text: string, timestamp: real)

  datatype Settings = Settings(dailyBudget: int, cooldown: real, threshold: real)

  datatype State = State(today: seq<Question>, lastQuery: real, asked: set<Combo>, day: int)

  /** One perception tick; `similar` is how many earlier corrections the store finds, none when it
      fails. */
  datatype Tick = Tick(now: real, activity: string, flowScore: real, confidence: real, stance: string, similar: nat)

  function Initial(): State {
    State([], 0.0, {}, 0)
  }

  const DAY := 86400.0

  /** Integer conversion truncates toward zero. */
  function DayOf(now: real): int {
    if now >= 0.0 then (now / DAY).Floor else -((-now / DAY).Floor)
  }

  /** The day is the number of whole 86400-second spans between zero and the moment, counted with its sign. */
  lemma DayMeans(now: real)
    ensures now >= 0.0 ==> DayOf(now) as real * 86400.0 <= now < (DayOf(now) + 1) as real * 86400.0
    ensures now < 0.0 ==> (DayOf(now) - 1) as real * 86400.0 < now <= DayOf(now) as real * 86400.0
  {
    Spans(if now >= 0.0 then now else -now);
  }

  lemma Spans(t: real)
    requires t >= 0.0
    ensures var n := (t / DAY).Floor; n as real * 86400.0 <= t < (n + 1) as real * 86400.0
  {
    assert t / DAY * DAY == t;
  }

  function FlowState(score: real): string {
    if score >= 0.6 then "active" else if score >= 0.3 then "warming" else "idle"
  }

  function ActivityText(activity: string, similar: nat): string {
    "Is '" + activity + "' right? (I'm " + (if similar >= 2 then "often" else "sometimes")
    + " uncertain about this)"
  }

  function FlowText(flow: string): string {
    "Flow looks '" + flow + "' — accurate?"
  }

  /** There is an activity to ask about. */
  predicate OpenActivity(asked: set<Combo>, t: Tick) {
    t.activity != "" && Combo("activity", t.activity) !in asked
  }

  /** There is enough flow to ask about. */
  predicate OpenFlow(asked: set<Combo>, t: Tick) {
    Combo("flow", FlowState(t.flowScore)) !in asked && t.flowScore > 0.2
  }

  /** The most actionable uncertainty not asked about before. */
  function FindUncertainty(k: Settings, asked: set<Combo>, t: Tick): (q: Option<Question>)
    ensures q.Some? ==> q.value.combo !in asked && q.value.confidence == t.confidence < k.threshold
    ensures q.None? <==> t.confidence >= k.threshold || (!OpenActivity(asked, t) && !OpenFlow(asked, t))
    ensures q.Some? && OpenActivity(asked, t) ==> q.value.combo == Combo("activity", t.activity)
    ensures q.Some? && !OpenActivity(asked, t) ==> q.value.combo == Combo("flow", FlowState(t.flowScore))
  {
    var flow := FlowState(t.flowScore);
    if t.confidence >= k.threshold then None
    else if t.activity != "" && Combo("activity", t.activity) !in asked then
      Some(Question(Combo("activity", t.activity), t.confidence, ActivityText(t.activity, t.similar), 0.0))
    else if Combo("flow", flow) !in asked && t.flowScore > 0.2 then
      Some(Question(Combo("flow", flow), t.confidence, FlowText(flow), 0.0))
    else None
  }

  function Rolled(s: State, now: real): State {
    if DayOf(now) != s.day then s.(day := DayOf(now), today := []) else s
  }

  predicate MayAsk(k: Settings, s: State, t: Tick) {
    && |s.today| < k.dailyBudget
    && t.now - s.lastQuery >= k.cooldown
    && t.stance != "degraded" && t.stance != "critical"
  }

  function Choice(k: Settings, s: State, t: Tick): Option<Question> {
    var r := Rolled(s, t.now);
    if !MayAsk(k, r, t) then None else
      match FindUncertainty(k, r.asked, t)
      case None => None
      case Some(q) => Some(q.(timestamp := t.now))
  }

  function Evaluated(k: Settings, s: State, t: Tick): State {
    var r := Rolled(s, t.now);
    match Choice(k, s, t)
    case None => r
    case Some(q) => State(r.today + [q], t.now, r.asked + {q.combo}, r.day)
  }

  class CorrectionSeeker {
    const settings: Settings
    var queriesToday: seq<Question>
    var lastQueryTime: real
    var askedCombos: set<Combo>
    var currentDay: int

    ghost function Snapshot(): State
      reads this
    {
      State(queriesToday, lastQueryTime, askedCombos, currentDay)
    }

    constructor (settings: Settings)
      ensures this.settings == settings && Snapshot() == Initial()
    {
      this.settings := settings;
      queriesToday, lastQueryTime, askedCombos, currentDay := [], 0.0, {}, 0;
    }

    method Evaluate(t: Tick) returns (question: Option<Question>)
      modifies this
      ensures question == Choice(settings, old(Snapshot()), t)
      ensures Snapshot() == Evaluated(settings, old(Snapshot()), t)
    {
      hide FindUncertainty, DayOf;
      var day := DayOf(t.now);
      if day != currentDay {
        currentDay := day;
        queriesToday := [];
      }
      if |queriesToday| >= settings.dailyBudget {
        return None;
      }
      if t.now - lastQueryTime < settings.cooldown {
        return None;
      }
      if t.stance == "degraded" || t.stance == "critical" {
        return None;
      }
      question := FindUncertainty(settings, askedCombos, t);
      if question.None? {
        return;
      }
      question := Some(question.value.(timestamp := t.now));
      queriesToday := queriesToday + [question.value];
      lastQueryTime := t.now;
      askedCombos := askedCombos + {question.value.combo};
    }

    method RecordAnswer(dimension: string, value: string)
      modifies this
      ensures Snapshot() == old(Snapshot()).(asked := old(askedCombos) + {Combo(dimension, value)})
    {
      askedCombos := askedCombos + {Combo(dimension, value)};
    }
  }

  // ---------- runs ----------

  datatype Action = Evaluate(tick: Tick) | Answer(combo: Combo)

  function Step(k: Settings, s: State, a: Action): State {
    match a
    case Evaluate(t) => Evaluated(k, s, t)
    case Answer(combo) => s.(asked := s.asked + {combo})
  }

  function Run(k: Settings, actions: seq<Action>): State {
    if actions == [] then Initial() else Step(k, Run(k, actions[..|actions| - 1]), actions[|actions| - 1])
  }

  /** The questions of a run, in order. */
  function Questions(k: Settings, actions: seq<Action>): seq<Question> {
    if actions == [] then [] else
      var init, last := actions[..|actions| - 1], actions[|actions| - 1];
      if last.Evaluate? && Choice(k, Run(k, init), last.tick).Some?
      then Questions(k, init) + [Choice(k, Run(k, init), last.tick).value]
      else Questions(k, init)
  }

  /** How many questions the day of the tick has had. */
  function AskedToday(s: State, t: Tick): nat {
    if DayOf(t.now) == s.day then |s.today| else 0
  }

  /** A question is asked exactly in a stance that is neither degraded nor critical, within the day's
      budget, a cooldown after the last one, below the confidence threshold, and about an activity or a
      flow above 0.2 not asked about before. */
  lemma AsksIff(k: Settings, s: State, t: Tick)
    ensures var flow := if t.flowScore >= 0.6 then "active" else if t.flowScore >= 0.3 then "warming" else "idle";
            var activityOpen := t.activity != "" && Combo("activity", t.activity) !in s.asked;
            var flowOpen := t.flowScore > 0.2 && Combo("flow", flow) !in s.asked;
            var q := Choice(k, s, t);
            && (q.Some? <==>
                  && t.stance != "degraded" && t.stance != "critical"
                  && AskedToday(s, t) < k.dailyBudget && t.now - s.lastQuery >= k.cooldown
                  && t.confidence < k.threshold && (activityOpen || flowOpen))
            && (q.Some? ==>
                  && q.value.combo == (if activityOpen then Combo("activity", t.activity) else Combo("flow", flow))
                  && q.value.confidence == t.confidence && q.value.timestamp == t.now
                  && q.value.text ==
                     (if activityOpen
                      then "Is '" + t.activity + "' right? (I'm " + (if t.similar >= 2 then "often" else "sometimes")
                           + " uncertain about this)"
                      else "Flow looks '" + flow + "' — accurate?"))
  {
    hide DayOf;
  }

  lemma AskFacts(k: Settings, s: State, t: Tick)
    ensures var q := Choice(k, s, t);
            q.Some? ==> && q.value.combo !in s.asked && q.value.timestamp == t.now
                        && t.now - s.lastQuery >= k.cooldown && |Rolled(s, t.now).today| < k.dailyBudget
  {}

  /** The last question's time is remembered, and so is everything asked or answered. */
  lemma {:induction false} Remembered(k: Settings, actions: seq<Action>)
    ensures var s, qs := Run(k, actions), Questions(k, actions);
            && s.lastQuery == (if qs == [] then 0.0 else qs[|qs| - 1].timestamp)
            && (forall q :: q in qs ==> q.combo in s.asked)
            && (forall combo :: Answer(combo) in actions ==> combo in s.asked)
  {
    if actions != [] {
      hide FindUncertainty, DayOf, MayAsk;
      var init, last := actions[..|actions| - 1], actions[|actions| - 1];
      Remembered(k, init);
      assert actions == init + [last];
      if last.Evaluate? { AskFacts(k, Run(k, init), last.tick); }
    }
  }

  function Times(n: nat, x: real): real {
    if n == 0 then 0.0 else Times(n - 1, x) + x
  }

  ghost predicate Spaced(qs: seq<Question>, cooldown: real) {
    forall i :: 0 < i < |qs| ==> qs[i].timestamp - qs[i - 1].timestamp >= cooldown
  }

  ghost predicate NoPairTwice(qs: seq<Question>) {
    forall i, j :: 0 <= i < j < |qs| ==> qs[i].combo != qs[j].combo
  }

  /** Whatever the clock does, consecutive questions are a cooldown apart and no pair is asked twice. */
  lemma {:induction false} SpacedAndFresh(k: Settings, actions: seq<Action>)
    ensures Spaced(Questions(k, actions), k.cooldown) && NoPairTwice(Questions(k, actions))
  {
    if actions != [] {
      hide FindUncertainty, DayOf, MayAsk, Choice;
      var init, last := actions[..|actions| - 1], actions[|actions| - 1];
      SpacedAndFresh(k, init);
      Remembered(k, init);
      if last.Evaluate? { AskFacts(k, Run(k, init), last.tick); }
    }
  }

  /** Any two questions are as many cooldowns apart as there are questions between them. */
  lemma {:induction false} QuestionsSpaced(k: Settings, actions: seq<Action>, i: nat, j: nat)
    requires i <= j < |Questions(k, actions)|
    ensures var qs := Questions(k, actions); qs[j].timestamp - qs[i].timestamp >= Times(j - i, k.cooldown)
    decreases j
  {
    if i < j {
      SpacedAndFresh(k, actions);
      QuestionsSpaced(k, actions, i, j - 1);
    }
  }

  /** A pair recorded as answered is never asked about afterwards. */
  lemma {:induction false} NeverAskedAfterAnswer(k: Settings, actions: seq<Action>, combo: Combo, more: seq<Action>)
    requires Answer(combo) in actions
    ensures var before, after := |Questions(k, actions)|, Questions(k, actions + more);
            forall i :: before <= i < |after| ==> after[i].combo != combo
  {
    if more == [] {
      assert actions + more == actions;
    } else {
      hide FindUncertainty, DayOf, MayAsk, Choice, Run;
      var init, last := more[..|more| - 1], more[|more| - 1];
      NeverAskedAfterAnswer(k, actions, combo, init);
      assert (actions + more)[..|actions + more| - 1] == actions + init;
      assert (actions + more)[|actions + more| - 1] == last;
      Remembered(k, actions + init);
      if last.Evaluate? { AskFacts(k, Run(k, actions + init), last.tick); }
    }
  }
}
