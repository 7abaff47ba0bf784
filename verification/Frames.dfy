/** One frame of the ByteTrack tracker on values: the two-stage plan, its effect on the tracks, births,
    removal and the report. */
module Frames {
  import opened Assignment
  import opened Boxes
  import opened Sequences

  datatype Detection = Detection(box: Box, confidence: real, name: string)

  datatype Config = Config(highThresh: real, lowThresh: real, iouThresh: real, maxAge: int, minHits: int)

  /** The values of a track's fields. */
  datatype TrackState = TrackState(id: nat, box: Box, confidence: real, name: string,
                                   age: nat, hits: nat, sinceUpdate: nat, velocity: Box)

  datatype TrackerState = TrackerState(tracks: seq<TrackState>, nextId: nat)

  datatype Report = Report(id: nat, box: Box, confidence: real, name: string, confirmed: bool, age: nat)

  // ---------- what happens to one track ----------

  function Plus(a: Box, b: Box): Box {
    Box(a.x1 + b.x1, a.y1 + b.y1, a.x2 + b.x2, a.y2 + b.y2)
  }

  /** 0.7 of the old velocity and 0.3 of the latest displacement. */
  function Blend(v: Box, from: Box, to: Box): Box {
    Box(0.7 * v.x1 + 0.3 * (to.x1 - from.x1), 0.7 * v.y1 + 0.3 * (to.y1 - from.y1),
        0.7 * v.x2 + 0.3 * (to.x2 - from.x2), 0.7 * v.y2 + 0.3 * (to.y2 - from.y2))
  }

  function Aged(t: TrackState): TrackState {
    t.(age := t.age + 1, sinceUpdate := t.sinceUpdate + 1)
  }

  function Hit(t: TrackState, d: Detection): TrackState {
    t.(velocity := Blend(t.velocity, t.box, d.box), box := d.box, confidence := d.confidence,
       name := d.name, hits := t.hits + 1, sinceUpdate := 0)
  }

  function Born(id: nat, d: Detection): TrackState {
    TrackState(id, d.box, d.confidence, d.name, 0, 1, 0, Box(0.0, 0.0, 0.0, 0.0))
  }

  // ---------- what happens in one frame ----------

  predicate IsHigh(cfg: Config, d: Detection) {
    d.confidence >= cfg.highThresh
  }

  predicate IsLow(cfg: Config, d: Detection) {
    d.confidence >= cfg.lowThresh && !IsHigh(cfg, d)
  }

  /** The positions below `n` satisfying `p`, ascending. */
  function Positions(n: nat, p: nat -> bool): (r: seq<nat>)
    ensures forall i: nat :: i in r <==> i < n && p(i)
    ensures forall k :: 0 <= k < |r| ==> r[k] < n
    ensures forall i, j :: 0 <= i < j < |r| ==> r[i] < r[j]
  {
    if n == 0 then [] else Positions(n - 1, p) + (if p(n - 1) then [n - 1] else [])
  }

  function HighIndices(cfg: Config, dets: seq<Detection>): (r: seq<nat>)
    ensures forall k :: 0 <= k < |r| ==> r[k] < |dets|
  {
    Positions(|dets|, (i: nat) => i < |dets| && IsHigh(cfg, dets[i]))
  }

  function LowIndices(cfg: Config, dets: seq<Detection>): (r: seq<nat>)
    ensures forall k :: 0 <= k < |r| ==> r[k] < |dets|
  {
    Positions(|dets|, (i: nat) => i < |dets| && IsLow(cfg, dets[i]))
  }

  function Identity(n: nat): (r: seq<nat>) {
    seq(n, i => i)
  }

  /** The entries of `all` at the given positions. */
  function Pick<T>(all: seq<T>, at: seq<nat>): (r: seq<T>)
    requires forall k :: 0 <= k < |at| ==> at[k] < |all|
  {
    seq(|at|, k requires 0 <= k < |at| => all[at[k]])
  }

  function BoxesOf(ts: seq<TrackState>): seq<Box> {
    seq(|ts|, i requires 0 <= i < |ts| => ts[i].box)
  }

  function DetBoxes(dets: seq<Detection>): seq<Box> {
    seq(|dets|, i requires 0 <= i < |dets| => dets[i].box)
  }

  /** The matches of the two association stages, as (row, column) positions in the lists
      each stage was given. */
  datatype Plan = Plan(first: seq<Cell>, second: seq<Cell>)

  ghost function Remaining(n: nat, plan: Plan): seq<nat> {
    Unused(n, Rows(Cells(plan.first)))
  }

  ghost function Unclaimed(cfg: Config, dets: seq<Detection>, plan: Plan): (r: seq<nat>)
    ensures forall k :: 0 <= k < |r| ==> r[k] < |dets|
  {
    var high := HighIndices(cfg, dets);
    Pick(high, Unused(|high|, Cols(Cells(plan.first))))
  }

  /** Both stages are greedy associations on overlap: first every track against the high-confidence
      detections, then the tracks left over against the low-confidence ones. */
  ghost predicate IsPlan(cfg: Config, ts: seq<TrackState>, dets: seq<Detection>, plan: Plan) {
    var firstScores := IouBatch(BoxesOf(ts), DetBoxes(Pick(dets, HighIndices(cfg, dets))));
    var secondScores := IouBatch(BoxesOf(Pick(ts, Remaining(|ts|, plan))), DetBoxes(Pick(dets, LowIndices(cfg, dets))));
    && NoRepeats(plan.first) && GreedyMatching(firstScores, cfg.iouThresh, Cells(plan.first))
    && NoRepeats(plan.second) && GreedyMatching(secondScores, cfg.iouThresh, Cells(plan.second))
  }

  /** The (track index, detection index) pairs that positional matches stand for. */
  function Lift(rows: seq<nat>, cols: seq<nat>, matches: seq<Cell>): seq<(nat, nat)>
    requires InLists(rows, cols, matches)
  {
    seq(|matches|, k requires 0 <= k < |matches| => (rows[matches[k].0], cols[matches[k].1]))
  }

  ghost predicate InLists(rows: seq<nat>, cols: seq<nat>, matches: seq<Cell>) {
    forall k :: 0 <= k < |matches| ==> matches[k].0 < |rows| && matches[k].1 < |cols|
  }

  lemma LiftInRange(rows: seq<nat>, cols: seq<nat>, matches: seq<Cell>, n: nat, m: nat)
    requires InLists(rows, cols, matches)
    requires forall k :: 0 <= k < |rows| ==> rows[k] < n
    requires forall k :: 0 <= k < |cols| ==> cols[k] < m
    ensures forall k :: 0 <= k < |Lift(rows, cols, matches)| ==>
              Lift(rows, cols, matches)[k].0 < n && Lift(rows, cols, matches)[k].1 < m
  {}

  /** What a frame did: which tracks took which detections, and which detections start tracks. */
  datatype Effect = Effect(dets: seq<Detection>, updates: seq<(nat, nat)>, born: seq<nat>) {
    ghost predicate InRange(n: nat) {
      && (forall k :: 0 <= k < |updates| ==> updates[k].0 < n && updates[k].1 < |dets|)
      && (forall k :: 0 <= k < |born| ==> born[k] < |dets|)
    }
  }

  /** Updates each listed track with its detection, in order. */
  ghost function ApplyUpdates(ts: seq<TrackState>, dets: seq<Detection>, us: seq<(nat, nat)>): (r: seq<TrackState>)
    requires forall k :: 0 <= k < |us| ==> us[k].0 < |ts| && us[k].1 < |dets|
    ensures |r| == |ts|
  {
    if us == [] then ts else
      var prefix := ApplyUpdates(ts, dets, us[..|us| - 1]);
      var (i, d) := us[|us| - 1];
      prefix[i := Hit(prefix[i], dets[d])]
  }

  function AgedAll(ts: seq<TrackState>): seq<TrackState> {
    seq(|ts|, i requires 0 <= i < |ts| => Aged(ts[i]))
  }

  function BornAll(nextId: nat, dets: seq<Detection>): seq<TrackState> {
    seq(|dets|, k requires 0 <= k < |dets| => Born(nextId + k, dets[k]))
  }

  function Alive(cfg: Config, ts: seq<TrackState>): seq<TrackState> {
    if ts == [] then []
    else Alive(cfg, ts[..|ts| - 1]) + (if ts[|ts| - 1].sinceUpdate <= cfg.maxAge then [ts[|ts| - 1]] else [])
  }

  /** Births for the given detections, then removal of the dead. */
  function Settled(cfg: Config, ts: seq<TrackState>, nextId: nat, dets: seq<Detection>): TrackerState {
    TrackerState(Alive(cfg, ts + BornAll(nextId, dets)), nextId + |dets|)
  }

  /** Ageing, updates, births, removal. */
  ghost function Step(cfg: Config, s: TrackerState, e: Effect): TrackerState
    requires e.InRange(|s.tracks|)
  {
    Settled(cfg, ApplyUpdates(AgedAll(s.tracks), e.dets, e.updates), s.nextId, Pick(e.dets, e.born))
  }

  /** The effect of a frame's plan: first-stage updates, second-stage updates, births. */
  ghost function EffectOf(cfg: Config, ts: seq<TrackState>, dets: seq<Detection>, plan: Plan): (e: Effect)
    requires IsPlan(cfg, ts, dets, plan)
    ensures e.InRange(|ts|)
  {
    hide IsPlan, HighIndices, LowIndices, Remaining, Unclaimed, Lift;
    PlanInLists(cfg, ts, dets, plan);
    var high, low, rest := HighIndices(cfg, dets), LowIndices(cfg, dets), Remaining(|ts|, plan);
    LiftInRange(Identity(|ts|), high, plan.first, |ts|, |dets|);
    LiftInRange(rest, low, plan.second, |ts|, |dets|);
    var e := Effect(dets, Lift(Identity(|ts|), high, plan.first) + Lift(rest, low, plan.second),
                    Unclaimed(cfg, dets, plan));
    e
  }

  lemma MatchesInLists(m: Scores, threshold: real, rows: seq<nat>, cols: seq<nat>, matches: seq<Cell>)
    requires m.rows == |rows| && m.cols == |cols| && GreedyMatching(m, threshold, Cells(matches))
    ensures InLists(rows, cols, matches)
  {
    forall k | 0 <= k < |matches|
      ensures m.Has(matches[k])
    {
      assert matches[k] in Cells(matches);
    }
  }

  lemma PlanInLists(cfg: Config, ts: seq<TrackState>, dets: seq<Detection>, plan: Plan)
    requires IsPlan(cfg, ts, dets, plan)
    ensures InLists(Identity(|ts|), HighIndices(cfg, dets), plan.first)
    ensures InLists(Remaining(|ts|, plan), LowIndices(cfg, dets), plan.second)
  {
    MatchesInLists(IouBatch(BoxesOf(ts), DetBoxes(Pick(dets, HighIndices(cfg, dets)))), cfg.iouThresh,
                   Identity(|ts|), HighIndices(cfg, dets), plan.first);
    MatchesInLists(IouBatch(BoxesOf(Pick(ts, Remaining(|ts|, plan))), DetBoxes(Pick(dets, LowIndices(cfg, dets)))),
                   cfg.iouThresh, Remaining(|ts|, plan), LowIndices(cfg, dets), plan.second);
  }

  function Formatted(cfg: Config, ts: seq<TrackState>): seq<Report> {
    seq(|ts|, i requires 0 <= i < |ts| =>
        Report(ts[i].id, ts[i].box, ts[i].confidence, ts[i].name, ts[i].hits >= cfg.minHits, ts[i].age))
  }
}
