/** What the report of a frame shows, told on detections, the tracks before the frame and the reports. */
module Reports {
  import opened Assignment
  import opened Boxes
  import opened FrameFates
  import opened Frames
  import opened Options
  import opened Sequences

  /** The report carries the detection. */
  predicate Carries(r: Report, d: Detection) {
    r.box == d.box && r.confidence == d.confidence && r.name == d.name
  }

  predicate High(cfg: Config, d: Detection) {
    d.confidence >= cfg.highThresh
  }

  predicate Low(cfg: Config, d: Detection) {
    cfg.lowThresh <= d.confidence < cfg.highThresh
  }

  /** A known track that moved to a detection it overlaps enough. */
  predicate Moved(cfg: Config, t: TrackState, d: Detection, r: Report) {
    && Carries(r, d) && (High(cfg, d) || Low(cfg, d)) && Iou(t.box, d.box) >= cfg.iouThresh
    && r.id == t.id && r.age == t.age + 1 && (r.confirmed <==> t.hits + 1 >= cfg.minHits)
  }

  /** A known track as it was, one frame older. */
  predicate Stayed(cfg: Config, t: TrackState, r: Report) {
    && r.box == t.box && r.confidence == t.confidence && r.name == t.name
    && r.id == t.id && r.age == t.age + 1 && (r.confirmed <==> t.hits >= cfg.minHits)
  }

  /** A new track on a high-confidence detection. */
  predicate Started(cfg: Config, nextId: nat, d: Detection, r: Report) {
    Carries(r, d) && High(cfg, d) && r.id >= nextId && r.age == 0 && (r.confirmed <==> 1 >= cfg.minHits)
  }

  /** What one report shows: a detection, or a track that no detection took. */
  ghost predicate Shows(cfg: Config, before: TrackerState, dets: seq<Detection>, r: Report, origin: Option<nat>) {
    match origin
    case None => exists i :: 0 <= i < |before.tracks| && Stayed(cfg, before.tracks[i], r)
    case Some(j) =>
      && j < |dets|
      && (|| Started(cfg, before.nextId, dets[j], r)
          || exists i :: 0 <= i < |before.tracks| && Moved(cfg, before.tracks[i], dets[j], r))
  }

  ghost predicate NoneTwice(origins: seq<Option<nat>>) {
    forall m, n :: 0 <= m < n < |origins| && origins[m].Some? ==> origins[m] != origins[n]
  }

  /** The report of a frame: `origins` says of each entry which detection it shows. No detection is
      shown twice and, if tracks outlive the frame they are hit in, every high-confidence detection is
      shown. A track that stayed overlaps too little any detection that started a track and any
      low-confidence one that nobody took. */
  ghost predicate IsReport(cfg: Config, before: TrackerState, dets: seq<Detection>, out: seq<Report>,
                           origins: seq<Option<nat>>) {
    && |origins| == |out| && NoneTwice(origins)
    && (forall m :: 0 <= m < |out| ==> Shows(cfg, before, dets, out[m], origins[m]))
    && (cfg.maxAge >= 0 ==> forall j: nat :: j < |dets| && High(cfg, dets[j]) ==> Some(j) in origins)
    && (forall m, n :: 0 <= m < |out| && 0 <= n < |out| && origins[m].None? && out[n].age == 0 ==>
          Iou(out[m].box, out[n].box) < cfg.iouThresh)
    && (cfg.maxAge >= 0 ==>
          forall m, j: nat :: 0 <= m < |out| && origins[m].None? && j < |dets| && Low(cfg, dets[j])
                              && Some(j) !in origins ==>
            Iou(out[m].box, dets[j].box) < cfg.iouThresh)
  }

  // ---------- overlaps ----------

  /** Every update is on an overlap at or above the threshold. */
  lemma UpdatesOverlap(cfg: Config, ts: seq<TrackState>, dets: seq<Detection>, plan: Plan, k: nat)
    requires IsPlan(cfg, ts, dets, plan) && k < |EffectOf(cfg, ts, dets, plan).updates|
    ensures var (i, j) := EffectOf(cfg, ts, dets, plan).updates[k];
            i < |ts| && j < |dets| && Iou(ts[i].box, dets[j].box) >= cfg.iouThresh
  {
    PlanInLists(cfg, ts, dets, plan);
    var cell := if k < |plan.first| then plan.first[k] else plan.second[k - |plan.first|];
    assert cell in Cells(if k < |plan.first| then plan.first else plan.second);
  }

  lemma NotTargeted(rows: seq<nat>, cols: seq<nat>, matches: seq<Cell>, i: nat, c: Cell)
    requires InLists(rows, cols, matches) && c in Cells(matches)
    requires i !in Targets(Lift(rows, cols, matches))
    ensures c.0 < |rows| && rows[c.0] != i
  {
    var m :| 0 <= m < |matches| && matches[m] == c;
    assert Targets(Lift(rows, cols, matches))[m] == rows[c.0];
  }

  lemma NotSourced(rows: seq<nat>, cols: seq<nat>, matches: seq<Cell>, j: nat, c: Cell)
    requires InLists(rows, cols, matches) && c in Cells(matches)
    requires j !in Sources(Lift(rows, cols, matches))
    ensures c.1 < |cols| && cols[c.1] != j
  {
    var m :| 0 <= m < |matches| && matches[m] == c;
    assert Sources(Lift(rows, cols, matches))[m] == cols[c.1];
  }

  /** A cell whose row and column no match uses scores below the threshold. */
  lemma UnmatchedBelow(a: seq<Box>, b: seq<Box>, threshold: real, chosen: set<Cell>, r: nat, c: nat)
    requires GreedyMatching(IouBatch(a, b), threshold, chosen) && r < |a| && c < |b|
    requires forall g :: g in chosen ==> g.0 != r && g.1 != c
    ensures Iou(a[r], b[c]) < threshold
  {
    var m, cell: Cell := IouBatch(a, b), (r, c);
    assert !Dominated(m, chosen, cell);
    assert m.Has(cell) && m.At(cell) == Iou(a[r], b[c]);
  }

  /** The updates of the two stages. */
  lemma EffectIs(cfg: Config, ts: seq<TrackState>, dets: seq<Detection>, plan: Plan)
    requires IsPlan(cfg, ts, dets, plan)
    ensures var e, high, low := EffectOf(cfg, ts, dets, plan), HighIndices(cfg, dets), LowIndices(cfg, dets);
            var rest := Unused(|ts|, Rows(Cells(plan.first)));
            && InLists(Identity(|ts|), high, plan.first) && InLists(rest, low, plan.second)
            && Targets(e.updates) == Targets(Lift(Identity(|ts|), high, plan.first))
                                     + Targets(Lift(rest, low, plan.second))
            && Sources(e.updates) == Sources(Lift(Identity(|ts|), high, plan.first))
                                     + Sources(Lift(rest, low, plan.second))
            && e.born == Pick(high, Unused(|high|, Cols(Cells(plan.first))))
  {
    PlanInLists(cfg, ts, dets, plan);
    hide IsPlan, HighIndices, LowIndices, Lift, Targets, Sources, InLists;
    JoinTargets(Lift(Identity(|ts|), HighIndices(cfg, dets), plan.first),
                Lift(Remaining(|ts|, plan), LowIndices(cfg, dets), plan.second));
  }

  lemma JoinTargets(a: seq<(nat, nat)>, b: seq<(nat, nat)>)
    ensures Targets(a + b) == Targets(a) + Targets(b) && Sources(a + b) == Sources(a) + Sources(b)
  {}

  /** A track that nothing took and a high-confidence detection that starts a track overlap too little. */
  lemma BornApart(cfg: Config, ts: seq<TrackState>, dets: seq<Detection>, plan: Plan, i: nat, k: nat)
    requires IsPlan(cfg, ts, dets, plan) && i < |ts|
    requires var e := EffectOf(cfg, ts, dets, plan); k < |e.born| && i !in Targets(e.updates)
    ensures var j := EffectOf(cfg, ts, dets, plan).born[k];
            j < |dets| && Iou(ts[i].box, dets[j].box) < cfg.iouThresh
  {
    EffectIs(cfg, ts, dets, plan);
    hide EffectOf, InLists, Lift, Targets, Sources, HighIndices, LowIndices, GreedyMatching;
    var high := HighIndices(cfg, dets);
    var missed := Unused(|high|, Cols(Cells(plan.first)));
    forall g | g in Cells(plan.first) ensures g.0 != i && g.1 != missed[k] {
      NotTargeted(Identity(|ts|), high, plan.first, i, g);
      assert g.1 in Cols(Cells(plan.first)) && missed[k] in missed;
    }
    UnmatchedBelow(BoxesOf(ts), DetBoxes(Pick(dets, high)), cfg.iouThresh, Cells(plan.first), i, missed[k]);
  }

  /** So do a track that nothing took and a low-confidence detection that nobody took. */
  lemma LowApart(cfg: Config, ts: seq<TrackState>, dets: seq<Detection>, plan: Plan, i: nat, j: nat)
    requires IsPlan(cfg, ts, dets, plan) && i < |ts| && j < |dets| && Low(cfg, dets[j])
    requires var us := EffectOf(cfg, ts, dets, plan).updates; i !in Targets(us) && j !in Sources(us)
    ensures Iou(ts[i].box, dets[j].box) < cfg.iouThresh
  {
    EffectIs(cfg, ts, dets, plan);
    LowListed(cfg, dets, j);
    hide EffectOf, InLists, Lift, Targets, Sources, HighIndices, LowIndices, GreedyMatching, Low, Iou;
    var high, low, rest := HighIndices(cfg, dets), LowIndices(cfg, dets), Unused(|ts|, Rows(Cells(plan.first)));
    StillLeft(|ts|, high, plan.first, i);
    var r: nat, c: nat :| r < |rest| && rest[r] == i && c < |low| && low[c] == j;
    forall g | g in Cells(plan.second) ensures g.0 != r && g.1 != c {
      NotTargeted(rest, low, plan.second, i, g);
      NotSourced(rest, low, plan.second, j, g);
    }
    UnmatchedBelow(BoxesOf(Pick(ts, rest)), DetBoxes(Pick(dets, low)), cfg.iouThresh, Cells(plan.second), r, c);
  }

  lemma LowListed(cfg: Config, dets: seq<Detection>, j: nat)
    requires j < |dets| && Low(cfg, dets[j])
    ensures j in LowIndices(cfg, dets)
  {}

  lemma StillLeft(n: nat, high: seq<nat>, first: seq<Cell>, i: nat)
    requires InLists(Identity(n), high, first) && i < n && i !in Targets(Lift(Identity(n), high, first))
    ensures i in Unused(n, Rows(Cells(first)))
  {
    forall g | g in Cells(first) ensures g.0 != i {
      NotTargeted(Identity(n), high, first, i, g);
    }
  }

  // ---------- the report ----------

  /** The detection that an update list gives to track i. */
  ghost function TakenBy(us: seq<(nat, nat)>, i: nat): (j: Option<nat>)
    ensures j.Some? <==> i in Targets(us)
    ensures j.Some? ==> j.value in Sources(us) && exists k :: 0 <= k < |us| && us[k] == (i, j.value)
  {
    if us == [] then None else
      var init, last := us[..|us| - 1], us[|us| - 1];
      assert us == init + [last] && Targets(us) == Targets(init) + [last.0] && Sources(us) == Sources(init) + [last.1];
      if last.0 == i then assert us[|us| - 1] == (i, last.1); Some(last.1)
      else TakenBy(init, i)
  }

  /** Where the tracks after the updates and births come from. */
  ghost function Origins(n: nat, e: Effect): (origins: seq<Option<nat>>)
    ensures |origins| == n + |e.born|
  {
    seq(n + |e.born|, i requires 0 <= i < n + |e.born| => if i < n then TakenBy(e.updates, i) else Some(e.born[i - n]))
  }

  /** All tracks of the frame, before the dead are removed. */
  ghost function Everyone(s: TrackerState, e: Effect): (all: seq<TrackState>)
    requires e.InRange(|s.tracks|)
    ensures |all| == |s.tracks| + |e.born|
  {
    ApplyUpdates(AgedAll(s.tracks), e.dets, e.updates) + BornAll(s.nextId, Pick(e.dets, e.born))
  }

  function ReportOf(cfg: Config, t: TrackState): Report {
    Report(t.id, t.box, t.confidence, t.name, t.hits >= cfg.minHits, t.age)
  }

  lemma HitMoves(cfg: Config, t: TrackState, d: Detection)
    requires (High(cfg, d) || Low(cfg, d)) && Iou(t.box, d.box) >= cfg.iouThresh
    ensures var hit := Hit(Aged(t), d); Moved(cfg, t, d, ReportOf(cfg, hit)) && hit.sinceUpdate == 0 && hit.age > 0
  {
    hide Iou;
  }

  lemma AgedStays(cfg: Config, t: TrackState)
    ensures Stayed(cfg, t, ReportOf(cfg, Aged(t))) && Aged(t).box == t.box && Aged(t).age > 0
  {}

  lemma BornStarts(cfg: Config, nextId: nat, id: nat, d: Detection)
    requires High(cfg, d) && id >= nextId
    ensures var t := Born(id, d);
            Started(cfg, nextId, d, ReportOf(cfg, t)) && t.age == 0 && t.sinceUpdate == 0 && t.box == d.box
  {}

  /** A known track takes the detection it is given after ageing, or only ages. */
  lemma KnownAfter(s: TrackerState, e: Effect, i: nat)
    requires TargetsOk(|s.tracks|, e) && i < |s.tracks|
    ensures match TakenBy(e.updates, i)
            case None => Everyone(s, e)[i] == Aged(s.tracks[i])
            case Some(j) => j < |e.dets| && Everyone(s, e)[i] == Hit(Aged(s.tracks[i]), e.dets[j])
  {
    ApplyAt(AgedAll(s.tracks), e.dets, e.updates, i);
    hide ApplyUpdates, Hit, Targets;
    var j := TakenBy(e.updates, i);
    if j.Some? {
      var k: nat :| k < |e.updates| && e.updates[k] == (i, j.value);
    }
  }

  /** A known track as the frame leaves it. */
  lemma KnownShows(cfg: Config, s: TrackerState, dets: seq<Detection>, plan: Plan, i: nat)
    requires IsPlan(cfg, s.tracks, dets, plan) && i < |s.tracks|
    ensures var e := EffectOf(cfg, s.tracks, dets, plan);
            var t, j := Everyone(s, e)[i], TakenBy(e.updates, i);
            && Shows(cfg, s, dets, ReportOf(cfg, t), j) && t.age > 0
            && (j.Some? ==> t.sinceUpdate == 0) && (j.None? ==> t.box == s.tracks[i].box)
  {
    var e := EffectOf(cfg, s.tracks, dets, plan);
    DetectionFates(cfg, s.tracks, dets, plan);
    EffectDets(cfg, s.tracks, dets, plan);
    KnownAfter(s, e, i);
    var j := TakenBy(e.updates, i);
    if j.Some? {
      SourceConfident(cfg, e, j.value);
      var k: nat :| k < |e.updates| && e.updates[k] == (i, j.value);
      UpdatesOverlap(cfg, s.tracks, dets, plan, k);
      HitMoves(cfg, s.tracks[i], dets[j.value]);
    } else {
      AgedStays(cfg, s.tracks[i]);
    }
    hide EffectOf, IsPlan, Targets, Iou, Everyone, Hit, Aged, Moved, Stayed, TargetsOk, SourcesOk, ReportOf, TakenBy;
  }

  lemma EffectDets(cfg: Config, ts: seq<TrackState>, dets: seq<Detection>, plan: Plan)
    requires IsPlan(cfg, ts, dets, plan)
    ensures EffectOf(cfg, ts, dets, plan).dets == dets
  {}

  lemma SourceConfident(cfg: Config, e: Effect, j: nat)
    requires SourcesOk(cfg, e) && j in Sources(e.updates)
    ensures j < |e.dets| && (High(cfg, e.dets[j]) || Low(cfg, e.dets[j]))
  {}

  lemma BornConfident(cfg: Config, e: Effect, k: nat)
    requires SourcesOk(cfg, e) && k < |e.born|
    ensures e.born[k] < |e.dets| && High(cfg, e.dets[e.born[k]])
  {}

  lemma BornAfter(s: TrackerState, e: Effect, k: nat)
    requires e.InRange(|s.tracks|) && k < |e.born|
    ensures Everyone(s, e)[|s.tracks| + k] == Born(s.nextId + k, e.dets[e.born[k]])
  {
    hide ApplyUpdates;
  }

  lemma BornShows(cfg: Config, s: TrackerState, dets: seq<Detection>, plan: Plan, k: nat)
    requires IsPlan(cfg, s.tracks, dets, plan) && k < |EffectOf(cfg, s.tracks, dets, plan).born|
    ensures var e := EffectOf(cfg, s.tracks, dets, plan);
            var t := Everyone(s, e)[|s.tracks| + k];
            && e.born[k] < |dets| && Shows(cfg, s, dets, ReportOf(cfg, t), Some(e.born[k]))
            && t.age == 0 && t.sinceUpdate == 0 && t.box == dets[e.born[k]].box
  {
    hide EffectOf, IsPlan, Everyone, Started, Moved, TargetsOk, SourcesOk, ReportOf, Born, High;
    var e := EffectOf(cfg, s.tracks, dets, plan);
    DetectionFates(cfg, s.tracks, dets, plan);
    EffectDets(cfg, s.tracks, dets, plan);
    BornConfident(cfg, e, k);
    BornAfter(s, e, k);
    BornStarts(cfg, s.nextId, s.nextId + k, dets[e.born[k]]);
  }

  lemma TakenIs(us: seq<(nat, nat)>, k: nat)
    requires Injective(Targets(us)) && k < |us|
    ensures TakenBy(us, us[k].0) == Some(us[k].1)
  {
    hide TakenBy;
    assert Targets(us)[k] == us[k].0;
    var j := TakenBy(us, us[k].0);
    var m: nat :| m < |us| && us[m] == (us[k].0, j.value);
    assert Targets(us)[m] == Targets(us)[k];
  }

  /** Where a detection that takes part stands among the sources and births. */
  lemma OriginAt(n: nat, e: Effect, x: nat) returns (p: nat)
    requires x < |Origins(n, e)| && Origins(n, e)[x].Some?
    ensures p < |Sources(e.updates) + e.born| && (Sources(e.updates) + e.born)[p] == Origins(n, e)[x].value
    ensures if x < n then p < |e.updates| && e.updates[p].0 == x else p == |e.updates| + (x - n)
  {
    if x < n {
      p :| p < |e.updates| && e.updates[p] == (x, Origins(n, e)[x].value);
      assert Sources(e.updates)[p] == e.updates[p].1;
    } else {
      p := |e.updates| + (x - n);
    }
  }

  lemma OriginsDiffer(n: nat, e: Effect)
    requires Injective(Sources(e.updates) + e.born)
    ensures NoneTwice(Origins(n, e))
  {
    var origins := Origins(n, e);
    hide Origins;
    forall x, y | 0 <= x < y < |origins| && origins[x].Some? ensures origins[x] != origins[y] {
      if origins[y].Some? {
        var p := OriginAt(n, e, x);
        var q := OriginAt(n, e, y);
        assert p != q;
      }
    }
  }

  /** Every high-confidence detection takes part, and everything that updates a track. */
  lemma OriginsCover(cfg: Config, n: nat, e: Effect, j: nat)
    requires TargetsOk(n, e) && SourcesOk(cfg, e)
    requires j in Sources(e.updates) || (j < |e.dets| && High(cfg, e.dets[j]))
    ensures exists x :: 0 <= x < |Origins(n, e)| && Origins(n, e)[x] == Some(j)
  {
    if j in e.born {
      var k :| 0 <= k < |e.born| && e.born[k] == j;
      assert Origins(n, e)[n + k] == Some(j);
    } else {
      assert j in Sources(e.updates) by { assert j in Sources(e.updates) + e.born; }
      var k :| 0 <= k < |e.updates| && Sources(e.updates)[k] == j;
      TakenIs(e.updates, k);
      assert Origins(n, e)[e.updates[k].0] == Some(j);
    }
  }

  /** The positions of the tracks that removal keeps. */
  ghost function AliveAt(cfg: Config, ts: seq<TrackState>): (at: seq<nat>)
    ensures forall m :: 0 <= m < |at| ==> at[m] < |ts|
    ensures forall m, n :: 0 <= m < n < |at| ==> at[m] < at[n]
    ensures forall x: nat :: x < |ts| && ts[x].sinceUpdate <= cfg.maxAge ==> x in at
  {
    if ts == [] then []
    else AliveAt(cfg, ts[..|ts| - 1]) + (if ts[|ts| - 1].sinceUpdate <= cfg.maxAge then [|ts| - 1] else [])
  }

  lemma {:induction false} AliveIsPick(cfg: Config, ts: seq<TrackState>)
    ensures Alive(cfg, ts) == Pick(ts, AliveAt(cfg, ts))
  {
    if ts != [] {
      var n := |ts| - 1;
      AliveIsPick(cfg, ts[..n]);
      PickInit(ts, AliveAt(cfg, ts[..n]));
      hide Pick;
      PickSnoc(ts, AliveAt(cfg, ts[..n]), n);
    }
  }

  lemma PickInit(ts: seq<TrackState>, at: seq<nat>)
    requires ts != [] && forall m :: 0 <= m < |at| ==> at[m] < |ts| - 1
    ensures Pick(ts[..|ts| - 1], at) == Pick(ts, at)
  {}

  lemma PickSnoc(ts: seq<TrackState>, at: seq<nat>, n: nat)
    requires n < |ts| && forall m :: 0 <= m < |at| ==> at[m] < |ts|
    ensures Pick(ts, at + [n]) == Pick(ts, at) + [ts[n]] && Pick(ts, at + []) == Pick(ts, at) + []
  {
    assert at + [] == at;
  }

  /** What every track of the frame shows. */
  ghost predicate AllShow(cfg: Config, s: TrackerState, dets: seq<Detection>, all: seq<TrackState>,
                          origins: seq<Option<nat>>) {
    && |origins| == |all| && NoneTwice(origins)
    && (forall x :: 0 <= x < |all| ==> Shows(cfg, s, dets, ReportOf(cfg, all[x]), origins[x]))
    && (forall x :: 0 <= x < |all| && origins[x].Some? ==> all[x].sinceUpdate == 0)
    && (forall j: nat :: j < |dets| && High(cfg, dets[j]) ==> exists x :: 0 <= x < |all| && origins[x] == Some(j))
    && (forall x, y :: 0 <= x < |all| && 0 <= y < |all| && origins[x].None? && all[y].age == 0 ==>
          Iou(all[x].box, all[y].box) < cfg.iouThresh)
    && (forall x, j: nat :: 0 <= x < |all| && origins[x].None? && j < |dets| && Low(cfg, dets[j]) ==>
          Iou(all[x].box, dets[j].box) < cfg.iouThresh || exists y :: 0 <= y < |all| && origins[y] == Some(j))
  }

  lemma EveryoneShows(cfg: Config, s: TrackerState, dets: seq<Detection>, plan: Plan)
    requires IsPlan(cfg, s.tracks, dets, plan)
    ensures var e := EffectOf(cfg, s.tracks, dets, plan); AllShow(cfg, s, dets, Everyone(s, e), Origins(|s.tracks|, e))
  {
    hide IsPlan, EffectOf, Everyone, Shows, Iou, TakenBy, Targets, Sources, NoneTwice, High, Low;
    hide TargetsOk;
    var n, e := |s.tracks|, EffectOf(cfg, s.tracks, dets, plan);
    var all, origins := Everyone(s, e), Origins(n, e);
    DetectionFates(cfg, s.tracks, dets, plan);
    EffectDets(cfg, s.tracks, dets, plan);
    OriginsDiffer(n, e);
    forall x: nat | x < |all| ensures Told(cfg, s, dets, e, all[x], x, origins[x]) {
      TellsOf(cfg, s, dets, plan, x);
    }
    hide ReportOf, Origins;
    forall j: nat | j < |dets| && High(cfg, dets[j]) ensures exists x :: 0 <= x < |all| && origins[x] == Some(j) {
      OriginsCover(cfg, n, e, j);
    }
    forall x, y | 0 <= x < |all| && 0 <= y < |all| && origins[x].None? && all[y].age == 0
      ensures Iou(all[x].box, all[y].box) < cfg.iouThresh
    {
      assert Told(cfg, s, dets, e, all[x], x, origins[x]) && Told(cfg, s, dets, e, all[y], y, origins[y]);
      BornApart(cfg, s.tracks, dets, plan, x, y - n);
    }
    forall x, j: nat | 0 <= x < |all| && origins[x].None? && j < |dets| && Low(cfg, dets[j])
      ensures Iou(all[x].box, dets[j].box) < cfg.iouThresh || exists y :: 0 <= y < |all| && origins[y] == Some(j)
    {
      assert Told(cfg, s, dets, e, all[x], x, origins[x]);
      if j in Sources(e.updates) { OriginsCover(cfg, n, e, j); } else { LowApart(cfg, s.tracks, dets, plan, x, j); }
    }
  }

  /** What is known of one track of the frame. */
  ghost predicate Told(cfg: Config, s: TrackerState, dets: seq<Detection>, e: Effect, t: TrackState, x: nat,
                       origin: Option<nat>) {
    && Shows(cfg, s, dets, ReportOf(cfg, t), origin)
    && (origin.Some? ==> t.sinceUpdate == 0)
    && (t.age == 0 <==> x >= |s.tracks|)
    && (origin.None? ==> x < |s.tracks| && x !in Targets(e.updates) && t.box == s.tracks[x].box)
    && (x >= |s.tracks| ==> x - |s.tracks| < |e.born| && e.born[x - |s.tracks|] < |dets|
                            && t.box == dets[e.born[x - |s.tracks|]].box)
  }

  lemma TellsOf(cfg: Config, s: TrackerState, dets: seq<Detection>, plan: Plan, x: nat)
    requires IsPlan(cfg, s.tracks, dets, plan)
    requires x < |Everyone(s, EffectOf(cfg, s.tracks, dets, plan))|
    ensures var e := EffectOf(cfg, s.tracks, dets, plan);
            Told(cfg, s, dets, e, Everyone(s, e)[x], x, Origins(|s.tracks|, e)[x])
  {
    hide IsPlan, EffectOf, Everyone, Shows, Iou, Targets, TakenBy;
    if x < |s.tracks| {
      KnownShows(cfg, s, dets, plan, x);
    } else {
      BornShows(cfg, s, dets, plan, x - |s.tracks|);
    }
  }

  /** The report of every frame. */
  lemma FrameReport(cfg: Config, s: TrackerState, dets: seq<Detection>, plan: Plan)
    returns (origins: seq<Option<nat>>)
    requires IsPlan(cfg, s.tracks, dets, plan)
    ensures IsReport(cfg, s, dets, Formatted(cfg, Step(cfg, s, EffectOf(cfg, s.tracks, dets, plan)).tracks), origins)
  {
    EveryoneShows(cfg, s, dets, plan);
    var e := EffectOf(cfg, s.tracks, dets, plan);
    var all, from := Everyone(s, e), Origins(|s.tracks|, e);
    var at := AliveAt(cfg, all);
    AliveIsPick(cfg, all);
    var after := Step(cfg, s, e).tracks;
    assert after == Pick(all, at) && e.dets == dets;
    origins := Pick(from, at);
    hide IsPlan, EffectOf, Everyone, Step, Origins, Alive;
    KeptReport(cfg, s, dets, all, from, at);
  }

  lemma KeptReport(cfg: Config, s: TrackerState, dets: seq<Detection>, all: seq<TrackState>, from: seq<Option<nat>>,
                   at: seq<nat>)
    requires AllShow(cfg, s, dets, all, from)
    requires forall m :: 0 <= m < |at| ==> at[m] < |all|
    requires forall m, n :: 0 <= m < n < |at| ==> at[m] < at[n]
    requires forall x: nat :: x < |all| && all[x].sinceUpdate <= cfg.maxAge ==> x in at
    ensures IsReport(cfg, s, dets, Formatted(cfg, Pick(all, at)), Pick(from, at))
  {
    hide Shows, Iou, High, Low;
    var out, origins := Formatted(cfg, Pick(all, at)), Pick(from, at);
    assert forall m :: 0 <= m < |out| ==> out[m] == ReportOf(cfg, all[at[m]]) && origins[m] == from[at[m]];
    if cfg.maxAge >= 0 {
      forall x: nat | x < |all| && from[x].Some? ensures from[x] in origins {
        var m :| 0 <= m < |at| && at[m] == x;
        assert origins[m] == from[x];
      }
    }
  }
}
