/** The ByteTrack tracker's mutable objects: `Step` (module Frames) is what one call of `Update` does to
    their values, module FrameFates says what its report shows, module TrackerRuns what holds over runs. */
module Tracker {
  import opened Assignment
  import opened Boxes
  import opened FrameFates
  import opened Frames
  import opened Options
  import opened Reports
  import opened Sequences

  // ---------- the mutable objects ----------

  class Track {
    const trackId: nat
    var box: Box
    var confidence: real
    var name: string
    var age: nat
    var hits: nat
    var timeSinceUpdate: nat
    var velocity: Box

    ghost function State(): TrackState
      reads this
    {
      TrackState(trackId, box, confidence, name, age, hits, timeSinceUpdate, velocity)
    }

    constructor (id: nat, d: Detection)
      ensures State() == Born(id, d)
    {
      trackId, box, confidence, name := id, d.box, d.confidence, d.name;
      age, hits, timeSinceUpdate, velocity := 0, 1, 0, Box(0.0, 0.0, 0.0, 0.0);
    }

    method Predict() returns (predicted: Box)
      modifies this
      ensures State() == Aged(old(State()))
      ensures predicted == Plus(old(box), old(velocity))
      ensures predicted.x1 == old(box.x1 + velocity.x1) && predicted.y1 == old(box.y1 + velocity.y1)
      ensures predicted.x2 == old(box.x2 + velocity.x2) && predicted.y2 == old(box.y2 + velocity.y2)
    {
      age := age + 1;
      timeSinceUpdate := timeSinceUpdate + 1;
      predicted := Plus(box, velocity);
    }

    method Update(newBox: Box, newConfidence: real)
      modifies this
      ensures forall l :: State().(name := l) == Hit(old(State()), Detection(newBox, newConfidence, l))
      ensures box == newBox && confidence == newConfidence && name == old(name)
      ensures hits == old(hits) + 1 && timeSinceUpdate == 0 && age == old(age)
      ensures Follows(old(velocity), velocity, old(box), newBox)
    {
      velocity := Blend(velocity, box, newBox);
      box := newBox;
      confidence := newConfidence;
      hits := hits + 1;
      timeSinceUpdate := 0;
    }
  }

  ghost predicate Distinct(ts: seq<Track>) {
    forall i, j :: 0 <= i < j < |ts| ==> ts[i] != ts[j]
  }

  ghost function States(ts: seq<Track>): (r: seq<TrackState>)
    reads ts
    ensures |r| == |ts| && forall i :: 0 <= i < |ts| ==> r[i] == ts[i].State()
  {
    seq(|ts|, i requires 0 <= i < |ts| reads ts => ts[i].State())
  }

  /** Updates track `at` of a list with a detection, name included. */
  method HitTrack(ts: seq<Track>, at: nat, d: Detection)
    requires Distinct(ts) && at < |ts|
    modifies ts[at]
    ensures States(ts) == old(States(ts))[at := Hit(old(States(ts))[at], d)]
  {
    ts[at].Update(d.box, d.confidence);
    ts[at].name := d.name;
  }

  method AgeTracks(ts: seq<Track>)
    requires Distinct(ts)
    modifies ts
    ensures States(ts) == AgedAll(old(States(ts)))
  {
    for k := 0 to |ts|
      invariant forall i :: 0 <= i < k ==> ts[i].State() == Aged(old(ts[i].State()))
      invariant forall i :: k <= i < |ts| ==> ts[i].State() == old(ts[i].State())
    {
      var _ := ts[k].Predict();
    }
  }

  method ApplyAll(ts: seq<Track>, dets: seq<Detection>, rows: seq<nat>, cols: seq<nat>, matches: seq<Cell>)
    requires Distinct(ts) && InLists(rows, cols, matches)
    requires forall k :: 0 <= k < |rows| ==> rows[k] < |ts|
    requires forall k :: 0 <= k < |cols| ==> cols[k] < |dets|
    modifies ts
    ensures States(ts) == ApplyUpdates(old(States(ts)), dets, Lift(rows, cols, matches))
  {
    ghost var us := Lift(rows, cols, matches);
    for k := 0 to |matches|
      invariant States(ts) == ApplyUpdates(old(States(ts)), dets, us[..k])
    {
      assert us[..k + 1][..k] == us[..k];
      HitTrack(ts, rows[matches[k].0], dets[cols[matches[k].1]]);
    }
    assert us[..|matches|] == us;
  }

  /** One association stage: scores the tracks at `rows` against the detections at `cols`,
      assigns greedily and updates the matched tracks. */
  method Associate(ts: seq<Track>, dets: seq<Detection>, rows: seq<nat>, cols: seq<nat>, threshold: real)
    returns (matches: seq<Cell>, left: seq<nat>, unclaimed: seq<nat>)
    requires Distinct(ts)
    requires forall k :: 0 <= k < |rows| ==> rows[k] < |ts|
    requires forall k :: 0 <= k < |cols| ==> cols[k] < |dets|
    modifies ts
    ensures NoRepeats(matches)
    ensures GreedyMatching(IouBatch(BoxesOf(Pick(old(States(ts)), rows)), DetBoxes(Pick(dets, cols))),
                           threshold, Cells(matches))
    ensures InLists(rows, cols, matches)
    ensures States(ts) == ApplyUpdates(old(States(ts)), dets, Lift(rows, cols, matches))
    ensures left == Unused(|rows|, Rows(Cells(matches)))
    ensures unclaimed == Unused(|cols|, Cols(Cells(matches)))
  {
    var scores := IouBatch(TrackBoxes(Pick(ts, rows)), DetBoxes(Pick(dets, cols)));
    assert States(Pick(ts, rows)) == Pick(States(ts), rows);
    matches, left, unclaimed := LinearAssignment(scores, threshold);
    MatchesInLists(scores, threshold, rows, cols, matches);
    ApplyAll(ts, dets, rows, cols, matches);
  }

  /** Ages every track and runs both association stages; `unclaimed` are the high-confidence
      detections that matched no track. */
  method AssociateAll(cfg: Config, ts: seq<Track>, dets: seq<Detection>)
    returns (unclaimed: seq<nat>, ghost plan: Plan)
    requires Distinct(ts)
    modifies ts
    ensures IsPlan(cfg, old(States(ts)), dets, plan)
    ensures var e := EffectOf(cfg, old(States(ts)), dets, plan);
            States(ts) == ApplyUpdates(AgedAll(old(States(ts))), dets, e.updates) && unclaimed == e.born
  {
    ghost var before := States(ts);
    var high, low := HighIndices(cfg, dets), LowIndices(cfg, dets);
    AgeTracks(ts);
    var first, left, missed := Associate(ts, dets, Identity(|ts|), high, cfg.iouThresh);
    var second, _, _ := Associate(ts, dets, left, low, cfg.iouThresh);
    StagesMakePlan(cfg, before, dets, first, left, second);
    plan := Plan(first, second);
    unclaimed := Pick(high, missed);
  }

  lemma StagesMakePlan(cfg: Config, ts: seq<TrackState>, dets: seq<Detection>, first: seq<Cell>, left: seq<nat>,
                       second: seq<Cell>)
    requires InLists(Identity(|ts|), HighIndices(cfg, dets), first) && InLists(left, LowIndices(cfg, dets), second)
    requires NoRepeats(first) && NoRepeats(second)
    requires GreedyMatching(IouBatch(BoxesOf(Pick(AgedAll(ts), Identity(|ts|))),
                                     DetBoxes(Pick(dets, HighIndices(cfg, dets)))),
                            cfg.iouThresh, Cells(first))
    requires left == Unused(|ts|, Rows(Cells(first)))
    requires var one := ApplyUpdates(AgedAll(ts), dets, Lift(Identity(|ts|), HighIndices(cfg, dets), first));
             GreedyMatching(IouBatch(BoxesOf(Pick(one, left)), DetBoxes(Pick(dets, LowIndices(cfg, dets)))),
                            cfg.iouThresh, Cells(second))
    ensures IsPlan(cfg, ts, dets, Plan(first, second))
    ensures var us1 := Lift(Identity(|ts|), HighIndices(cfg, dets), first);
            var us2 := Lift(left, LowIndices(cfg, dets), second);
            ApplyUpdates(ApplyUpdates(AgedAll(ts), dets, us1), dets, us2) == ApplyUpdates(AgedAll(ts), dets, us1 + us2)
  {
    assert BoxesOf(Pick(AgedAll(ts), Identity(|ts|))) == BoxesOf(ts);
    FirstStageLeaves(ts, dets, HighIndices(cfg, dets), first, left);
    ApplyConcat(AgedAll(ts), dets, Lift(Identity(|ts|), HighIndices(cfg, dets), first),
                Lift(left, LowIndices(cfg, dets), second));
  }

  /** The boxes of the tracks left over are those from before the first stage. */
  lemma FirstStageLeaves(ts: seq<TrackState>, dets: seq<Detection>, high: seq<nat>, first: seq<Cell>, left: seq<nat>)
    requires InLists(Identity(|ts|), high, first)
    requires forall k :: 0 <= k < |high| ==> high[k] < |dets|
    requires left == Unused(|ts|, Rows(Cells(first)))
    ensures BoxesOf(Pick(ApplyUpdates(AgedAll(ts), dets, Lift(Identity(|ts|), high, first)), left)) ==
            BoxesOf(Pick(ts, left))
  {
    var us := Lift(Identity(|ts|), high, first);
    forall k, j | 0 <= k < |us| && 0 <= j < |left|
      ensures us[k].0 != left[j]
    {
      assert first[k] in Cells(first) && first[k].0 in Rows(Cells(first)) && left[j] in left;
    }
    OthersUntouched(AgedAll(ts), dets, us, left);
    AgedBoxes(ts, left);
  }

  lemma AgedBoxes(ts: seq<TrackState>, at: seq<nat>)
    requires forall k :: 0 <= k < |at| ==> at[k] < |ts|
    ensures BoxesOf(Pick(AgedAll(ts), at)) == BoxesOf(Pick(ts, at))
  {}

  lemma {:induction false} ApplyConcat(ts: seq<TrackState>, dets: seq<Detection>, a: seq<(nat, nat)>,
                                       b: seq<(nat, nat)>)
    requires forall k :: 0 <= k < |a| ==> a[k].0 < |ts| && a[k].1 < |dets|
    requires forall k :: 0 <= k < |b| ==> b[k].0 < |ts| && b[k].1 < |dets|
    ensures ApplyUpdates(ApplyUpdates(ts, dets, a), dets, b) == ApplyUpdates(ts, dets, a + b)
  {
    if b == [] {
      assert a + b == a;
    } else {
      ApplyConcat(ts, dets, a, b[..|b| - 1]);
      assert (a + b)[..|a + b| - 1] == a + b[..|b| - 1];
    }
  }

  /** Updates leave the tracks they do not list as they were. */
  lemma {:induction false} OthersUntouched(ts: seq<TrackState>, dets: seq<Detection>, us: seq<(nat, nat)>,
                                           left: seq<nat>)
    requires forall k :: 0 <= k < |us| ==> us[k].0 < |ts| && us[k].1 < |dets|
    requires forall k :: 0 <= k < |left| ==> left[k] < |ts|
    requires forall k, j :: 0 <= k < |us| && 0 <= j < |left| ==> us[k].0 != left[j]
    ensures Pick(ApplyUpdates(ts, dets, us), left) == Pick(ts, left)
  {
    if us != [] {
      OthersUntouched(ts, dets, us[..|us| - 1], left);
      var prefix := ApplyUpdates(ts, dets, us[..|us| - 1]);
      forall k | 0 <= k < |left|
        ensures ApplyUpdates(ts, dets, us)[left[k]] == ts[left[k]]
      {
        assert prefix[left[k]] == Pick(prefix, left)[k] == Pick(ts, left)[k];
      }
    }
  }

  method KeepAlive(cfg: Config, ts: seq<Track>) returns (kept: seq<Track>)
    requires Distinct(ts)
    ensures Distinct(kept) && (forall t :: t in kept ==> t in ts)
    ensures States(kept) == Alive(cfg, States(ts))
  {
    kept := [];
    ghost var all := States(ts);
    for k := 0 to |ts|
      invariant Distinct(kept) && (forall t :: t in kept ==> t in ts[..k])
      invariant States(kept) == Alive(cfg, all[..k])
    {
      assert all[..k + 1][..k] == all[..k];
      if ts[k].timeSinceUpdate <= cfg.maxAge {
        assert ts[k] !in ts[..k];
        kept := kept + [ts[k]];
      }
    }
    assert all[..|ts|] == all;
  }

  /** A frame's step: births and removals after the updates of its plan. */
  lemma StepIs(cfg: Config, s: TrackerState, dets: seq<Detection>, plan: Plan)
    requires IsPlan(cfg, s.tracks, dets, plan)
    ensures var e := EffectOf(cfg, s.tracks, dets, plan);
            && (forall k :: 0 <= k < |e.born| ==> e.born[k] < |dets|) && e.dets == dets
            && Step(cfg, s, e) ==
               Settled(cfg, ApplyUpdates(AgedAll(s.tracks), dets, e.updates), s.nextId, Pick(dets, e.born))
  {
    hide IsPlan, Settled, ApplyUpdates;
  }

  class ByteTracker {
    const cfg: Config
    var tracks: seq<Track>
    var nextId: nat

    ghost predicate Valid()
      reads this
    {
      Distinct(tracks)
    }

    ghost function Snapshot(): TrackerState
      reads this, tracks
    {
      TrackerState(States(tracks), nextId)
    }

    constructor (cfg: Config)
      ensures Valid() && this.cfg == cfg && tracks == []
      ensures Snapshot() == TrackerState([], 1)
    {
      this.cfg := cfg;
      tracks, nextId := [], 1;
    }

    method Reset()
      modifies this
      ensures Valid() && Snapshot() == TrackerState([], 1)
    {
      tracks, nextId := [], 1;
    }

    /** Starts one track per unclaimed high-confidence detection, with consecutive ids. */
    method StartTracks(dets: seq<Detection>)
      requires Valid()
      modifies this
      ensures Valid() && |tracks| == |old(tracks)| + |dets| && tracks[..|old(tracks)|] == old(tracks)
      ensures forall t :: t in tracks ==> t in old(tracks) || fresh(t)
      ensures Snapshot() == TrackerState(old(States(tracks)) + BornAll(old(nextId), dets), old(nextId) + |dets|)
    {
      for k := 0 to |dets|
        invariant Distinct(tracks) && |tracks| == |old(tracks)| + k
        invariant tracks[..|old(tracks)|] == old(tracks)
        invariant forall t :: t in tracks ==> allocated(t) && (t in old(tracks) || fresh(t))
        invariant nextId == old(nextId) + k
        invariant forall i :: 0 <= i < |old(tracks)| ==> tracks[i].State() == old(tracks[i].State())
        invariant forall i :: 0 <= i < k ==> tracks[|old(tracks)| + i].State() == Born(old(nextId) + i, dets[i])
      {
        var t := new Track(nextId, dets[k]);
        tracks := tracks + [t];
        nextId := nextId + 1;
      }
    }

    method Settle(dets: seq<Detection>)
      requires Valid()
      modifies this
      ensures Valid() && forall t :: t in tracks ==> t in old(tracks) || fresh(t)
      ensures Snapshot() == Settled(cfg, old(States(tracks)), old(nextId), dets)
    {
      StartTracks(dets);
      ghost var all := States(tracks);
      var kept := KeepAlive(cfg, tracks);
      assert States(kept) == Alive(cfg, all);
      tracks := kept;
    }

    /** Processes one frame of detections. */
    method Update(dets: seq<Detection>)
      returns (out: seq<Report>, ghost plan: Plan, ghost origins: seq<Option<nat>>)
      requires Valid()
      modifies this, tracks
      ensures IsReport(cfg, old(Snapshot()), dets, out, origins)
      ensures Valid() && forall t :: t in tracks ==> t in old(tracks) || fresh(t)
      ensures IsPlan(cfg, old(Snapshot()).tracks, dets, plan)
      ensures Snapshot() == Step(cfg, old(Snapshot()), EffectOf(cfg, old(Snapshot()).tracks, dets, plan))
      ensures out == Formatted(cfg, Snapshot().tracks)
    {
      hide IsReport, Step, EffectOf, IsPlan, ApplyUpdates, Settled, Formatted;
      ghost var before := Snapshot();
      var unclaimed;
      unclaimed, plan := AssociateAll(cfg, tracks, dets);
      StepIs(cfg, before, dets, plan);
      Settle(Pick(dets, unclaimed));
      origins := FrameReport(cfg, before, dets, plan);
      out := Format();
    }

    method Format() returns (out: seq<Report>)
      ensures out == Formatted(cfg, Snapshot().tracks)
    {
      out := [];
      for k := 0 to |tracks|
        invariant out == Formatted(cfg, Snapshot().tracks)[..k]
      {
        var t := tracks[k];
        out := out + [Report(t.trackId, t.box, t.confidence, t.name, t.hits >= cfg.minHits, t.age)];
      }
    }
  }

  function TrackBoxes(ts: seq<Track>): (r: seq<Box>)
    reads ts
    ensures r == BoxesOf(States(ts))
  {
    seq(|ts|, i requires 0 <= i < |ts| reads ts => ts[i].box)
  }
}
