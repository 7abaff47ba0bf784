/** What the tracker keeps over every frame and every run of frames. */
module TrackerRuns {
  import opened FrameFates
  import opened Frames
  import opened Options

  // ---------- the invariant ----------

  ghost predicate Ascending(ts: seq<TrackState>) {
    forall i, j :: 0 <= i < j < |ts| ==> ts[i].id < ts[j].id
  }

  /** A track's id was issued, and its counters agree with its age. */
  ghost predicate TrackOk(t: TrackState, nextId: nat) {
    && 1 <= t.id < nextId
    && t.hits >= 1
    && t.hits + t.sinceUpdate <= t.age + 1
  }

  /** Ids strictly increase along the list and are below the counter, every track's
      counters agree with its age, and none is overdue. */
  ghost predicate Inv(cfg: Config, s: TrackerState) {
    && Ascending(s.tracks)
    && s.nextId >= 1
    && forall i :: 0 <= i < |s.tracks| ==> TrackOk(s.tracks[i], s.nextId) && s.tracks[i].sinceUpdate <= cfg.maxAge
  }

  lemma {:induction false} AliveKeeps(cfg: Config, ts: seq<TrackState>, nextId: nat)
    requires Ascending(ts) && forall i :: 0 <= i < |ts| ==> TrackOk(ts[i], nextId)
    ensures Ascending(Alive(cfg, ts))
    ensures forall i :: 0 <= i < |Alive(cfg, ts)| ==>
              TrackOk(Alive(cfg, ts)[i], nextId) && Alive(cfg, ts)[i].sinceUpdate <= cfg.maxAge
    ensures ts != [] ==> forall i :: 0 <= i < |Alive(cfg, ts)| ==> Alive(cfg, ts)[i].id <= ts[|ts| - 1].id
  {
    if ts != [] {
      AliveKeeps(cfg, ts[..|ts| - 1], nextId);
    }
  }

  lemma StepKeepsInv(cfg: Config, s: TrackerState, e: Effect)
    requires Inv(cfg, s) && TargetsOk(|s.tracks|, e)
    ensures Inv(cfg, Step(cfg, s, e))
  {
    var a := ApplyUpdates(AgedAll(s.tracks), e.dets, e.updates);
    var b := BornAll(s.nextId, Pick(e.dets, e.born));
    forall i | 0 <= i < |a|
      ensures a[i].id == s.tracks[i].id && TrackOk(a[i], s.nextId)
    {
      var _ := MovedAt(s, e, i);
    }
    AscendingWithBorn(a, s.nextId, Pick(e.dets, e.born));
    AliveKeeps(cfg, a + b, s.nextId + |b|);
  }

  // ---------- the fate of one id in one frame ----------

  /** The position of the track with the given id. */
  ghost function IndexOf(ts: seq<TrackState>, id: nat): (r: Option<nat>)
    ensures r.Some? ==> r.value < |ts| && ts[r.value].id == id
    ensures r.None? ==> forall i :: 0 <= i < |ts| ==> ts[i].id != id
  {
    if ts == [] then None
    else if ts[|ts| - 1].id == id then Some(|ts| - 1)
    else IndexOf(ts[..|ts| - 1], id)
  }

  ghost predicate Live(s: TrackerState, id: nat) {
    IndexOf(s.tracks, id).Some?
  }

  ghost function Since(s: TrackerState, id: nat): nat
    requires Live(s, id)
  {
    s.tracks[IndexOf(s.tracks, id).value].sinceUpdate
  }

  /** The frame updates the track with this id. */
  ghost predicate HitsId(s: TrackerState, e: Effect, id: nat) {
    Live(s, id) && IndexOf(s.tracks, id).value in Targets(e.updates)
  }

  /** Removal keeps a track exactly when it is not overdue. */
  lemma {:induction false} AliveFate(cfg: Config, ts: seq<TrackState>, id: nat)
    requires Ascending(ts)
    ensures var at, at' := IndexOf(ts, id), IndexOf(Alive(cfg, ts), id);
            && (at'.Some? <==> at.Some? && ts[at.value].sinceUpdate <= cfg.maxAge)
            && (at'.Some? ==> Alive(cfg, ts)[at'.value] == ts[at.value])
  {
    if ts != [] {
      var init, last := ts[..|ts| - 1], ts[|ts| - 1];
      AliveFate(cfg, init, id);
      var kept := Alive(cfg, init);
      assert last.id == id ==> IndexOf(init, id).None?;
      if last.sinceUpdate <= cfg.maxAge {
        assert Alive(cfg, ts) == kept + [last] && (kept + [last])[..|kept|] == kept;
      } else {
        assert Alive(cfg, ts) == kept + [] == kept;
      }
    }
  }

  lemma {:induction false} IndexOfConcat(a: seq<TrackState>, b: seq<TrackState>, id: nat)
    ensures IndexOf(a + b, id) ==
            if IndexOf(b, id).Some? then Some(|a| + IndexOf(b, id).value) else IndexOf(a, id)
  {
    if b == [] {
      assert a + b == a;
    } else {
      IndexOfConcat(a, b[..|b| - 1], id);
      assert (a + b)[..|a + b| - 1] == a + b[..|b| - 1];
    }
  }

  lemma {:induction false} IndexOfSameIds(a: seq<TrackState>, b: seq<TrackState>, id: nat)
    requires |a| == |b| && forall i :: 0 <= i < |a| ==> a[i].id == b[i].id
    ensures IndexOf(a, id) == IndexOf(b, id)
  {
    if a != [] {
      IndexOfSameIds(a[..|a| - 1], b[..|b| - 1], id);
    }
  }

  /** The fate of any id in a frame. A live one survives exactly when it is hit or its miss count
      stays within the limit; one that is gone stays gone; a newly issued one starts with no misses. */
  lemma IdFate(cfg: Config, s: TrackerState, e: Effect, id: nat)
    requires Inv(cfg, s) && TargetsOk(|s.tracks|, e)
    ensures var s' := Step(cfg, s, e);
            if Live(s, id) then
              var n := if HitsId(s, e, id) then 0 else Since(s, id) + 1;
              id < s.nextId && (Live(s', id) <==> n <= cfg.maxAge) && (Live(s', id) ==> Since(s', id) == n)
            else
              && (Live(s', id) <==> s.nextId <= id < s'.nextId && 0 <= cfg.maxAge)
              && (Live(s', id) ==> Since(s', id) == 0)
  {
    var a := ApplyUpdates(AgedAll(s.tracks), e.dets, e.updates);
    forall i | 0 <= i < |a|
      ensures a[i].id == s.tracks[i].id && 1 <= a[i].id < s.nextId
    {
      var _ := MovedAt(s, e, i);
    }
    if Live(s, id) {
      var _ := MovedAt(s, e, IndexOf(s.tracks, id).value);
    }
    IndexOfSameIds(a, s.tracks, id);
    SettledFate(cfg, a, s.nextId, Pick(e.dets, e.born), id);
  }

  lemma SettledFate(cfg: Config, a: seq<TrackState>, nextId: nat, dets: seq<Detection>, id: nat)
    requires Ascending(a) && forall i :: 0 <= i < |a| ==> a[i].id < nextId
    ensures var s' := Settled(cfg, a, nextId, dets);
            var at := IndexOf(a, id);
            if at.Some? then
              && (Live(s', id) <==> a[at.value].sinceUpdate <= cfg.maxAge)
              && (Live(s', id) ==> Since(s', id) == a[at.value].sinceUpdate)
            else
              && (Live(s', id) <==> nextId <= id < s'.nextId && 0 <= cfg.maxAge)
              && (Live(s', id) ==> Since(s', id) == 0)
  {
    hide IndexOf, Alive, Ascending;
    var b := BornAll(nextId, dets);
    IndexOfBorn(nextId, dets, id);
    IndexOfConcat(a, b, id);
    AscendingWithBorn(a, nextId, dets);
    AliveFate(cfg, a + b, id);
  }

  lemma IndexOfBorn(nextId: nat, dets: seq<Detection>, id: nat)
    ensures IndexOf(BornAll(nextId, dets), id) ==
            if nextId <= id < nextId + |dets| then Some(id - nextId) else None
  {
    var b := BornAll(nextId, dets);
    assert nextId <= id < nextId + |b| ==> b[id - nextId].id == id;
  }

  lemma AscendingWithBorn(a: seq<TrackState>, nextId: nat, dets: seq<Detection>)
    requires Ascending(a) && forall i :: 0 <= i < |a| ==> a[i].id < nextId
    ensures Ascending(a + BornAll(nextId, dets))
  {}

  // ---------- runs ----------

  ghost predicate IsStep(cfg: Config, s: TrackerState, e: Effect, s': TrackerState) {
    TargetsOk(|s.tracks|, e) && SourcesOk(cfg, e) && s' == Step(cfg, s, e)
  }

  /** Every call of `Update` is such a step. */
  lemma UpdateIsStep(cfg: Config, s: TrackerState, dets: seq<Detection>, plan: Plan)
    requires IsPlan(cfg, s.tracks, dets, plan)
    ensures IsStep(cfg, s, EffectOf(cfg, s.tracks, dets, plan), Step(cfg, s, EffectOf(cfg, s.tracks, dets, plan)))
  {
    DetectionFates(cfg, s.tracks, dets, plan);
  }

  /** A run from a fresh (or just reset) tracker: `states[k]` is the state before frame `k`. */
  ghost predicate IsRun(cfg: Config, states: seq<TrackerState>, frames: seq<Effect>) {
    && |states| == |frames| + 1
    && states[0] == TrackerState([], 1)
    && forall k :: 0 <= k < |frames| ==> IsStep(cfg, states[k], frames[k], states[k + 1])
  }

  lemma {:induction false} RunKeepsInv(cfg: Config, states: seq<TrackerState>, frames: seq<Effect>, k: nat)
    requires IsRun(cfg, states, frames) && k <= |frames|
    ensures Inv(cfg, states[k])
  {
    if k > 0 {
      RunKeepsInv(cfg, states, frames, k - 1);
      assert IsStep(cfg, states[k - 1], frames[k - 1], states[k]);
      StepKeepsInv(cfg, states[k - 1], frames[k - 1]);
    }
  }

  /** The id counter never goes back, and an id that was issued and is gone never comes back. */
  lemma {:induction false} NeverReissued(cfg: Config, states: seq<TrackerState>, frames: seq<Effect>,
                                         i: nat, j: nat, id: nat)
    requires IsRun(cfg, states, frames) && i <= j <= |frames|
    requires id < states[i].nextId && !Live(states[i], id)
    ensures states[i].nextId <= states[j].nextId && !Live(states[j], id)
  {
    if i < j {
      NeverReissued(cfg, states, frames, i, j - 1, id);
      RunKeepsInv(cfg, states, frames, j - 1);
      assert IsStep(cfg, states[j - 1], frames[j - 1], states[j]);
      IdFate(cfg, states[j - 1], frames[j - 1], id);
    }
  }

  /** The number of frames since the id was issued or last hit, counted from the frames alone. */
  ghost function MissStreak(states: seq<TrackerState>, frames: seq<Effect>, id: nat, k: nat): nat
    requires |states| == |frames| + 1 && k <= |frames|
  {
    if k == 0 || id >= states[k - 1].nextId || HitsId(states[k - 1], frames[k - 1], id) then 0
    else MissStreak(states, frames, id, k - 1) + 1
  }

  ghost predicate NeverOverdue(cfg: Config, states: seq<TrackerState>, frames: seq<Effect>, id: nat, k: nat)
    requires |states| == |frames| + 1 && k <= |frames|
  {
    forall m :: 0 <= m <= k && id < states[m].nextId ==> MissStreak(states, frames, id, m) <= cfg.maxAge
  }

  /** In every run, an issued id is live exactly while its streak of consecutive misses has never
      exceeded `maxAge`: a track is dropped exactly on its (maxAge + 1)-th consecutive miss. */
  lemma {:induction false} LiveIffNeverOverdue(cfg: Config, states: seq<TrackerState>, frames: seq<Effect>, id: nat,
                                               k: nat)
    requires IsRun(cfg, states, frames) && k <= |frames| && id >= 1
    ensures Live(states[k], id) <==> id < states[k].nextId && NeverOverdue(cfg, states, frames, id, k)
    ensures Live(states[k], id) ==> Since(states[k], id) == MissStreak(states, frames, id, k)
  {
    hide Inv, Step, HitsId, TargetsOk, SourcesOk;
    if k > 0 {
      LiveIffNeverOverdue(cfg, states, frames, id, k - 1);
      RunKeepsInv(cfg, states, frames, k - 1);
      var s, e := states[k - 1], frames[k - 1];
      assert IsStep(cfg, s, e, states[k]);
      OverdueStep(cfg, states, frames, id, k);
      IdFate(cfg, s, e, id);
      IdsOnlyGrow(cfg, states, frames, k - 1);
      IdsOnlyGrow(cfg, states, frames, k);
    }
  }

  lemma OverdueStep(cfg: Config, states: seq<TrackerState>, frames: seq<Effect>, id: nat, k: nat)
    requires |states| == |frames| + 1 && 0 < k <= |frames|
    ensures NeverOverdue(cfg, states, frames, id, k) <==>
            && NeverOverdue(cfg, states, frames, id, k - 1)
            && (id < states[k].nextId ==> MissStreak(states, frames, id, k) <= cfg.maxAge)
  {}

  lemma {:induction false} IdsOnlyGrow(cfg: Config, states: seq<TrackerState>, frames: seq<Effect>, k: nat)
    requires IsRun(cfg, states, frames) && k <= |frames|
    ensures forall m :: 0 <= m <= k ==> states[m].nextId <= states[k].nextId
  {
    if k > 0 {
      IdsOnlyGrow(cfg, states, frames, k - 1);
      assert IsStep(cfg, states[k - 1], frames[k - 1], states[k]);
    }
  }

  // ---------- the counters of a track ----------

  ghost function TrackOf(s: TrackerState, id: nat): TrackState
    requires Live(s, id)
  {
    s.tracks[IndexOf(s.tracks, id).value]
  }

  /** The number of frames after the one that issued the id, counted from the frames alone. */
  ghost function FramesSince(states: seq<TrackerState>, id: nat, k: nat): nat
    requires k < |states|
  {
    if k == 0 || id >= states[k - 1].nextId then 0 else FramesSince(states, id, k - 1) + 1
  }

  /** The number of detections the id has carried, its first included, counted from the frames alone. */
  ghost function Detections(states: seq<TrackerState>, frames: seq<Effect>, id: nat, k: nat): nat
    requires |states| == |frames| + 1 && k <= |frames|
  {
    if k == 0 || id >= states[k - 1].nextId then 1
    else Detections(states, frames, id, k - 1) + if HitsId(states[k - 1], frames[k - 1], id) then 1 else 0
  }

  /** What a frame does to the counters of one id. */
  lemma IdCounts(cfg: Config, s: TrackerState, e: Effect, id: nat)
    requires Inv(cfg, s) && TargetsOk(|s.tracks|, e) && Live(Step(cfg, s, e), id)
    ensures var t := TrackOf(Step(cfg, s, e), id);
            if Live(s, id)
            then t.age == TrackOf(s, id).age + 1 && t.hits == TrackOf(s, id).hits + (if HitsId(s, e, id) then 1 else 0)
            else t.age == 0 && t.hits == 1 && id >= s.nextId
  {
    var a := ApplyUpdates(AgedAll(s.tracks), e.dets, e.updates);
    forall i | 0 <= i < |a| ensures a[i].id == s.tracks[i].id && a[i].id < s.nextId {
      var _ := MovedAt(s, e, i);
    }
    if Live(s, id) {
      var _ := MovedAt(s, e, IndexOf(s.tracks, id).value);
    }
    IndexOfSameIds(a, s.tracks, id);
    hide Step, IndexOf, ApplyUpdates, Inv;
    SettledTrack(cfg, a, s.nextId, Pick(e.dets, e.born), id);
  }

  lemma SettledTrack(cfg: Config, a: seq<TrackState>, nextId: nat, dets: seq<Detection>, id: nat)
    requires Ascending(a) && forall i :: 0 <= i < |a| ==> a[i].id < nextId
    requires Live(Settled(cfg, a, nextId, dets), id)
    ensures var t, at := TrackOf(Settled(cfg, a, nextId, dets), id), IndexOf(a, id);
            if at.Some? then t == a[at.value] else t.age == 0 && t.hits == 1 && id >= nextId
  {
    hide IndexOf, Alive, Ascending;
    IndexOfBorn(nextId, dets, id);
    IndexOfConcat(a, BornAll(nextId, dets), id);
    AscendingWithBorn(a, nextId, dets);
    AliveFate(cfg, a + BornAll(nextId, dets), id);
  }

  /** In every run a live track's age is the number of frames since it was issued, and its hits are the
      detections it has carried: it is confirmed exactly from the `minHits`-th on. */
  lemma {:induction false} CountsOfLife(cfg: Config, states: seq<TrackerState>, frames: seq<Effect>, id: nat, k: nat)
    requires IsRun(cfg, states, frames) && k <= |frames| && id >= 1 && Live(states[k], id)
    ensures var t := TrackOf(states[k], id);
            t.age == FramesSince(states, id, k) && t.hits == Detections(states, frames, id, k)
  {
    hide Inv, Step, HitsId, TargetsOk, SourcesOk, IndexOf;
    if k > 0 {
      var s, e := states[k - 1], frames[k - 1];
      RunKeepsInv(cfg, states, frames, k - 1);
      assert IsStep(cfg, s, e, states[k]);
      IdCounts(cfg, s, e, id);
      IdFate(cfg, s, e, id);
      if Live(s, id) {
        CountsOfLife(cfg, states, frames, id, k - 1);
      }
    }
  }
}
