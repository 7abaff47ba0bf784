/** What a frame does to each detection and each track, and what its report shows. */
module FrameFates {
  import opened Assignment
  import opened Boxes
  import opened Frames
  import opened Options
  import opened Sequences

  // ---------- who is updated by what in one frame ----------

  ghost predicate Injective<T(!new)>(s: seq<T>) {
    forall i, j :: 0 <= i < j < |s| ==> s[i] != s[j]
  }

  ghost function Targets(us: seq<(nat, nat)>): seq<nat> {
    seq(|us|, k requires 0 <= k < |us| => us[k].0)
  }

  ghost function Sources(us: seq<(nat, nat)>): seq<nat> {
    seq(|us|, k requires 0 <= k < |us| => us[k].1)
  }

  lemma MatchingInjective(chosen: seq<Cell>, i: nat, j: nat)
    requires NoRepeats(chosen) && IsMatching(Cells(chosen)) && i < |chosen| && j < |chosen| && i != j
    ensures chosen[i].0 != chosen[j].0 && chosen[i].1 != chosen[j].1
  {
    assert chosen[i] in Cells(chosen) && chosen[j] in Cells(chosen);
    assert chosen[i] != chosen[j];
    assert !Conflict(chosen[i], chosen[j]);
  }

  lemma LiftInjective(rows: seq<nat>, cols: seq<nat>, matches: seq<Cell>)
    requires InLists(rows, cols, matches)
    requires NoRepeats(matches) && IsMatching(Cells(matches))
    requires Injective(rows) && Injective(cols)
    ensures Injective(Targets(Lift(rows, cols, matches))) && Injective(Sources(Lift(rows, cols, matches)))
  {
    forall i, j | 0 <= i < j < |matches|
      ensures rows[matches[i].0] != rows[matches[j].0] && cols[matches[i].1] != cols[matches[j].1]
    {
      MatchingInjective(matches, i, j);
    }
  }

  ghost predicate Apart(a: seq<nat>, b: seq<nat>) {
    forall x: nat :: x in a ==> x !in b
  }

  lemma InjectiveConcat(a: seq<nat>, b: seq<nat>)
    requires Injective(a) && Injective(b) && Apart(a, b)
    ensures Injective(a + b)
  {
    forall i, j | 0 <= i < j < |a + b|
      ensures (a + b)[i] != (a + b)[j]
    {
      if i < |a| <= j {
        assert a[i] in a && b[j - |a|] in b;
      }
    }
  }

  /** No track is updated twice. */
  ghost predicate TargetsOk(n: nat, e: Effect) {
    e.InRange(n) && Injective(Targets(e.updates))
  }

  /** No detection is used twice, every high-confidence detection is used, only high-confidence
      ones start tracks, and only high- and low-confidence ones update any. */
  ghost predicate SourcesOk(cfg: Config, e: Effect) {
    && Injective(Sources(e.updates) + e.born)
    && (forall j: nat :: j < |e.dets| && IsHigh(cfg, e.dets[j]) ==> j in Sources(e.updates) + e.born)
    && (forall j: nat :: j in e.born ==> j < |e.dets| && IsHigh(cfg, e.dets[j]))
    && (forall j: nat :: j in Sources(e.updates) ==>
          j < |e.dets| && (IsHigh(cfg, e.dets[j]) || IsLow(cfg, e.dets[j])))
  }

  /** Every high-confidence detection updates exactly one track or starts exactly one, never both;
      a low-confidence one updates at most one track and starts none; others do nothing; and
      every track is updated at most once. */
  lemma DetectionFates(cfg: Config, ts: seq<TrackState>, dets: seq<Detection>, plan: Plan)
    requires IsPlan(cfg, ts, dets, plan)
    ensures TargetsOk(|ts|, EffectOf(cfg, ts, dets, plan)) && SourcesOk(cfg, EffectOf(cfg, ts, dets, plan))
  {
    PlanInLists(cfg, ts, dets, plan);
    var n, high, low := |ts|, HighIndices(cfg, dets), LowIndices(cfg, dets);
    StagesTargets(n, high, plan.first, low, plan.second);
    StagesSources(cfg, dets, Identity(n), plan.first, Unused(n, Rows(Cells(plan.first))), plan.second);
  }

  lemma StagesTargets(n: nat, high: seq<nat>, first: seq<Cell>, low: seq<nat>, second: seq<Cell>)
    requires InLists(Identity(n), high, first) && InLists(Unused(n, Rows(Cells(first))), low, second)
    requires NoRepeats(first) && IsMatching(Cells(first)) && NoRepeats(second) && IsMatching(Cells(second))
    requires Injective(high) && Injective(low)
    ensures Injective(Targets(Lift(Identity(n), high, first) + Lift(Unused(n, Rows(Cells(first))), low, second)))
  {
    var rest := Unused(n, Rows(Cells(first)));
    var one, two := Lift(Identity(n), high, first), Lift(rest, low, second);
    LiftInjective(Identity(n), high, first);
    LiftInjective(rest, low, second);
    forall x: nat | x in Targets(one)
      ensures x !in Targets(two)
    {
      var i :| 0 <= i < |one| && Targets(one)[i] == x;
      assert first[i] in Cells(first) && x in Rows(Cells(first)) && x !in rest;
      assert forall j :: 0 <= j < |two| ==> Targets(two)[j] in rest;
    }
    InjectiveConcat(Targets(one), Targets(two));
    assert Targets(one + two) == Targets(one) + Targets(two);
  }

  lemma StagesSources(cfg: Config, dets: seq<Detection>, rows: seq<nat>, first: seq<Cell>, rest: seq<nat>,
                      second: seq<Cell>)
    requires InLists(rows, HighIndices(cfg, dets), first) && InLists(rest, LowIndices(cfg, dets), second)
    requires NoRepeats(first) && IsMatching(Cells(first)) && NoRepeats(second) && IsMatching(Cells(second))
    requires Injective(rows) && Injective(rest)
    ensures var high := HighIndices(cfg, dets);
            SourcesOk(cfg, Effect(dets, Lift(rows, high, first) + Lift(rest, LowIndices(cfg, dets), second),
                                  Pick(high, Unused(|high|, Cols(Cells(first))))))
  {
    var high, low := HighIndices(cfg, dets), LowIndices(cfg, dets);
    var one, two := Lift(rows, high, first), Lift(rest, low, second);
    var born := Pick(high, Unused(|high|, Cols(Cells(first))));
    LiftInjective(rows, high, first);
    LiftInjective(rest, low, second);
    HighSplit(rows, high, first);
    assert forall x: nat :: x in Sources(two) ==> x in low;
    InjectiveConcat(Sources(one), Sources(two));
    InjectiveConcat(Sources(one) + Sources(two), born);
    assert Sources(one + two) == Sources(one) + Sources(two);
  }

  /** The high-confidence detections are split between first-stage updates and births. */
  lemma HighSplit(rows: seq<nat>, high: seq<nat>, first: seq<Cell>)
    requires InLists(rows, high, first) && Injective(high)
    ensures var used, born := Sources(Lift(rows, high, first)), Pick(high, Unused(|high|, Cols(Cells(first))));
            && Apart(used, born) && Injective(born)
            && forall x: nat :: x in high <==> x in used || x in born
  {
    var used, missed := Sources(Lift(rows, high, first)), Unused(|high|, Cols(Cells(first)));
    var taken := seq(|first|, k requires 0 <= k < |first| => first[k].1);
    forall h: nat | h < |high|
      ensures h in taken <==> h !in missed
    {
      TakenIsCols(first, taken, h);
    }
    hide Cols, Cells, Unused, Injective, Apart;
    UsedArePicked(rows, high, first, taken);
    hide Sources, Lift, InLists, Pick;
    PickSplit(high, taken, missed);
  }

  lemma UsedArePicked(rows: seq<nat>, high: seq<nat>, first: seq<Cell>, taken: seq<nat>)
    requires InLists(rows, high, first) && |taken| == |first|
    requires forall k :: 0 <= k < |first| ==> taken[k] == first[k].1
    ensures forall k :: 0 <= k < |taken| ==> taken[k] < |high|
    ensures Sources(Lift(rows, high, first)) == Pick(high, taken)
  {}

  lemma TakenIsCols(first: seq<Cell>, taken: seq<nat>, h: nat)
    requires |taken| == |first| && forall k :: 0 <= k < |first| ==> taken[k] == first[k].1
    ensures h in taken <==> h in Cols(Cells(first))
  {}

  lemma PickSplit(all: seq<nat>, at: seq<nat>, rest: seq<nat>)
    requires Injective(all) && Injective(rest)
    requires forall k :: 0 <= k < |at| ==> at[k] < |all|
    requires forall k :: 0 <= k < |rest| ==> rest[k] < |all|
    requires forall h: nat :: h < |all| ==> (h in at <==> h !in rest)
    ensures Apart(Pick(all, at), Pick(all, rest)) && Injective(Pick(all, rest))
    ensures forall x: nat :: x in all <==> x in Pick(all, at) || x in Pick(all, rest)
  {
    forall x: nat | x in Pick(all, at)
      ensures x !in Pick(all, rest)
    {
      var k :| 0 <= k < |at| && all[at[k]] == x;
      assert at[k] in at && at[k] !in rest;
    }
    forall x: nat | x in all
      ensures x in Pick(all, at) || x in Pick(all, rest)
    {
      var h :| 0 <= h < |all| && all[h] == x;
      if h in at {
        var k :| 0 <= k < |at| && at[k] == h;
        assert Pick(all, at)[k] == x;
      } else {
        assert h in rest;
        var k :| 0 <= k < |rest| && rest[k] == h;
        assert Pick(all, rest)[k] == x;
      }
    }
  }

  // ---------- what a frame does to each track ----------

  lemma {:induction false} ApplyAt(ts: seq<TrackState>, dets: seq<Detection>, us: seq<(nat, nat)>, i: nat)
    requires forall k :: 0 <= k < |us| ==> us[k].0 < |ts| && us[k].1 < |dets|
    requires i < |ts| && Injective(Targets(us))
    ensures forall k :: 0 <= k < |us| && us[k].0 == i ==> ApplyUpdates(ts, dets, us)[i] == Hit(ts[i], dets[us[k].1])
    ensures i !in Targets(us) ==> ApplyUpdates(ts, dets, us)[i] == ts[i]
  {
    if us != [] {
      var n := |us| - 1;
      assert Targets(us[..n]) == Targets(us)[..n];
      ApplyAt(ts, dets, us[..n], i);
      if us[n].0 == i {
        assert Targets(us)[n] == i;
        assert i !in Targets(us[..n]);
        assert forall k :: 0 <= k < n ==> Targets(us)[k] != i;
      }
    }
  }

  /** A listed track takes its detection after ageing; any other track only ages. */
  lemma MovedAt(s: TrackerState, e: Effect, i: nat) returns (d: Detection)
    requires TargetsOk(|s.tracks|, e) && i < |s.tracks|
    ensures ApplyUpdates(AgedAll(s.tracks), e.dets, e.updates)[i] ==
            if i in Targets(e.updates) then Hit(Aged(s.tracks[i]), d) else Aged(s.tracks[i])
  {
    ApplyAt(AgedAll(s.tracks), e.dets, e.updates, i);
    d := Detection(s.tracks[i].box, 0.0, "");
    if i in Targets(e.updates) {
      var k :| 0 <= k < |e.updates| && Targets(e.updates)[k] == i;
      d := e.dets[e.updates[k].1];
    }
  }

  // ---------- motion ----------

  /** The new velocity is off the displacement by 0.7 of what the old velocity was. */
  predicate Follows(old_: Box, velocity: Box, from: Box, to: Box) {
    && velocity.x1 - (to.x1 - from.x1) == 0.7 * (old_.x1 - (to.x1 - from.x1))
    && velocity.y1 - (to.y1 - from.y1) == 0.7 * (old_.y1 - (to.y1 - from.y1))
    && velocity.x2 - (to.x2 - from.x2) == 0.7 * (old_.x2 - (to.x2 - from.x2))
    && velocity.y2 - (to.y2 - from.y2) == 0.7 * (old_.y2 - (to.y2 - from.y2))
  }
}
