/** One change-point detector per named signal (`MultiSignalBOCPD`). */
module MultiSignal {
  import opened ChangePoint
  import opened ChangePointRuns
  import opened Options

  type Beliefs = map<string, Belief>

  /** What a signal's detector holds: the prior if the signal has not been seen. */
  function BeliefOf(p: Params, bs: Beliefs, name: string): Belief {
    if name in bs then bs[name] else Initial(p)
  }

  ghost predicate AllOk(bs: Beliefs) {
    forall name :: name in bs ==> BeliefOk(bs[name])
  }

  /** One frame: each (signal, value) pair goes to that signal's detector, in order. */
  function Feed(p: Params, like: Predictive, bs: Beliefs, values: seq<(string, real)>): (r: Beliefs)
    requires p.Valid() && AllOk(bs)
    ensures AllOk(r)
    decreases |values|
  {
    if values == [] then bs else
      var prev := Feed(p, like, bs, values[..|values| - 1]);
      var (name, x) := values[|values| - 1];
      prev[name := Next(p, like, BeliefOf(p, prev, name), x)]
  }

  /** The change points of one frame, in order. */
  function FrameEmissions(p: Params, like: Predictive, bs: Beliefs, values: seq<(string, real)>,
                          timestamp: real): seq<Emission>
    requires p.Valid() && AllOk(bs)
    decreases |values|
  {
    if values == [] then [] else
      var init, (name, x) := values[..|values| - 1], values[|values| - 1];
      var e := Emitted(p, like, BeliefOf(p, Feed(p, like, bs, init), name), x, timestamp, name);
      FrameEmissions(p, like, bs, init, timestamp) + (if e.Some? then [e.value] else [])
  }

  class MultiSignalBOCPD {
    const params: Params
    const like: Predictive
    var detectors: map<string, BOCPDDetector>

    ghost predicate Valid()
      reads this, detectors.Values
    {
      && params.Valid()
      && (forall a, b :: a in detectors && b in detectors && a != b ==> detectors[a] != detectors[b])
      && (forall a :: a in detectors ==> Owned(a))
    }

    ghost predicate Owned(a: string)
      requires a in detectors
      reads this, detectors[a]
    {
      var d := detectors[a];
      d.Valid() && d.params == params && d.like == like && d.signalName == a
    }

    ghost function Snapshot(): Beliefs
      reads this, detectors.Values
    {
      map a | a in detectors :: detectors[a].Snapshot()
    }

    /** Starts one detector per listed signal. */
    constructor (params: Params, like: Predictive, signals: seq<string>)
      requires params.Valid()
      ensures Valid() && this.params == params && this.like == like
      ensures fresh(detectors.Values)
      ensures Snapshot() == map a | a in signals :: Initial(params)
    {
      this.params, this.like, detectors := params, like, map[];
      new;
      hide BOCPDDetector.Valid, BOCPDDetector.Snapshot;
      for k := 0 to |signals|
        invariant Valid() && fresh(detectors.Values)
        invariant this.params == params && this.like == like
        invariant Snapshot() == map a | a in signals[..k] :: Initial(params)
      {
        assert forall a :: a in signals[..k + 1] <==> a in signals[..k] || a == signals[k];
        Track(signals[k]);
      }
      assert signals[..|signals|] == signals;
    }

    /** Gives a signal a fresh detector. */
    method Track(name: string)
      requires Valid()
      modifies this
      ensures Valid() && Snapshot() == old(Snapshot())[name := Initial(params)]
      ensures forall d :: d in detectors.Values ==> d in old(detectors).Values || fresh(d)
      ensures name in detectors
    {
      hide BOCPDDetector.Valid, BOCPDDetector.Snapshot;
      var d := new BOCPDDetector(params, like, name);
      assert d !in detectors.Values;
      ghost var before := detectors;
      detectors := detectors[name := d];
      forall x | x in detectors.Values
        ensures x in before.Values || x == d
      {
        var a :| a in detectors && detectors[a] == x;
        assert a != name ==> a in before && before[a] == x;
      }
      assert forall a :: a in before ==> before[a] in before.Values;
      assert forall a :: a in detectors ==> Owned(a);
    }

    /** Processes one observation per listed signal. */
    method Update(values: seq<(string, real)>, timestamp: real) returns (cps: seq<Emission>)
      requires Valid()
      modifies this, detectors.Values
      ensures Valid() && AllOk(old(Snapshot())) && Snapshot() == Feed(params, like, old(Snapshot()), values)
      ensures cps == FrameEmissions(params, like, old(Snapshot()), values, timestamp)
      ensures forall d :: d in detectors.Values ==> d in old(detectors).Values || fresh(d)
    {
      hide BOCPDDetector.Valid, BOCPDDetector.Snapshot, Next, Emitted, BeliefOk;
      cps := [];
      ghost var start := Snapshot();
      AllValid();
      for k := 0 to |values|
        invariant Valid() && AllOk(start) && Snapshot() == Feed(params, like, start, values[..k])
        invariant cps == FrameEmissions(params, like, start, values[..k], timestamp)
        invariant forall d :: d in detectors.Values ==> d in old(detectors).Values || fresh(d)
      {
        assert values[..k + 1][..k] == values[..k];
        var cp := Observe(values[k].0, values[k].1, timestamp);
        if cp.Some? {
          cps := cps + [cp.value];
        }
      }
      assert values[..|values|] == values;
    }

    lemma AllValid()
      requires Valid()
      ensures AllOk(Snapshot())
    {}

    method Observe(name: string, x: real, timestamp: real) returns (cp: Option<Emission>)
      requires Valid()
      modifies this, detectors.Values
      ensures Valid() && AllOk(old(Snapshot()))
      ensures var b := BeliefOf(params, old(Snapshot()), name);
              && Snapshot() == old(Snapshot())[name := Next(params, like, b, x)]
              && cp == Emitted(params, like, b, x, timestamp, name)
      ensures forall d :: d in detectors.Values ==> d in old(detectors).Values || fresh(d)
    {
      hide BOCPDDetector.Valid, BOCPDDetector.Snapshot, Next, Emitted, BeliefOk;
      AllValid();
      if name !in detectors {
        Track(name);
      }
      AllValid();
      cp := Advance(name, x, timestamp);
    }

    /** Feeds a signal that already has a detector. */
    method Advance(name: string, x: real, timestamp: real) returns (cp: Option<Emission>)
      requires Valid() && name in detectors && AllOk(Snapshot())
      modifies detectors[name]
      ensures Valid()
      ensures Snapshot() == old(Snapshot())[name := Next(params, like, old(Snapshot())[name], x)]
      ensures cp == Emitted(params, like, old(Snapshot())[name], x, timestamp, name)
    {
      hide BOCPDDetector.Valid, BOCPDDetector.Snapshot, Next, Emitted, BeliefOk;
      assert Owned(name);
      ghost var before := Snapshot();
      cp := detectors[name].Update(x, timestamp);
      assert forall a :: a in detectors && a != name ==> detectors[a].Snapshot() == before[a];
      assert forall a :: a in detectors ==> Owned(a);
    }
  }

  // ---------- runs ----------

  /** The values a run of frames gives to one signal, in order. */
  function Readings(name: string, frames: seq<seq<(string, real)>>): seq<real> {
    if frames == [] then [] else
      Readings(name, frames[..|frames| - 1]) + OfSignal(name, frames[|frames| - 1])
  }

  function OfSignal(name: string, values: seq<(string, real)>): seq<real> {
    if values == [] then [] else
      OfSignal(name, values[..|values| - 1])
      + (if values[|values| - 1].0 == name then [values[|values| - 1].1] else [])
  }

  ghost function RunFrames(p: Params, like: Predictive, frames: seq<seq<(string, real)>>): (bs: Beliefs)
    requires p.Valid()
    ensures AllOk(bs)
  {
    if frames == [] then map[] else Feed(p, like, RunFrames(p, like, frames[..|frames| - 1]), frames[|frames| - 1])
  }

  /** Signals do not disturb each other: after any run of frames a signal's detector is where it
      would be had it alone observed its own readings. */
  lemma {:induction false} SignalsIndependent(p: Params, like: Predictive, frames: seq<seq<(string, real)>>,
                                              name: string)
    requires p.Valid()
    ensures BeliefOf(p, RunFrames(p, like, frames), name) == Run(p, like, Readings(name, frames))
  {
    if frames != [] {
      var init := frames[..|frames| - 1];
      SignalsIndependent(p, like, init, name);
      FeedOne(p, like, RunFrames(p, like, init), frames[|frames| - 1], name, Readings(name, init));
    }
  }

  lemma {:induction false} FeedOne(p: Params, like: Predictive, bs: Beliefs, values: seq<(string, real)>,
                                   name: string, xs: seq<real>)
    requires p.Valid() && AllOk(bs) && BeliefOf(p, bs, name) == Run(p, like, xs)
    ensures BeliefOf(p, Feed(p, like, bs, values), name) == Run(p, like, xs + OfSignal(name, values))
    decreases |values|
  {
    hide Next;
    if values == [] {
      assert xs + [] == xs;
    } else {
      var init, x := values[..|values| - 1], values[|values| - 1].1;
      FeedOne(p, like, bs, init, name, xs);
      if values[|values| - 1].0 == name {
        var ys := xs + OfSignal(name, init);
        assert xs + OfSignal(name, values) == ys + [x];
        assert (ys + [x])[..|ys|] == ys;
      } else {
        assert OfSignal(name, values) == OfSignal(name, init);
      }
    }
  }

  // ---------- the emissions of a frame ----------

  /** What a frame with one value per signal returns: in the order of the values, what each signal's
      detector emits for its own value. */
  lemma FrameEmitsInOrder(p: Params, like: Predictive, bs: Beliefs, values: seq<(string, real)>, timestamp: real,
                          k: nat)
    requires p.Valid() && AllOk(bs) && k < |values|
    requires forall i, j :: 0 <= i < j < |values| ==> values[i].0 != values[j].0
    ensures var (name, x) := values[k];
            var e := Emitted(p, like, BeliefOf(p, bs, name), x, timestamp, name);
            FrameEmissions(p, like, bs, values[..k + 1], timestamp) ==
            FrameEmissions(p, like, bs, values[..k], timestamp) + if e.Some? then [e.value] else []
  {
    hide Next, Emitted, BeliefOk;
    assert values[..k + 1][..k] == values[..k];
    FeedOthers(p, like, bs, values[..k], values[k].0);
  }

  lemma {:induction false} FeedOthers(p: Params, like: Predictive, bs: Beliefs, values: seq<(string, real)>,
                                      name: string)
    requires p.Valid() && AllOk(bs) && forall i :: 0 <= i < |values| ==> values[i].0 != name
    ensures BeliefOf(p, Feed(p, like, bs, values), name) == BeliefOf(p, bs, name)
    decreases |values|
  {
    hide Next, BeliefOk;
    if values != [] {
      FeedOthers(p, like, bs, values[..|values| - 1], name);
    }
  }

  /** An emission names its signal and moment, carries the hazard as its probability, and its run length
      is the first most probable one from 1 on. */
  lemma EmissionSays(p: Params, like: Predictive, b: Belief, x: real, timestamp: real, name: string)
    requires p.Valid() && BeliefOk(b)
    ensures var e, probs := Emitted(p, like, b, x, timestamp, name), Next(p, like, b, x).probs;
            e.Some? ==>
              && e.value.signalName == name && e.value.timestamp == timestamp
              && e.value.probability == 1.0 / p.hazardLambda
              && 1 <= e.value.runLengthBefore < |probs|
              && (forall i :: 1 <= i < |probs| ==> probs[i] <= probs[e.value.runLengthBefore])
              && (forall i :: 1 <= i < e.value.runLengthBefore ==> probs[i] < probs[e.value.runLengthBefore])
  {
    MassAtZero(p, like, b, x);
    hide Posterior, GrowAll;
  }
}
