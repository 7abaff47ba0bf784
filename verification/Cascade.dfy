/** The mutable apperception cascade: dimensions, self-model fields, trigger and rumination memory. */
module Cascade {
  import opened Apperception
  import opened CascadeLaws
  import opened Options
  import opened Sums

  class SelfDimension {
    var confidence: real
    var affirming: nat
    var problematizing: nat
    var lastShift: real

    ghost function Value(): Dimension
      reads this
    {
      Dimension(confidence, affirming, problematizing, lastShift)
    }

    constructor (now: real)
      ensures Value() == NewDimension(now)
    {
      confidence, affirming, problematizing, lastShift := 0.5, 0, 0, now;
    }

    /** Affirms or problematizes, moving the confidence by one step and clamping it. */
    method Update(valence: real, now: real)
      modifies this
      ensures Value() == Updated(old(Value()), valence, now)
      ensures 0.05 <= old(confidence) <= 0.95 && -1.0 <= valence <= 1.0 ==>
                Moves(old(confidence), valence, confidence)
    {
      if 0.05 <= confidence <= 0.95 && -1.0 <= valence <= 1.0 {
        ConfidenceMoves(Value(), valence, now);
      }
      hide Moves;
      if valence > 0.0 {
        affirming := affirming + 1;
      } else if valence < 0.0 {
        problematizing := problematizing + 1;
      }
      var magnitude := Abs(valence);
      var step;
      if magnitude > 0.7 {
        var overshoot := magnitude - 0.7;
        step := 0.02 * 0.7 * (1.0 - overshoot / 0.3);
        step := Max(step, 0.001);
      } else {
        step := 0.02 * magnitude;
      }
      var newConf := if valence > 0.0 then confidence + step else confidence - step;
      newConf := Max(0.05, Min(0.95, newConf));
      if newConf != confidence {
        lastShift := now;
      }
      confidence := newConf;
    }
  }

  class ApperceptionCascade {
    const env: Env
    var names: seq<string>
    var dims: map<string, SelfDimension>
    var observations: seq<Observation>
    var reflections: seq<Reflection>
    var coherence: real
    var triggers: seq<string>
    var history: map<string, seq<real>>
    var gates: map<string, real>

    /** Each dimension is its own object, and the names list the table. */
    ghost predicate Valid()
      reads this`names, this`dims
    {
      && (forall a, b :: a in dims && b in dims && a != b ==> dims[a] != dims[b])
      && (forall n :: n in names <==> n in dims)
    }

    ghost function Values(): (v: map<string, Dimension>)
      reads this`dims, dims.Values
      ensures v.Keys == dims.Keys
    {
      map n | n in dims :: dims[n].Value()
    }

    ghost function Snapshot(): State
      reads this, dims.Values
    {
      State(names, Values(), observations, reflections, coherence, triggers, history, gates)
    }

    constructor (env: Env)
      ensures Valid() && this.env == env && Snapshot() == Fresh()
    {
      this.env := env;
      names, dims, observations, reflections, coherence := [], map[], [], [], 0.7;
      triggers, history, gates := [], map[], map[];
    }

    /** Step 1: the stance's source filter, then deduplication against the last 50 triggers. */
    method StepAttention(e: Event, m: Modulation) returns (passes: bool)
      modifies this`triggers
      ensures passes == Attends(env, old(Snapshot()), e, m)
      ensures triggers == if passes then Noticed(env, old(Snapshot()), e).triggers else old(triggers)
    {
      if m.criticalOnly && !e.source.PredictionError? && !e.source.Correction? {
        return false;
      }
      var digest := env.digest(e.source, e.text);
      if digest in triggers {
        return false;
      }
      triggers := Push(triggers, digest, MAX_TRIGGERS);
      passes := true;
    }

    /** The rumination breaker: true if the dimension is gated or this valence gates it. */
    method CheckRumination(target: string, valence: real, now: real) returns (gated: bool)
      modifies this`history, this`gates
      ensures gated == Gated(old(Snapshot()), target, valence, now)
      ensures var s := Checked(old(Snapshot()), target, valence, now); history == s.history && gates == s.gates
    {
      if target in gates {
        if now < gates[target] {
          return true;
        } else {
          gates := gates - {target};
        }
      }
      assert gates == old(gates) - {target};
      if target !in history {
        history := history[target := []];
      }
      history := history[target := Push(history[target], valence, RUMINATION_LIMIT + 1)];
      gated := Ruminating(history[target]);
      if gated {
        gates := gates[target := now + RUMINATION_GATE_SECONDS];
      }
    }

    /** The dimension's object, created on first use. */
    method GetOrCreate(target: string, now: real) returns (d: SelfDimension)
      requires Valid()
      modifies this`names, this`dims
      ensures Valid() && target in dims && dims[target] == d
      ensures fresh(d) || (target in old(dims) && d == old(dims)[target])
      ensures forall n :: n in dims && n != target ==> n in old(dims) && dims[n] == old(dims)[n]
      ensures names == WithDimension(old(Snapshot()), target, d.Value()).names
      ensures Values() == old(Values())[target := d.Value()]
      ensures d.Value() == DimensionOf(old(Snapshot()), target, now)
    {
      ghost var v := Values();
      if target !in dims {
        d := new SelfDimension(now);
        assert Values() == v && forall n :: n in dims ==> dims[n] != d;
        dims := dims[target := d];
        names := names + [target];
        assert Values() == v[target := d.Value()];
      } else {
        d := dims[target];
      }
    }

    method TotalConfidence() returns (sum: real)
      requires Valid()
      ensures sum == SumConfidence(names, Values())
    {
      sum := 0.0;
      for k := 0 to |names|
        invariant sum == SumConfidence(names[..k], Values())
      {
        assert names[..k + 1][..k] == names[..k] && names[k] in names;
        sum := sum + dims[names[k]].confidence;
      }
      assert names[..|names|] == names;
    }

    /** Mean confidence, clamped. */
    method UpdateCoherence()
      requires Valid()
      modifies this`coherence
      ensures coherence == Coherence(names, Values(), old(coherence))
    {
      if names == [] {
        return;
      }
      var sum := TotalConfidence();
      coherence := Max(COHERENCE_FLOOR, Min(COHERENCE_CEILING, sum / |names| as real));
    }

    /** Runs the full cascade on an event. */
    method Run(i: Input) returns (outcome: Outcome)
      requires Valid()
      modifies this, dims.Values
      ensures Valid() && (forall d :: d in dims.Values ==> d in old(dims).Values || fresh(d))
      ensures (Snapshot(), outcome) == Process(env, old(Snapshot()), i)
    {
      hide Attends, Noticed, Relevant, Relevance, Gated, Checked, Finish, Valence, Target, ModulationOf;
      var e, m := i.event, ModulationOf(i.stance);
      ghost var s0 := Snapshot();
      var attends := StepAttention(e, m);
      ghost var s1 := Noticed(env, s0, e);
      NoticedTriggers(env, s0, e);
      if !attends {
        return Filtered;
      }
      assert Snapshot() == s1;
      if !IsRelevant(e, m, i.jitter) {
        return Filtered;
      }
      var target, valence := Target(e), Valence(e);
      CheckedMemory(s1, target, valence, i.now);
      var gated := CheckRumination(target, valence, i.now);
      assert Snapshot() == Checked(s1, target, valence, i.now);
      if gated {
        return Stopped;
      }
      outcome := FinishRun(i, target, valence);
    }

    lemma NoticedTriggers(env: Env, s: State, e: Event)
      ensures Noticed(env, s, e) == s.(triggers := Noticed(env, s, e).triggers)
    {}

    lemma CheckedMemory(s: State, target: string, valence: real, now: real)
      ensures Checked(s, target, valence, now) ==
              s.(history := Checked(s, target, valence, now).history, gates := Checked(s, target, valence, now).gates)
    {}

    /** Step 2 reads only the coherence. */
    predicate IsRelevant(e: Event, m: Modulation, jitter: real)
      reads this, dims.Values
      ensures IsRelevant(e, m, jitter) == Relevant(Snapshot(), e, m, jitter)
    {
      e.source.Correction? || Relevance(e, m, jitter) >= 0.2 * (if coherence < 0.4 then 0.5 else 1.0)
    }

    lemma AbsorbedFields(s: State, target: string, d: Dimension, o: Observation, r: Reflection)
      requires target in s.dims
      ensures var dims := s.dims[target := d];
              Absorbed(s, target, d, o, r) ==
              State(s.names, dims, Push(s.observations, o, MAX_OBSERVATIONS),
                    if r.Nothing? then s.reflections else Push(s.reflections, r, MAX_REFLECTIONS),
                    Coherence(s.names, dims, s.coherence), s.triggers, s.history, s.gates)
    {}

    /** Moving one dimension changes that entry of the table only. */
    method Move(target: string, dimension: SelfDimension, valence: real, now: real)
      requires Valid() && target in dims && dims[target] == dimension
      modifies dimension
      ensures Valid()
      ensures Values() == old(Values())[target := Updated(old(dimension.Value()), valence, now)]
    {
      hide Updated;
      dimension.Update(valence, now);
    }

    /** Step 7: the dimension moves, the observation and the reflection are kept. */
    method Absorb(target: string, dimension: SelfDimension, valence: real, now: real, o: Observation, r: Reflection)
      requires Valid() && target in dims && dims[target] == dimension
      modifies this`observations, this`reflections, this`coherence, dimension
      ensures Valid()
      ensures Snapshot() == Absorbed(old(Snapshot()), target, Updated(old(dimension.Value()), valence, now), o, r)
    {
      hide Coherence, Updated, Push, Absorbed, Values;
      ghost var s, d := Snapshot(), Updated(dimension.Value(), valence, now);
      Move(target, dimension, valence, now);
      observations := Push(observations, o, MAX_OBSERVATIONS);
      if !r.Nothing? {
        reflections := Push(reflections, r, MAX_REFLECTIONS);
      }
      UpdateCoherence();
      AbsorbedFields(s, target, d, o, r);
    }

    /** Steps 5 to 7. */
    method FinishRun(i: Input, target: string, valence: real) returns (outcome: Outcome)
      requires Valid()
      modifies this, dims.Values
      ensures Valid() && (forall d :: d in dims.Values ==> d in old(dims).Values || fresh(d))
      ensures (Snapshot(), outcome) == Finish(env, old(Snapshot()), i, target, valence)
    {
      hide ModulationOf, Reflect, Links, Acts, Retains, Depth, Relevance, Updated, Absorbed, Noise;
      var e, m := i.event, ModulationOf(i.stance);
      ghost var s := Snapshot();
      var dimension := GetOrCreate(target, i.later);
      ghost var d := dimension.Value();
      ghost var s' := WithDimension(s, target, d);
      assert Snapshot() == s';
      var acts := Acts(valence, dimension.confidence);
      var r := Reflect(valence, Links(env, observations, target, e.source),
                       Dimension(dimension.confidence, dimension.affirming, dimension.problematizing,
                                 dimension.lastShift), m);
      if !Retains(Depth(acts, r), Relevance(e, m, i.jitter), valence, r, e.source) {
        return Dropped;
      }
      var o := Observation(e.source, e.text);
      Absorb(target, dimension, valence, i.later, o, r);
      outcome := Kept(Apperceived(o, 7, valence, target, acts, r, Noise(m)));
    }
  }
}
