/** What one event does to the apperception cascade, told on the event, the stance and the self-model:
    how far a confidence moves, and which events are filtered, stopped, dropped or kept. */
module CascadeLaws {
  import opened Apperception
  import opened ApperceptionRuns
  import opened Options
  import opened Sequences
  import opened Sums

  // ---------- the self-model after an event ----------

  /** The dimension as the event finds it. */
  function Found(s: State, d: string, now: real): Dimension {
    if d in s.dims then s.dims[d] else Dimension(0.5, 0, 0, now)
  }

  lemma FinishModel(env: Env, s: State, i: Input, target: string, v: real)
    ensures var (s', outcome) := Finish(env, s, i, target, v);
            var d := Found(s, target, i.later);
            && (outcome.Dropped? || outcome.Kept?)
            && (outcome.Dropped? ==> s'.dims == s.dims[target := d] && s'.observations == s.observations)
            && (outcome.Kept? ==>
                  && outcome.result.target == target && outcome.result.valence == v
                  && outcome.result.observation == Observation(i.event.source, i.event.text)
                  && s'.dims == s.dims[target := Updated(d, v, i.later)]
                  && s'.observations == Push(s.observations, outcome.result.observation, MAX_OBSERVATIONS)
                  && s'.reflections == (if outcome.result.reflection.Nothing? then s.reflections
                                        else Push(s.reflections, outcome.result.reflection, MAX_REFLECTIONS)))
            && (outcome.Dropped? ==> s'.reflections == s.reflections)
  {
    hide Coherence, Retains, Reflect, Links, Push, Updated;
  }

  /** An event that is not kept moves nothing; a kept one moves its own dimension, once. */
  lemma ProcessModel(env: Env, s: State, i: Input)
    ensures var (s', outcome) := Process(env, s, i);
            var target, v := Target(i.event), Valence(i.event);
            var d := Found(s, target, i.later);
            && (outcome.Filtered? || outcome.Stopped? ==> s'.dims == s.dims && s'.observations == s.observations)
            && (outcome.Dropped? ==> s'.dims == s.dims[target := d] && s'.observations == s.observations)
            && (outcome.Kept? ==>
                  && outcome.result.target == target && outcome.result.valence == v
                  && outcome.result.observation == Observation(i.event.source, i.event.text)
                  && s'.dims == s.dims[target := Updated(d, v, i.later)]
                  && s'.observations == Push(s.observations, outcome.result.observation, MAX_OBSERVATIONS)
                  && s'.reflections == (if outcome.result.reflection.Nothing? then s.reflections
                                        else Push(s.reflections, outcome.result.reflection, MAX_REFLECTIONS)))
            && (!outcome.Kept? ==> s'.reflections == s.reflections)
  {
    hide Finish, Attends, Relevant, Gated, Valence, Target, ModulationOf, Push, Updated, Recorded, Ruminating;
    var target, v := Target(i.event), Valence(i.event);
    FinishModel(env, Checked(Noticed(env, s, i.event), target, v, i.now), i, target, v);
  }

  // ---------- how far a confidence moves ----------

  /** The confidence moves from c to c' at a valence of v: down for a negative one and up for a positive
      one, by a fiftieth of the valence up to 0.7 and less and less beyond, within [0.05, 0.95]. */
  ghost predicate Moves(c: real, v: real, c': real) {
    && (v == 0.0 ==> c' == c)
    && (v < 0.0 ==> c' <= c && (c > 0.05 ==> c' < c))
    && (v > 0.0 ==> c' >= c && (c < 0.95 ==> c' > c))
    && (-0.7 <= v <= 0.7 ==>
          if c + 0.02 * v < 0.05 then c' == 0.05 else if c + 0.02 * v > 0.95 then c' == 0.95 else c' == c + 0.02 * v)
    && (v < -0.7 ==> c' == 0.05 || Damped(c - c', -v))
    && (v > 0.7 ==> c' == 0.95 || Damped(c' - c, v))
  }

  /** Beyond 0.7 a step falls in proportion to what is left of 1.0, from below 0.014 down to 0.001. */
  ghost predicate Damped(step: real, m: real) {
    0.001 <= step < 0.014 && step * 0.3 >= 0.014 * (1.0 - m) && (step == 0.001 || step * 0.3 == 0.014 * (1.0 - m))
  }

  lemma ConfidenceMoves(d: Dimension, v: real, now: real)
    requires 0.05 <= d.confidence <= 0.95 && -1.0 <= v <= 1.0
    ensures Moves(d.confidence, v, Updated(d, v, now).confidence)
  {
  }

  /** The larger a valence beyond 0.7, the smaller its step, away from the clamps. */
  lemma LargerIsSmaller(c: real, c': real, e: real, e': real, v: real, w: real)
    requires 0.7 < v <= w && Moves(c, v, c') && Moves(e, w, e') && c' < 0.95 && e' < 0.95
    ensures e' - e <= c' - c
  {}

  /** A kept event: the one dimension it is about moves by the rule, its evidence is counted, and the
      time is noted exactly if the confidence changed; every other dimension stays. An event that is not
      kept moves no confidence. */
  lemma KeptMoves(env: Env, s: State, i: Input, n: string)
    requires Inv(s)
    ensures var (s', outcome) := Process(env, s, i);
            if outcome.Kept? && outcome.result.target == n then
              var before, v := Found(s, n, i.later), outcome.result.valence;
              && n in s'.dims
              && var after := s'.dims[n];
                 && Moves(before.confidence, v, after.confidence)
                 && after.affirming == before.affirming + (if v > 0.0 then 1 else 0)
                 && after.problematizing == before.problematizing + (if v < 0.0 then 1 else 0)
                 && after.lastShift == (if after.confidence != before.confidence then i.later else before.lastShift)
            else
              && (n in s.dims ==> n in s'.dims && s'.dims[n] == s.dims[n])
              && (n in s'.dims && n !in s.dims ==> s'.dims[n] == Dimension(0.5, 0, 0, i.later))
  {
    ProcessModel(env, s, i);
    assert -1.0 <= Valence(i.event) <= 1.0;
    ConfidenceMoves(Found(s, n, i.later), Valence(i.event), i.later);
    UpdatedCounts(Found(s, n, i.later), Valence(i.event), i.later);
    hide Process, Moves, Updated, Valence, Target;
  }

  lemma UpdatedCounts(d: Dimension, v: real, now: real)
    ensures var u := Updated(d, v, now);
            && u.affirming == d.affirming + (if v > 0.0 then 1 else 0)
            && u.problematizing == d.problematizing + (if v < 0.0 then 1 else 0)
            && u.lastShift == (if u.confidence != d.confidence then now else d.lastShift)
  {}

  /** After a kept event the coherence is the mean confidence of the dimensions, or 0.15 if that is more. */
  lemma KeptCoherence(env: Env, s: State, i: Input)
    requires Inv(s) && Process(env, s, i).1.Kept?
    ensures var s' := Process(env, s, i).0;
            && Inv(s') && s'.names != []
            && s'.coherence == Max(0.15, Sum(Confidences(s'.names, s'.dims)) / |s'.names| as real)
  {
    ProcessKeepsInv(env, s, i);
    var target, v := Target(i.event), Valence(i.event);
    FinishCoherence(env, Checked(Noticed(env, s, i.event), target, v, i.now), i, target, v);
    hide Inv, Finish, Attends, Relevant, Gated, Target, Valence, ModulationOf, Push, Recorded, Ruminating, Coherence;
    var s' := Process(env, s, i).0;
    InvDims(s');
    CoherenceIsMean(s'.names, s'.dims, s.coherence);
  }

  lemma InvDims(s: State)
    requires Inv(s)
    ensures (forall n :: n in s.dims ==> ConfidenceOk(s.dims[n].confidence)) && forall n :: n in s.names ==> n in s.dims
  {}

  lemma FinishCoherence(env: Env, s: State, i: Input, target: string, v: real)
    requires forall n :: n in s.names <==> n in s.dims
    ensures var (s', outcome) := Finish(env, s, i, target, v);
            outcome.Kept? ==> s'.names != [] && s'.coherence == Coherence(s'.names, s'.dims, s.coherence)
  {
    hide Coherence, Retains, Reflect, Links, Push, Updated;
  }

  // ---------- which events get how far ----------

  /** The event's magnitude with its perturbation, of which a critical stance takes none. */
  function Signal(i: Input): real {
    if i.stance == "critical" then i.event.magnitude else i.event.magnitude + i.jitter
  }

  /** An event is filtered exactly if a critical stance bars its source, its digest is remembered, or it
      is not a correction and its signal is below 0.2, or 0.1 while coherence is below 0.4. */
  lemma FilteredIff(env: Env, s: State, i: Input)
    ensures Process(env, s, i).1.Filtered? <==>
            || (i.stance == "critical" && !i.event.source.PredictionError? && !i.event.source.Correction?)
            || env.digest(i.event.source, i.event.text) in s.triggers
            || (!i.event.source.Correction? && Signal(i) < (if s.coherence < 0.4 then 0.1 else 0.2))
  {
    hide Finish, Gated, Checked, Push, Target, Valence;
    var target, v := Target(i.event), Valence(i.event);
    FinishOutcome(env, Checked(Noticed(env, s, i.event), target, v, i.now), i, target, v);
  }

  /** An event past the filters is stopped exactly if its dimension's gate is still closed or it is
      negative and the last four recorded for the dimension were. */
  lemma StoppedIff(env: Env, s: State, i: Input)
    requires HistoriesOk(s)
    ensures var d := Target(i.event);
            Process(env, s, i).1.Stopped? <==>
            && !Process(env, s, i).1.Filtered?
            && (|| (d in s.gates && i.now < s.gates[d])
                || (Valence(i.event) < 0.0 && d in s.history && |s.history[d]| >= 4
                    && forall k :: |s.history[d]| - 4 <= k < |s.history[d]| ==> s.history[d][k] < 0.0))
  {
    hide Finish, Attends, Relevant, Checked, Target, Valence, ModulationOf;
    var target, v := Target(i.event), Valence(i.event);
    var s1 := Noticed(env, s, i.event);
    FinishOutcome(env, Checked(s1, target, v, i.now), i, target, v);
    FifthNegative(s1, target, v);
  }

  lemma FifthNegative(s: State, d: string, v: real)
    requires HistoriesOk(s)
    ensures Ruminating(Recorded(s, d, v)) <==>
            v < 0.0 && d in s.history && |s.history[d]| >= 4
            && forall k :: |s.history[d]| - 4 <= k < |s.history[d]| ==> s.history[d][k] < 0.0
  {
    var h := HistoryOf(s, d);
    RecordedTail(s, d, v);
    RuminatingIffTail(Recorded(s, d, v));
    FourNegatives(h);
    hide Recorded, Ruminating, Tail;
  }

  lemma FourNegatives(h: seq<real>)
    ensures Tail(h) >= 4 <==> |h| >= 4 && forall k :: |h| - 4 <= k < |h| ==> h[k] < 0.0
  {
    TailEntries(h);
  }

  function Mentioning(env: Env, d: string, source: Source): Observation -> bool {
    (o: Observation) => env.mentions(o, d, source)
  }

  /** How many remembered observations mention the dimension or the source. */
  function Mentions(env: Env, s: State, d: string, source: Source): nat {
    |Select(s.observations, Mentioning(env, d, source))|
  }

  lemma {:induction false} LinksAreMentions(env: Env, obs: seq<Observation>, d: string, source: Source)
    ensures Links(env, obs, d, source) == |Select(obs, Mentioning(env, d, source))|
  {
    if obs != [] {
      LinksAreMentions(env, obs[..|obs| - 1], d, source);
    }
  }

  /** The event contradicts what three or more earlier ones say of the dimension. */
  predicate Contradicts(d: Dimension, v: real) {
    d.affirming + d.problematizing >= 3 && (d.affirming > d.problematizing) != (v > 0.0)
  }

  /** A strongly negative event on a dimension that is trusted. */
  predicate CallsForAction(d: Dimension, v: real) {
    v < -0.5 && d.confidence > 0.6
  }

  /** The reflection that an event brings: none in a critical stance, a tension if it contradicts, else a
      pattern from three mentions on, six in a degraded stance. */
  function Reflected(env: Env, s: State, i: Input): Reflection {
    var d, v := Found(s, Target(i.event), i.later), Valence(i.event);
    var n := Mentions(env, s, Target(i.event), i.event.source);
    if i.stance == "critical" then Nothing
    else if Contradicts(d, v) then Tension
    else if n >= (if i.stance == "degraded" then 6 else 3) then Recurring(n)
    else Nothing
  }

  function NoiseIn(stance: string): real {
    if stance == "critical" then 0.0 else if stance == "cautious" || stance == "degraded" then 0.1 else 0.2
  }

  /** An event past the rumination check is kept exactly if it is a correction, calls for action, brings
      a reflection, or has a signal above 0.5 and a valence beyond 0.3. */
  lemma KeptIff(env: Env, s: State, i: Input)
    requires !Process(env, s, i).1.Filtered? && !Process(env, s, i).1.Stopped?
    ensures var d, v := Found(s, Target(i.event), i.later), Valence(i.event);
            var outcome := Process(env, s, i).1;
            && (outcome.Kept? <==>
                  || i.event.source.Correction? || CallsForAction(d, v) || !Reflected(env, s, i).Nothing?
                  || (Signal(i) > 0.5 && (v > 0.3 || v < -0.3)))
            && (outcome.Kept? ==> outcome.result.reflection == Reflected(env, s, i)
                                  && (outcome.result.acts <==> CallsForAction(d, v)) && outcome.result.depth == 7
                                  && outcome.result.noise == NoiseIn(i.stance))
  {
    var target, v, s1 := Target(i.event), Valence(i.event), Noticed(env, s, i.event);
    FinishKept(env, s, Checked(s1, target, v, i.now), i);
    hide Finish, Attends, Relevant, Gated, Target, Valence, ModulationOf, Reflected, Push, Recorded, Ruminating, Found,
      CallsForAction;
  }

  lemma FinishKept(env: Env, s: State, s2: State, i: Input)
    requires s2.dims == s.dims && s2.observations == s.observations
    ensures var d, v := Found(s, Target(i.event), i.later), Valence(i.event);
            var outcome := Finish(env, s2, i, Target(i.event), v).1;
            && (outcome.Kept? <==>
                  || i.event.source.Correction? || CallsForAction(d, v) || !Reflected(env, s, i).Nothing?
                  || (Signal(i) > 0.5 && (v > 0.3 || v < -0.3)))
            && (outcome.Kept? ==> outcome.result.reflection == Reflected(env, s, i)
                                  && (outcome.result.acts <==> CallsForAction(d, v)) && outcome.result.depth == 7
                                  && outcome.result.noise == NoiseIn(i.stance))
  {
    LinksAreMentions(env, s.observations, Target(i.event), i.event.source);
    assert Links(env, s.observations, Target(i.event), i.event.source) ==
           Mentions(env, s, Target(i.event), i.event.source);
    ReflectIs(env, s, i);
    hide Links, Reflected, Mentions, Target, Valence, Absorbed, Updated, Reflect;
  }

  lemma ReflectIs(env: Env, s: State, i: Input)
    ensures Reflect(Valence(i.event), Mentions(env, s, Target(i.event), i.event.source),
                    Found(s, Target(i.event), i.later), ModulationOf(i.stance)) == Reflected(env, s, i)
  {
    hide Mentions, Target, Valence, Found;
  }

  /** What an event is about and how it counts: the named dimension or the source's own; corrections,
      prediction errors and absences against, resonances for, the others either way. */
  lemma AboutAndSign(e: Event)
    ensures e.metadata.dimension.Some? ==> Target(e) == e.metadata.dimension.value
    ensures e.metadata.dimension.None? ==>
              Target(e) == match e.source
                           case PredictionError => "temporal_prediction"
                           case Correction => "accuracy"
                           case PatternShift => "pattern_recognition"
                           case StimmungEvent => "system_awareness"
                           case CrossResonance => "cross_modal_integration"
                           case Absence => "continuity"
                           case Performance => "processing_quality"
    ensures match e.source
            case PredictionError => Valence(e) == -0.5 * e.magnitude
            case Correction => Valence(e) == -0.7 * e.magnitude
            case Absence => Valence(e) == -0.3 * e.magnitude
            case CrossResonance => Valence(e) == 0.3 * e.magnitude
            case PatternShift =>
              Valence(e) == (match e.metadata.confirmed case None => 0.0 case Some(yes) => if yes then 0.5 else -0.5)
                            * e.magnitude
            case StimmungEvent =>
              && (e.metadata.direction == Some("improving") ==> Valence(e) == 0.3 * e.magnitude)
              && (e.metadata.direction in {Some("degrading"), Some("worsening")} ==> Valence(e) == -0.3 * e.magnitude)
              && (e.metadata.direction !in {Some("improving"), Some("degrading"), Some("worsening")} ==>
                    Valence(e) == 0.0)
            case Performance =>
              var over := (e.magnitude - if e.metadata.baseline.Some? then e.metadata.baseline.value else 0.5)
                          * e.magnitude;
              Valence(e) == if over > 1.0 then 1.0 else if over < -1.0 then -1.0 else over
  {}

  // ---------- runs ----------

  /** The events of the first k calls that were kept, in order. */
  ghost function AllKept(env: Env, states: seq<State>, inputs: seq<Input>, k: nat): seq<Apperceived>
    requires IsRun(env, states, inputs) && k <= |inputs|
  {
    if k == 0 then [] else
      var outcome := Process(env, states[k - 1], inputs[k - 1]).1;
      AllKept(env, states, inputs, k - 1) + if outcome.Kept? then [outcome.result] else []
  }

  ghost function Affirming(n: string): Apperceived -> bool {
    (a: Apperceived) => a.target == n && a.valence > 0.0
  }

  ghost function Problematizing(n: string): Apperceived -> bool {
    (a: Apperceived) => a.target == n && a.valence < 0.0
  }

  /** What a call adds to the kept events and to the evidence on a dimension. */
  lemma KeptStep(env: Env, states: seq<State>, inputs: seq<Input>, n: string, k: nat)
    requires IsRun(env, states, inputs) && k < |inputs| && Inv(states[k])
    ensures var outcome := Process(env, states[k], inputs[k]).1;
            var kept, kept' := AllKept(env, states, inputs, k), AllKept(env, states, inputs, k + 1);
            var d, d' := Found(states[k], n, 0.0), Found(states[k + 1], n, 0.0);
            && kept' == (if outcome.Kept? then kept + [outcome.result] else kept)
            && d'.affirming == d.affirming + (if outcome.Kept? && Affirming(n)(outcome.result) then 1 else 0)
            && d'.problematizing ==
               d.problematizing + (if outcome.Kept? && Problematizing(n)(outcome.result) then 1 else 0)
  {
    hide Process, Inv, Moves;
    KeptMoves(env, states[k], inputs[k], n);
  }

  /** In every run of a new cascade a dimension's evidence is the number of kept events for and against
      it. */
  lemma {:induction false} EvidenceCounts(env: Env, states: seq<State>, inputs: seq<Input>, n: string, k: nat)
    requires IsRun(env, states, inputs) && states[0] == Fresh() && k <= |inputs|
    ensures var d, kept := Found(states[k], n, 0.0), AllKept(env, states, inputs, k);
            && d.affirming == |Select(kept, Affirming(n))|
            && d.problematizing == |Select(kept, Problematizing(n))|
  {
    hide Process, Inv, HistoriesOk, Affirming, Problematizing, Select;
    if k > 0 {
      EvidenceCounts(env, states, inputs, n, k - 1);
      FreshOk();
      RunKeepsInv(env, states, inputs, k - 1);
      KeptStep(env, states, inputs, n, k - 1);
      hide AllKept, Found, IsRun;
      var outcome := Process(env, states[k - 1], inputs[k - 1]).1;
      if outcome.Kept? {
        CountOne(AllKept(env, states, inputs, k - 1), Affirming(n), outcome.result);
        CountOne(AllKept(env, states, inputs, k - 1), Problematizing(n), outcome.result);
      }
    } else {
      NothingCounted(n);
    }
  }

  lemma CountOne(kept: seq<Apperceived>, p: Apperceived -> bool, a: Apperceived)
    ensures |Select(kept + [a], p)| == |Select(kept, p)| + if p(a) then 1 else 0
  {
    SelectOne(kept, p, a);
    hide Select;
  }

  lemma NothingCounted(n: string)
    ensures Select([], Affirming(n)) == [] && Select([], Problematizing(n)) == []
  {}

  ghost function ObservationsOf(kept: seq<Apperceived>): (os: seq<Observation>)
    ensures |os| == |kept|
  {
    seq(|kept|, k requires 0 <= k < |kept| => kept[k].observation)
  }

  lemma PushLatest<T>(s: seq<T>, x: T, limit: nat)
    requires limit > 0
    ensures Push(Latest(s, limit), x, limit) == Latest(s + [x], limit)
  {}

  /** In every run of a new cascade the observations remembered are those of the last 20 kept events. */
  lemma {:induction false} ObservationsAreLatest(env: Env, states: seq<State>, inputs: seq<Input>, k: nat)
    requires IsRun(env, states, inputs) && states[0] == Fresh() && k <= |inputs|
    ensures states[k].observations == Latest(ObservationsOf(AllKept(env, states, inputs, k)), 20)
  {
    hide Process, Latest, Push;
    if k > 0 {
      ObservationsAreLatest(env, states, inputs, k - 1);
      ObservationStep(env, states, inputs, k - 1);
      hide AllKept;
      var outcome := Process(env, states[k - 1], inputs[k - 1]).1;
      if outcome.Kept? {
        PushLatest(ObservationsOf(AllKept(env, states, inputs, k - 1)), outcome.result.observation, 20);
      }
    } else {
      NothingKept();
    }
  }

  lemma NothingKept()
    ensures Latest(ObservationsOf([]), 20) == []
  {}

  lemma ObservationStep(env: Env, states: seq<State>, inputs: seq<Input>, k: nat)
    requires IsRun(env, states, inputs) && k < |inputs|
    ensures var outcome := Process(env, states[k], inputs[k]).1;
            var kept, kept' := AllKept(env, states, inputs, k), AllKept(env, states, inputs, k + 1);
            if outcome.Kept? then
              && ObservationsOf(kept') == ObservationsOf(kept) + [outcome.result.observation]
              && states[k + 1].observations == Push(states[k].observations, outcome.result.observation, 20)
            else ObservationsOf(kept') == ObservationsOf(kept) && states[k + 1].observations == states[k].observations
  {
    hide Process, Push, Updated, Valence, Target;
    ProcessModel(env, states[k], inputs[k]);
    var kept := AllKept(env, states, inputs, k);
    assert kept + [] == kept;
  }
}
