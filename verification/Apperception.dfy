/** The apperception cascade: a seven-step stateful filter over events that accumulates
    self-knowledge per dimension. `Process` is what one event does to the cascade's values; the
    mutable classes are in module Cascade, what holds over runs in module ApperceptionRuns. */
module Apperception {
  import opened Options
  import opened Sums

  datatype Source =
    | PredictionError | Correction | PatternShift | StimmungEvent | CrossResonance | Absence | Performance

  type Magnitude = r: real | 0.0 <= r <= 1.0

  datatype Metadata = Metadata(dimension: Option<string>, confirmed: Option<bool>,
                               direction: Option<string>, baseline: Option<real>)

  datatype Event = Event(source: Source, text: string, magnitude: Magnitude, metadata: Metadata)

  function Abs(a: real): real { if a < 0.0 then -a else a }

  /** Appends to a bounded deque: the oldest entries fall out. */
  function Push<T>(s: seq<T>, x: T, limit: nat): (r: seq<T>)
    requires limit > 0
  {
    if |s| + 1 <= limit then s + [x] else (s + [x])[|s| + 1 - limit..]
  }

  // ---------- one dimension ----------

  datatype Dimension = Dimension(confidence: real, affirming: nat, problematizing: nat, lastShift: real)

  function NewDimension(now: real): Dimension {
    Dimension(0.5, 0, 0, now)
  }

  /** The step taken for a valence of this magnitude: linear up to 0.7, shrinking above. */
  function StepSize(magnitude: real): real {
    if magnitude > 0.7 then Max(0.02 * 0.7 * (1.0 - (magnitude - 0.7) / 0.3), 0.001)
    else 0.02 * magnitude
  }

  function NewConfidence(confidence: real, valence: real): real {
    var step := StepSize(Abs(valence));
    Max(0.05, Min(0.95, if valence > 0.0 then confidence + step else confidence - step))
  }

  function Updated(d: Dimension, valence: real, now: real): Dimension {
    var c := NewConfidence(d.confidence, valence);
    Dimension(c,
              if valence > 0.0 then d.affirming + 1 else d.affirming,
              if valence < 0.0 then d.problematizing + 1 else d.problematizing,
              if c != d.confidence then now else d.lastShift)
  }

  // ---------- stimmung ----------

  datatype Modulation = Modulation(criticalOnly: bool, noiseLevel: Option<real>, noiseReduction: real,
                                   reflectionThreshold: real, reflectionEnabled: bool)

  function ModulationOf(stance: string): Modulation {
    if stance == "cautious" then Modulation(false, None, 0.5, 1.0, true)
    else if stance == "degraded" then Modulation(false, Some(0.1), 1.0, 2.0, true)
    else if stance == "critical" then Modulation(true, Some(0.0), 1.0, 1.0, false)
    else Modulation(false, None, 1.0, 1.0, true)
  }

  const BASE_NOISE := 0.2

  function Noise(m: Modulation): real {
    if m.noiseLevel.Some? then m.noiseLevel.value else BASE_NOISE * m.noiseReduction
  }

  // ---------- state ----------

  datatype Reflection = Nothing | Tension | Recurring(links: nat)

  /** An observation text is determined by what was observed. */
  datatype Observation = Observation(source: Source, text: string)

  datatype Apperceived = Apperceived(observation: Observation, depth: nat, valence: real, target: string,
                                     acts: bool, reflection: Reflection, noise: real)

  /** What the code calls out to: the trigger digest, and whether an observation text mentions the
      target dimension or the source. */
  datatype Env = Env(digest: (Source, string) -> string, mentions: (Observation, string, Source) -> bool)

  /** `names` lists the dimensions in insertion order. */
  datatype State = State(names: seq<string>, dims: map<string, Dimension>,
                         observations: seq<Observation>, reflections: seq<Reflection>, coherence: real,
                         triggers: seq<string>, history: map<string, seq<real>>, gates: map<string, real>)

  const MAX_TRIGGERS := 50
  const MAX_OBSERVATIONS := 20
  const MAX_REFLECTIONS := 10
  const RUMINATION_LIMIT := 5
  const RUMINATION_GATE_SECONDS := 600.0
  const COHERENCE_FLOOR := 0.15
  const COHERENCE_CEILING := 1.0

  function Fresh(): State {
    State([], map[], [], [], 0.7, [], map[], map[])
  }

  /** One call of `process`: the event and stance, the random perturbation drawn for it, and the
      clock readings of the rumination check and of the model update. */
  datatype Input = Input(event: Event, stance: string, jitter: real, now: real, later: real)

  // ---------- the steps ----------

  predicate Attends(env: Env, s: State, e: Event, m: Modulation) {
    && (m.criticalOnly ==> e.source.PredictionError? || e.source.Correction?)
    && env.digest(e.source, e.text) !in s.triggers
  }

  function Relevance(e: Event, m: Modulation, jitter: real): real {
    var r := if Noise(m) > 0.0 then e.magnitude + jitter else e.magnitude;
    if e.source.Correction? then Max(r, 0.5) else r
  }

  predicate Relevant(s: State, e: Event, m: Modulation, jitter: real) {
    e.source.Correction? || Relevance(e, m, jitter) >= 0.2 * (if s.coherence < 0.4 then 0.5 else 1.0)
  }

  function Target(e: Event): string {
    if e.metadata.dimension.Some? then e.metadata.dimension.value else
      match e.source
      case PredictionError => "temporal_prediction"
      case Correction => "accuracy"
      case PatternShift => "pattern_recognition"
      case StimmungEvent => "system_awareness"
      case CrossResonance => "cross_modal_integration"
      case Absence => "continuity"
      case Performance => "processing_quality"
  }

  function Links(env: Env, obs: seq<Observation>, target: string, source: Source): nat {
    if obs == [] then 0
    else Links(env, obs[..|obs| - 1], target, source) + (if env.mentions(obs[|obs| - 1], target, source) then 1 else 0)
  }

  function Polarity(e: Event): real {
    match e.source
    case PredictionError => -0.5
    case Correction => -0.7
    case CrossResonance => 0.3
    case Absence => -0.3
    case PatternShift =>
      if e.metadata.confirmed == Some(true) then 0.5 else if e.metadata.confirmed == Some(false) then -0.5 else 0.0
    case StimmungEvent =>
      if e.metadata.direction == Some("improving") then 0.3
      else if e.metadata.direction == Some("degrading") || e.metadata.direction == Some("worsening") then -0.3
      else 0.0
    case Performance => e.magnitude - (if e.metadata.baseline.Some? then e.metadata.baseline.value else 0.5)
  }

  function Valence(e: Event): (v: real)
    ensures -1.0 <= v <= 1.0
  {
    Max(-1.0, Min(1.0, Polarity(e) * e.magnitude))
  }

  /** The last RUMINATION_LIMIT valences are all there and all negative. */
  predicate Ruminating(history: seq<real>) {
    |history| >= RUMINATION_LIMIT
    && forall i :: |history| - RUMINATION_LIMIT <= i < |history| ==> history[i] < 0.0
  }

  function HistoryOf(s: State, target: string): seq<real> {
    if target in s.history then s.history[target] else []
  }

  predicate GateActive(s: State, target: string, now: real) {
    target in s.gates && now < s.gates[target]
  }

  function Recorded(s: State, target: string, valence: real): seq<real> {
    Push(HistoryOf(s, target), valence, RUMINATION_LIMIT + 1)
  }

  /** The event is stopped: its dimension is gated, or this valence gates it. */
  predicate Gated(s: State, target: string, valence: real, now: real) {
    GateActive(s, target, now) || Ruminating(Recorded(s, target, valence))
  }

  /** The history and gates after the rumination check. */
  function Checked(s: State, target: string, valence: real, now: real): State {
    if GateActive(s, target, now) then s else
      var h := Recorded(s, target, valence);
      var gates := s.gates - {target};
      s.(history := s.history[target := h],
         gates := if Ruminating(h) then gates[target := now + RUMINATION_GATE_SECONDS] else gates)
  }

  function DimensionOf(s: State, target: string, now: real): Dimension {
    if target in s.dims then s.dims[target] else NewDimension(now)
  }

  function WithDimension(s: State, target: string, d: Dimension): State {
    s.(names := if target in s.dims then s.names else s.names + [target], dims := s.dims[target := d])
  }

  predicate Acts(valence: real, confidence: real) {
    valence < -0.5 && confidence > 0.6
  }

  function Reflect(valence: real, links: nat, d: Dimension, m: Modulation): Reflection {
    var trend := d.affirming > d.problematizing;
    if !m.reflectionEnabled then Nothing
    else if d.affirming + d.problematizing >= 3 && trend != (valence > 0.0) then Tension
    else if links as real >= 3.0 * m.reflectionThreshold then Recurring(links)
    else Nothing
  }

  function Depth(acts: bool, r: Reflection): nat {
    if !r.Nothing? then 6 else if acts then 5 else 4
  }

  predicate Retains(depth: nat, relevance: real, valence: real, r: Reflection, source: Source) {
    || source.Correction?
    || (depth >= 5 && (relevance > 0.3 || Abs(valence) > 0.2 || !r.Nothing?))
    || (depth == 4 && relevance > 0.5 && Abs(valence) > 0.3)
  }

  function SumConfidence(names: seq<string>, dims: map<string, Dimension>): real {
    if names == [] then 0.0
    else SumConfidence(names[..|names| - 1], dims)
         + (if names[|names| - 1] in dims then dims[names[|names| - 1]].confidence else 0.0)
  }

  /** Mean confidence, clamped; unchanged while there is no dimension. */
  function Coherence(names: seq<string>, dims: map<string, Dimension>, old_: real): real {
    if names == [] then old_
    else Max(COHERENCE_FLOOR, Min(COHERENCE_CEILING, SumConfidence(names, dims) / |names| as real))
  }

  /** What became of an event: filtered before the rumination check, stopped by it, dropped at
      retention, or kept. */
  datatype Outcome = Filtered | Stopped | Dropped | Kept(result: Apperceived)

  /** The model after a kept event. */
  function Absorbed(s: State, target: string, d: Dimension, o: Observation, r: Reflection): State {
    var s' := WithDimension(s, target, d);
    s'.(observations := Push(s.observations, o, MAX_OBSERVATIONS),
        reflections := if r.Nothing? then s.reflections else Push(s.reflections, r, MAX_REFLECTIONS),
        coherence := Coherence(s'.names, s'.dims, s.coherence))
  }

  /** The trigger is remembered. */
  function Noticed(env: Env, s: State, e: Event): State {
    s.(triggers := Push(s.triggers, env.digest(e.source, e.text), MAX_TRIGGERS))
  }

  function Process(env: Env, s: State, i: Input): (State, Outcome) {
    var e, m := i.event, ModulationOf(i.stance);
    if !Attends(env, s, e, m) then (s, Filtered) else
      var s1 := Noticed(env, s, e);
      if !Relevant(s1, e, m, i.jitter) then (s1, Filtered) else
        var target, valence := Target(e), Valence(e);
        var s2 := Checked(s1, target, valence, i.now);
        if Gated(s1, target, valence, i.now) then (s2, Stopped) else Finish(env, s2, i, target, valence)
  }

  /** Steps 5 to 7, past the rumination check. */
  function Finish(env: Env, s: State, i: Input, target: string, valence: real): (State, Outcome) {
    var e, m := i.event, ModulationOf(i.stance);
    var d := DimensionOf(s, target, i.later);
    var s' := WithDimension(s, target, d);
    var r := Reflect(valence, Links(env, s.observations, target, e.source), d, m);
    var acts := Acts(valence, d.confidence);
    if !Retains(Depth(acts, r), Relevance(e, m, i.jitter), valence, r, e.source) then (s', Dropped) else
      var o := Observation(e.source, e.text);
      (Absorbed(s', target, Updated(d, valence, i.later), o, r),
       Kept(Apperceived(o, 7, valence, target, acts, r, Noise(m))))
  }
}
