/** What the apperception cascade keeps over every run, under any clock. */
module ApperceptionRuns {
  import opened Options
  import opened Apperception
  import opened Sequences
  import opened Sums

  // ---------- the invariant ----------

  ghost predicate ConfidenceOk(c: real) {
    0.05 <= c <= 0.95
  }

  /** Every confidence and the coherence stay in range, the dimension list matches the table, and the
      remembered triggers are distinct and bounded. */
  ghost predicate Inv(s: State) {
    && (forall n :: n in s.dims ==> ConfidenceOk(s.dims[n].confidence))
    && (forall n :: n in s.names <==> n in s.dims) && NoRepeats(s.names)
    && COHERENCE_FLOOR <= s.coherence <= COHERENCE_CEILING
    && |s.triggers| <= MAX_TRIGGERS && NoRepeats(s.triggers)
    && |s.observations| <= MAX_OBSERVATIONS && |s.reflections| <= MAX_REFLECTIONS
  }

  lemma {:induction false} SumBounds(names: seq<string>, dims: map<string, Dimension>)
    requires forall n :: n in dims ==> ConfidenceOk(dims[n].confidence)
    requires forall n :: n in names ==> n in dims
    ensures 0.05 * |names| as real <= SumConfidence(names, dims) <= 0.95 * |names| as real
  {
    if names != [] {
      assert names[|names| - 1] in names;
      SumBounds(names[..|names| - 1], dims);
    }
  }

  lemma MeanBounds(sum: real, n: nat)
    requires n > 0 && 0.05 * n as real <= sum <= 0.95 * n as real
    ensures 0.05 <= sum / n as real <= 0.95
  {}

  function Confidences(names: seq<string>, dims: map<string, Dimension>): (cs: seq<real>)
    requires forall n :: n in names ==> n in dims
    ensures |cs| == |names|
  {
    seq(|names|, k requires 0 <= k < |names| => dims[names[k]].confidence)
  }

  lemma {:induction false} SumOfConfidences(names: seq<string>, dims: map<string, Dimension>)
    requires forall n :: n in names ==> n in dims
    ensures SumConfidence(names, dims) == Sum(Confidences(names, dims))
  {
    if names != [] {
      assert names[|names| - 1] in names;
      SumOfConfidences(names[..|names| - 1], dims);
      assert Confidences(names, dims)[..|names| - 1] == Confidences(names[..|names| - 1], dims);
    }
  }

  /** With at least one dimension the coherence never reaches its ceiling: it is the mean confidence,
      raised to the floor. */
  lemma CoherenceIsMean(names: seq<string>, dims: map<string, Dimension>, old_: real)
    requires names != [] && (forall n :: n in dims ==> ConfidenceOk(dims[n].confidence))
    requires forall n :: n in names ==> n in dims
    ensures Coherence(names, dims, old_) == Max(0.15, Sum(Confidences(names, dims)) / |names| as real)
    ensures 0.15 <= Coherence(names, dims, old_) <= 0.95
  {
    SumOfConfidences(names, dims);
    SumBounds(names, dims);
    MeanBounds(SumConfidence(names, dims), |names|);
  }

  lemma PushNoRepeats(s: seq<string>, x: string, limit: nat)
    requires limit > 0 && NoRepeats(s) && x !in s && |s| <= limit
    ensures NoRepeats(Push(s, x, limit)) && |Push(s, x, limit)| <= limit
  {}

  lemma UpdatedOk(d: Dimension, valence: real, now: real)
    ensures ConfidenceOk(Updated(d, valence, now).confidence)
  {}

  lemma WithDimensionOk(s: State, target: string, d: Dimension)
    requires Inv(s) && ConfidenceOk(d.confidence)
    ensures Inv(WithDimension(s, target, d))
    ensures target in WithDimension(s, target, d).names
    ensures WithDimension(s, target, d).(names := s.names, dims := s.dims) == s
  {}

  lemma AbsorbedOk(s: State, target: string, d: Dimension, o: Observation, r: Reflection)
    requires Inv(s) && ConfidenceOk(d.confidence)
    ensures Inv(Absorbed(s, target, d, o, r))
  {
    hide WithDimension, Coherence, NoRepeats, ConfidenceOk;
    WithDimensionOk(s, target, d);
    var s' := WithDimension(s, target, d);
    CoherenceIsMean(s'.names, s'.dims, s.coherence);
  }

  lemma FinishKeepsInv(env: Env, s: State, i: Input, target: string, valence: real)
    requires Inv(s)
    ensures Inv(Finish(env, s, i, target, valence).0)
  {
    var d := DimensionOf(s, target, i.later);
    assert ConfidenceOk(d.confidence);
    WithDimensionOk(s, target, d);
    UpdatedOk(d, valence, i.later);
    hide WithDimension, Updated, DimensionOf, Inv, Absorbed, Retains, Reflect, Links;
    AbsorbedOk(WithDimension(s, target, d), target, Updated(d, valence, i.later),
               Observation(i.event.source, i.event.text),
               Reflect(valence, Links(env, s.observations, target, i.event.source), d, ModulationOf(i.stance)));
  }

  lemma NoticedOk(env: Env, s: State, i: Input)
    requires Inv(s) && Attends(env, s, i.event, ModulationOf(i.stance))
    ensures Inv(Noticed(env, s, i.event))
    ensures Inv(Checked(Noticed(env, s, i.event), Target(i.event), Valence(i.event), i.now))
  {
    PushNoRepeats(s.triggers, env.digest(i.event.source, i.event.text), MAX_TRIGGERS);
    hide NoRepeats, Push, Recorded, Ruminating, ConfidenceOk;
  }

  lemma ProcessKeepsInv(env: Env, s: State, i: Input)
    requires Inv(s)
    ensures Inv(Process(env, s, i).0)
  {
    hide Inv, Noticed, Checked, Finish, Attends, Relevant, Gated;
    if Attends(env, s, i.event, ModulationOf(i.stance)) {
      NoticedOk(env, s, i);
      FinishKeepsInv(env, Checked(Noticed(env, s, i.event), Target(i.event), Valence(i.event), i.now), i,
                     Target(i.event), Valence(i.event));
    }
  }

  // ---------- rumination ----------

  /** The number of negative valences at the end of a history. */
  function Tail(h: seq<real>): (n: nat)
    ensures n <= |h|
  {
    if h == [] || h[|h| - 1] >= 0.0 then 0 else Tail(h[..|h| - 1]) + 1
  }

  lemma {:induction false} TailEntries(h: seq<real>)
    ensures forall i :: |h| - Tail(h) <= i < |h| ==> h[i] < 0.0
    ensures Tail(h) < |h| ==> h[|h| - Tail(h) - 1] >= 0.0
  {
    if h != [] && h[|h| - 1] < 0.0 {
      TailEntries(h[..|h| - 1]);
    }
  }

  /** Five negatives at the end of the history are what the rumination check looks for. */
  lemma RuminatingIffTail(h: seq<real>)
    ensures Ruminating(h) <==> Tail(h) >= RUMINATION_LIMIT
  {
    TailEntries(h);
  }

  lemma {:induction false} TailDrop(h: seq<real>, k: nat)
    requires k <= |h|
    ensures Tail(h[k..]) == if Tail(h) <= |h| - k then Tail(h) else |h| - k
  {
    if k < |h| && h[|h| - 1] < 0.0 {
      TailDrop(h[..|h| - 1], k);
      assert h[k..][..|h[k..]| - 1] == h[..|h| - 1][k..];
    }
  }

  /** Recording a valence: a non-negative one clears the tail, a negative one lengthens it, up to the
      six entries the deque holds. */
  lemma RecordedTail(s: State, target: string, v: real)
    requires |HistoryOf(s, target)| <= RUMINATION_LIMIT + 1
    ensures |Recorded(s, target, v)| <= RUMINATION_LIMIT + 1
    ensures v >= 0.0 ==> Tail(Recorded(s, target, v)) == 0
    ensures v < 0.0 ==> Tail(Recorded(s, target, v)) == (if Tail(HistoryOf(s, target)) <= RUMINATION_LIMIT
                                                         then Tail(HistoryOf(s, target)) + 1 else RUMINATION_LIMIT + 1)
  {
    var h := HistoryOf(s, target);
    assert (h + [v])[..|h|] == h;
    if |h| == RUMINATION_LIMIT + 1 {
      TailDrop(h + [v], 1);
    }
  }

  ghost predicate HistoriesOk(s: State) {
    forall n :: n in s.history ==> |s.history[n]| <= RUMINATION_LIMIT + 1
  }

  function Confidence(s: State, target: string): real {
    if target in s.dims then s.dims[target].confidence else 0.5
  }

  /** The event reaches the rumination check on dimension `d` and gets past it. */
  ghost predicate Passes(env: Env, s: State, i: Input, d: string) {
    Target(i.event) == d && (Process(env, s, i).1.Dropped? || Process(env, s, i).1.Kept?)
  }

  /** How many more negative events could still get past the check on this dimension. */
  function Allowance(s: State, d: string): int {
    var t := Tail(HistoryOf(s, d));
    if t <= 4 then 4 - t else 0
  }

  const MAX_STEP := 0.014

  lemma StepBound(m: real)
    requires m >= 0.0
    ensures 0.0 <= StepSize(m) <= MAX_STEP
  {
    if m > 0.7 {
      assert (m - 0.7) / 0.3 >= 0.0;
    }
  }

  lemma ConfidenceDrop(c: real, v: real)
    requires ConfidenceOk(c)
    ensures v > 0.0 ==> NewConfidence(c, v) >= c
    ensures v == 0.0 ==> NewConfidence(c, v) == c
    ensures NewConfidence(c, v) >= c - MAX_STEP
  {
    StepBound(Abs(v));
  }

  /** Steps 5 to 7 move only the target's confidence, and by at most one step. */
  lemma FinishConfidence(env: Env, s: State, i: Input, target: string, v: real, d: string)
    requires Inv(s)
    ensures Finish(env, s, i, target, v).0.history == s.history
    ensures d != target ==> Confidence(Finish(env, s, i, target, v).0, d) == Confidence(s, d)
    ensures Confidence(Finish(env, s, i, target, v).0, d) >=
            Confidence(s, d) - (if d == target && v < 0.0 then MAX_STEP else 0.0)
  {
    var c := DimensionOf(s, target, i.later).confidence;
    assert c == Confidence(s, target);
    ConfidenceDrop(c, v);
    hide Coherence, Retains, Reflect, Links, Push, NewConfidence;
  }

  /** What the rumination check does to the allowance of each dimension. */
  lemma CheckAllowance(s: State, target: string, v: real, now: real, d: string)
    requires HistoriesOk(s)
    ensures var s2 := Checked(s, target, v, now);
            && HistoriesOk(s2)
            && Allowance(s2, d) <=
                 (if v < 0.0 || d != target || Gated(s, target, v, now) then Allowance(s, d) else 4)
            && (!Gated(s, target, v, now) && d == target && v < 0.0 ==> Allowance(s2, d) == Allowance(s, d) - 1)
  {
    RecordedTail(s, target, v);
    RuminatingIffTail(Recorded(s, target, v));
    hide Tail, Ruminating, Recorded;
  }

  /** The heart of the bound: unless a non-negative event gets past the check on d, one call lowers
      d's confidence by at most one step, and then uses up one of the allowance. */
  lemma ProcessSpends(env: Env, s: State, i: Input, d: string)
    requires Inv(s) && HistoriesOk(s)
    ensures var s' := Process(env, s, i).0;
            && HistoriesOk(s')
            && (Passes(env, s, i, d) && Valence(i.event) >= 0.0 ==> Confidence(s', d) >= Confidence(s, d))
            && (Passes(env, s, i, d) && Valence(i.event) < 0.0 ==>
                  Allowance(s', d) == Allowance(s, d) - 1 && Confidence(s', d) >= Confidence(s, d) - MAX_STEP)
            && (!Passes(env, s, i, d) ==>
                  Allowance(s', d) <= Allowance(s, d) && Confidence(s', d) == Confidence(s, d))
  {
    hide Finish, Noticed, Checked, Attends, Relevant, Gated, Inv, Valence, Target, ModulationOf, Tail;
    var target, v, s1 := Target(i.event), Valence(i.event), Noticed(env, s, i.event);
    var s2 := Checked(s1, target, v, i.now);
    NoticedFrame(env, s, i, target, v);
    CheckAllowance(s1, target, v, i.now, d);
    if Attends(env, s, i.event, ModulationOf(i.stance)) {
      NoticedOk(env, s, i);
      FinishConfidence(env, s2, i, target, v, d);
      FinishOutcome(env, s2, i, target, v);
    }
  }

  lemma NoticedFrame(env: Env, s: State, i: Input, target: string, v: real)
    ensures var s1 := Noticed(env, s, i.event);
            s1.history == s.history && s1.dims == s.dims && Checked(s1, target, v, i.now).dims == s.dims
  {}

  lemma FinishOutcome(env: Env, s: State, i: Input, target: string, v: real)
    ensures Finish(env, s, i, target, v).1.Dropped? || Finish(env, s, i, target, v).1.Kept?
  {}

  // ---------- runs ----------

  ghost predicate IsRun(env: Env, states: seq<State>, inputs: seq<Input>) {
    && |states| == |inputs| + 1
    && forall k :: 0 <= k < |inputs| ==> states[k + 1] == Process(env, states[k], inputs[k]).0
  }

  /** A new cascade meets what the run theorems ask of the state they start from. */
  lemma FreshOk()
    ensures Inv(Fresh()) && HistoriesOk(Fresh())
  {}

  /** The negative events that get past the rumination check on d in calls i to j - 1. */
  ghost function NegativePasses(env: Env, states: seq<State>, inputs: seq<Input>, d: string, i: nat, j: nat): nat
    requires IsRun(env, states, inputs) && i <= j <= |inputs|
  {
    if i == j then 0 else
      NegativePasses(env, states, inputs, d, i, j - 1)
      + (if Passes(env, states[j - 1], inputs[j - 1], d) && Valence(inputs[j - 1].event) < 0.0 then 1 else 0)
  }

  /** No non-negative event gets past the check on d in calls i to j - 1. */
  ghost predicate NoRelief(env: Env, states: seq<State>, inputs: seq<Input>, d: string, i: nat, j: nat)
    requires IsRun(env, states, inputs) && i <= j <= |inputs|
  {
    forall k :: i <= k < j ==> !(Passes(env, states[k], inputs[k], d) && Valence(inputs[k].event) >= 0.0)
  }

  lemma {:induction false} RunKeepsInv(env: Env, states: seq<State>, inputs: seq<Input>, k: nat)
    requires IsRun(env, states, inputs) && k <= |inputs| && Inv(states[0]) && HistoriesOk(states[0])
    ensures Inv(states[k]) && HistoriesOk(states[k])
  {
    if k > 0 {
      RunKeepsInv(env, states, inputs, k - 1);
      ProcessKeepsInv(env, states[k - 1], inputs[k - 1]);
      ProcessSpends(env, states[k - 1], inputs[k - 1], "");
      hide Process, Inv, HistoriesOk;
    }
  }

  lemma OneMoreStep(n: nat)
    ensures MAX_STEP * (n + 1) as real == MAX_STEP * n as real + MAX_STEP
  {}

  lemma {:induction false} Spent(env: Env, states: seq<State>, inputs: seq<Input>, d: string, i: nat, j: nat)
    requires IsRun(env, states, inputs) && i <= j <= |inputs| && Inv(states[0]) && HistoriesOk(states[0])
    requires NoRelief(env, states, inputs, d, i, j)
    ensures var n := NegativePasses(env, states, inputs, d, i, j);
            && n <= Allowance(states[i], d) - Allowance(states[j], d)
            && Confidence(states[j], d) >= Confidence(states[i], d) - MAX_STEP * n as real
    decreases j
  {
    hide Process, Inv, HistoriesOk, Passes, Valence, Allowance, Confidence;
    if i < j {
      Spent(env, states, inputs, d, i, j - 1);
      RunKeepsInv(env, states, inputs, j - 1);
      ProcessSpends(env, states[j - 1], inputs[j - 1], d);
      OneMoreStep(NegativePasses(env, states, inputs, d, i, j - 1));
    }
  }

  /** The rumination bound: in every run, under any clock, between two non-negative events that get
      past the check on a dimension at most four negative ones do, so its confidence falls by at most
      0.056 in between; and it stays in [0.05, 0.95]. */
  lemma RuminationBound(env: Env, states: seq<State>, inputs: seq<Input>, d: string, i: nat, j: nat)
    requires IsRun(env, states, inputs) && i <= j <= |inputs| && Inv(states[0]) && HistoriesOk(states[0])
    requires NoRelief(env, states, inputs, d, i, j)
    ensures NegativePasses(env, states, inputs, d, i, j) <= 4
    ensures Confidence(states[j], d) >= Confidence(states[i], d) - 0.056
    ensures 0.05 <= Confidence(states[j], d) <= 0.95
  {
    Spent(env, states, inputs, d, i, j);
    RunKeepsInv(env, states, inputs, j);
  }

  // ---------- deduplication ----------

  /** An event that passes attention is not let through again while its trigger is among the last 50. */
  lemma NoEcho(env: Env, s: State, i: Input, again: Input)
    requires Inv(s) && Attends(env, s, i.event, ModulationOf(i.stance))
    requires env.digest(again.event.source, again.event.text) == env.digest(i.event.source, i.event.text)
    ensures Process(env, Process(env, s, i).0, again) == (Process(env, s, i).0, Filtered)
  {
    var t := env.digest(i.event.source, i.event.text);
    var pushed := Push(s.triggers, t, MAX_TRIGGERS);
    assert pushed[|pushed| - 1] == t;
    hide Push, Relevant, Gated, Retains, Coherence;
    assert Process(env, s, i).0.triggers == pushed;
  }

  function Digest(env: Env, e: Event): string {
    env.digest(e.source, e.text)
  }

  /** Call k passes attention. */
  ghost predicate Heeded(env: Env, states: seq<State>, inputs: seq<Input>, k: nat)
    requires IsRun(env, states, inputs) && k < |inputs|
  {
    Attends(env, states[k], inputs[k].event, ModulationOf(inputs[k].stance))
  }

  /** The triggers remembered at the start, then the digest of every call before k that passed attention. */
  ghost function Heard(env: Env, states: seq<State>, inputs: seq<Input>, k: nat): seq<string>
    requires IsRun(env, states, inputs) && k <= |inputs|
  {
    if k == 0 then states[0].triggers else
      Heard(env, states, inputs, k - 1)
      + (if Heeded(env, states, inputs, k - 1) then [Digest(env, inputs[k - 1].event)] else [])
  }

  lemma PushIsLatest(s: seq<string>, x: string, limit: nat)
    requires limit > 0
    ensures Push(Latest(s, limit), x, limit) == Latest(s + [x], limit)
  {}

  lemma ProcessTriggers(env: Env, s: State, i: Input)
    ensures Process(env, s, i).0.triggers ==
            if Attends(env, s, i.event, ModulationOf(i.stance))
            then Push(s.triggers, Digest(env, i.event), MAX_TRIGGERS)
            else s.triggers
  {
    hide Push, Relevant, Gated, Retains, Coherence, Attends;
  }

  /** In every run the cascade remembers the digests of exactly the last 50 calls that passed attention. */
  lemma {:induction false} TriggersAreLatest(env: Env, states: seq<State>, inputs: seq<Input>, k: nat)
    requires IsRun(env, states, inputs) && k <= |inputs| && |states[0].triggers| <= MAX_TRIGGERS
    ensures states[k].triggers == Latest(Heard(env, states, inputs, k), MAX_TRIGGERS)
  {
    hide Process, Push, Latest, Heeded, Digest, Heard;
    if k > 0 {
      TriggersAreLatest(env, states, inputs, k - 1);
      HeardStep(env, states, inputs, k - 1);
      PushIsLatest(Heard(env, states, inputs, k - 1), Digest(env, inputs[k - 1].event), MAX_TRIGGERS);
    } else {
      HeardAtStart(env, states, inputs);
    }
  }

  lemma HeardAtStart(env: Env, states: seq<State>, inputs: seq<Input>)
    requires IsRun(env, states, inputs) && |states[0].triggers| <= MAX_TRIGGERS
    ensures Latest(Heard(env, states, inputs, 0), MAX_TRIGGERS) == states[0].triggers
  {
    hide Process;
  }

  lemma HeardStep(env: Env, states: seq<State>, inputs: seq<Input>, k: nat)
    requires IsRun(env, states, inputs) && k < |inputs|
    ensures var heeded, t := Heeded(env, states, inputs, k), Digest(env, inputs[k].event);
            && states[k + 1].triggers ==
               (if heeded then Push(states[k].triggers, t, MAX_TRIGGERS) else states[k].triggers)
            && Heard(env, states, inputs, k + 1) ==
               (if heeded then Heard(env, states, inputs, k) + [t] else Heard(env, states, inputs, k))
  {
    hide Process, Push, Attends, Digest, ModulationOf;
    ProcessTriggers(env, states[k], inputs[k]);
  }

  /** The digest was heard nowhere strictly between calls i and j. */
  ghost predicate SilentBetween(env: Env, states: seq<State>, inputs: seq<Input>, t: string, i: nat, j: nat)
    requires IsRun(env, states, inputs) && j <= |inputs|
  {
    forall k :: i < k < j && Heeded(env, states, inputs, k) ==> Digest(env, inputs[k].event) != t
  }

  lemma {:induction false} HeardSince(env: Env, states: seq<State>, inputs: seq<Input>, i: nat, j: nat)
    requires IsRun(env, states, inputs) && i < j <= |inputs|
    ensures var h, since := Heard(env, states, inputs, j), Heard(env, states, inputs, i + 1);
            && since <= h
            && forall t :: SilentBetween(env, states, inputs, t, i, j) ==> t !in h[|since|..]
    decreases j
  {
    hide IsRun, Process, Heeded;
    if j > i + 1 {
      HeardSince(env, states, inputs, i, j - 1);
      var h, h' := Heard(env, states, inputs, j - 1), Heard(env, states, inputs, j);
      var since := Heard(env, states, inputs, i + 1);
      assert h'[|since|..] == h[|since|..] + h'[|h|..];
      forall t | SilentBetween(env, states, inputs, t, i, j) ensures t !in h'[|since|..] {
        assert SilentBetween(env, states, inputs, t, i, j - 1);
      }
    }
  }

  /** An event heard at call i is heard again at call j, not having been heard in between, exactly when
      the stance lets its source through and at least 50 others were heard in between. */
  lemma HeardAgainIff(env: Env, states: seq<State>, inputs: seq<Input>, i: nat, j: nat)
    requires IsRun(env, states, inputs) && i < j < |inputs| && |states[0].triggers| <= MAX_TRIGGERS
    requires Heeded(env, states, inputs, i) && Digest(env, inputs[i].event) == Digest(env, inputs[j].event)
    requires SilentBetween(env, states, inputs, Digest(env, inputs[i].event), i, j)
    ensures Heeded(env, states, inputs, j) <==>
            && SourcePasses(inputs[j])
            && |Heard(env, states, inputs, j)| - |Heard(env, states, inputs, i + 1)| >= MAX_TRIGGERS
  {
    var h, since := Heard(env, states, inputs, j), Heard(env, states, inputs, i + 1);
    var t := Digest(env, inputs[i].event);
    TriggersAreLatest(env, states, inputs, j);
    HeardSince(env, states, inputs, i, j);
    assert since[|since| - 1] == t;
    hide Heard, IsRun, SilentBetween;
    InLatest(h, since, t);
  }

  predicate SourcePasses(i: Input) {
    ModulationOf(i.stance).criticalOnly ==> i.event.source.PredictionError? || i.event.source.Correction?
  }

  lemma InLatest(h: seq<string>, since: seq<string>, t: string)
    requires since <= h && since != [] && since[|since| - 1] == t && t !in h[|since|..]
    ensures t in Latest(h, MAX_TRIGGERS) <==> |h| - |since| < MAX_TRIGGERS
  {
    if |h| - |since| < MAX_TRIGGERS {
      var drop := |h| - |Latest(h, MAX_TRIGGERS)|;
      assert Latest(h, MAX_TRIGGERS)[|since| - 1 - drop] == t;
    }
  }

  /** Between two events of one digest that pass attention, at least 50 others do. */
  lemma {:induction false} EchoGap(env: Env, states: seq<State>, inputs: seq<Input>, i: nat, j: nat)
    requires IsRun(env, states, inputs) && i < j < |inputs| && |states[0].triggers| <= MAX_TRIGGERS
    requires Heeded(env, states, inputs, i) && Heeded(env, states, inputs, j)
    requires Digest(env, inputs[i].event) == Digest(env, inputs[j].event)
    ensures |Heard(env, states, inputs, j)| - |Heard(env, states, inputs, i + 1)| >= MAX_TRIGGERS
    decreases j - i
  {
    hide IsRun, Process, Heeded, Heard;
    var t := Digest(env, inputs[i].event);
    if SilentBetween(env, states, inputs, t, i, j) {
      HeardAgainIff(env, states, inputs, i, j);
    } else {
      var k :| i < k < j && Heeded(env, states, inputs, k) && Digest(env, inputs[k].event) == t;
      EchoGap(env, states, inputs, k, j);
      HeardSince(env, states, inputs, i, k + 1);
    }
  }

  // ---------- gates ----------

  /** When a fifth negative in a row arrives the dimension is gated: it and everything on the dimension
      for the next 600 seconds is stopped, and nothing about the dimension changes. */
  lemma GateHolds(env: Env, s: State, i: Input, d: string)
    requires GateActive(s, d, i.now) && Target(i.event) == d
    ensures !Passes(env, s, i, d)
    ensures var s' := Process(env, s, i).0; s'.gates == s.gates && s'.history == s.history && s'.dims == s.dims
  {
    hide Finish;
  }

  lemma GateOpens(env: Env, s: State, i: Input, d: string)
    requires HistoriesOk(s) && Target(i.event) == d && !GateActive(s, d, i.now)
    requires Attends(env, s, i.event, ModulationOf(i.stance)) && Relevant(s, i.event, ModulationOf(i.stance), i.jitter)
    requires Valence(i.event) < 0.0 && Tail(HistoryOf(s, d)) >= 4
    ensures Process(env, s, i).1 == Stopped
    ensures d in Process(env, s, i).0.gates && Process(env, s, i).0.gates[d] == i.now + 600.0
  {
    var t := env.digest(i.event.source, i.event.text);
    var s1 := Noticed(env, s, i.event);
    RecordedTail(s1, d, Valence(i.event));
    RuminatingIffTail(Recorded(s1, d, Valence(i.event)));
    hide Finish, Tail, Push;
  }
}
