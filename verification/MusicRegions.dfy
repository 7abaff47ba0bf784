/** Classifying a waveform window by window, and merging music windows into regions. */
module MusicRegions {
  import opened Options
  import opened Sums

  const WINDOW_SECONDS := 10
  const HOP_SECONDS := 5
  const MIN_MUSIC_PROB := 0.10

  datatype Window = Window(start: real, end: real, musicProb: real, instruments: map<string, real>)

  datatype Region = Region(start: real, end: real, instruments: map<string, real>)

  /** What the model says about the window at a sample position; None when inference fails. */
  datatype Reading = Reading(musicProb: real, instruments: map<string, real>)

  predicate IsMusic(w: Window) {
    w.musicProb >= MIN_MUSIC_PROB
  }

  // ---------- the window grid ----------

  /** The window lies on the grid: it starts at a hop boundary and lasts one full window inside the
      recording. */
  ghost predicate OnGrid(w: Window, hop: nat, total: real) {
    w.start == (HOP_SECONDS * hop) as real && w.end == w.start + WINDOW_SECONDS as real && w.end <= total
  }

  ghost predicate OnSomeHop(w: Window, total: real) {
    exists hop: nat :: OnGrid(w, hop, total)
  }

  /** All windows are on the grid, each at a later hop than the one before. */
  ghost predicate Gridded(ws: seq<Window>, total: real) {
    && (forall i :: 0 <= i < |ws| ==> OnSomeHop(ws[i], total))
    && (forall i, j :: 0 <= i < j < |ws| ==> ws[i].start + ((j - i) * HOP_SECONDS) as real <= ws[j].start)
  }

  lemma SecondsAt(hop: nat, rate: nat, pos: nat)
    requires rate > 0 && pos == hop * (HOP_SECONDS * rate)
    ensures pos as real / rate as real == (HOP_SECONDS * hop) as real
  {
    assert pos == (HOP_SECONDS * hop) * rate;
    var h := HOP_SECONDS * hop;
    assert pos as real == h as real * rate as real by { Product(h, rate); }
    Cancel(h as real, rate as real);
  }

  lemma Product(a: nat, b: nat)
    ensures (a * b) as real == a as real * b as real
  {}

  lemma Cancel(a: real, b: real)
    requires b > 0.0
    ensures a * b / b == a
  {}

  lemma WindowFits(hop: nat, rate: nat, pos: nat, length: nat)
    requires rate > 0 && pos == hop * (HOP_SECONDS * rate) && pos + WINDOW_SECONDS * rate <= length
    ensures (HOP_SECONDS * hop + WINDOW_SECONDS) as real <= length as real / rate as real
  {
    SecondsFit(HOP_SECONDS * hop + WINDOW_SECONDS, rate, length);
  }

  lemma SecondsFit(seconds: nat, rate: nat, length: nat)
    requires rate > 0 && seconds * rate <= length
    ensures seconds as real <= length as real / rate as real
  {
    Product(seconds, rate);
    Cancel(seconds as real, rate as real);
    Ordered((seconds * rate) as real, length as real, rate as real);
  }

  lemma Ordered(a: real, b: real, d: real)
    requires d > 0.0 && a <= b
    ensures a / d <= b / d
  {}

  /** The sample position of a hop. */
  function Position(hop: nat, rate: nat): nat {
    hop * (HOP_SECONDS * rate)
  }

  /** The hops whose inference succeeds, up to a bound, in order; readings are by sample position. */
  function Hops(readings: nat -> Option<Reading>, rate: nat, n: nat): (hops: seq<nat>)
    ensures forall i :: 0 <= i < |hops| ==> hops[i] < n && readings(Position(hops[i], rate)).Some?
    ensures forall i, j :: 0 <= i < j < |hops| ==> hops[i] < hops[j]
    ensures forall hop: nat :: hop < n && readings(Position(hop, rate)).Some? ==> hop in hops
  {
    if n == 0 then []
    else if readings(Position(n - 1, rate)).Some? then Hops(readings, rate, n - 1) + [n - 1]
    else Hops(readings, rate, n - 1)
  }

  function WindowAt(hop: nat, reading: Reading): Window {
    Window((HOP_SECONDS * hop) as real, (HOP_SECONDS * hop + WINDOW_SECONDS) as real,
           reading.musicProb, reading.instruments)
  }

  function WindowsAt(readings: nat -> Option<Reading>, rate: nat, hops: seq<nat>): (ws: seq<Window>)
    requires forall i :: 0 <= i < |hops| ==> readings(Position(hops[i], rate)).Some?
    ensures |ws| == |hops|
    ensures forall i :: 0 <= i < |ws| ==> ws[i] == WindowAt(hops[i], readings(Position(hops[i], rate)).value)
  {
    seq(|hops|, i requires 0 <= i < |hops| => WindowAt(hops[i], readings(Position(hops[i], rate)).value))
  }

  /** The window at a hop fits in the waveform. */
  predicate Fits(hop: nat, rate: nat, length: nat) {
    Position(hop, rate) + WINDOW_SECONDS * rate <= length
  }

  /** The readings of every hop whose window fits, as windows. */
  function Windows(readings: nat -> Option<Reading>, rate: nat, n: nat): seq<Window> {
    WindowsAt(readings, rate, Hops(readings, rate, n))
  }

  /** Slides the window over the waveform; a window whose inference fails is skipped. */
  method ClassifyFullWaveform(length: nat, rate: nat, readings: nat -> Option<Reading>)
    returns (ws: seq<Window>, ghost n: nat)
    requires rate > 0
    ensures !Fits(n, rate, length) && (forall hop: nat :: hop < n ==> Fits(hop, rate, length))
    ensures ws == Windows(readings, rate, n)
    ensures Gridded(ws, length as real / rate as real)
  {
    hide Windows, Gridded;
    var total := length as real / rate as real;
    var windowSamples, hopSamples := WINDOW_SECONDS * rate, HOP_SECONDS * rate;
    ws, n := [], 0;
    NoWindows(readings, rate);
    var pos: nat := 0;
    while pos + windowSamples <= length
      invariant pos == Position(n, rate)
      invariant forall hop: nat :: hop < n ==> Fits(hop, rate, length)
      invariant ws == Windows(readings, rate, n)
      decreases length - pos
    {
      SecondsAt(n, rate, pos);
      WindowFits(n, rate, pos, length);
      NextPosition(n, rate);
      NextWindow(readings, rate, n);
      var start := pos as real / rate as real;
      var end := Min(start + WINDOW_SECONDS as real, total);
      match readings(pos) {
        case None =>
        case Some(r) => ws := ws + [Window(start, end, r.musicProb, r.instruments)];
      }
      n := n + 1;
      pos := pos + hopSamples;
    }
    WindowsAreGridded(length, rate, readings, n);
  }

  lemma NextPosition(n: nat, rate: nat)
    ensures Position(n + 1, rate) == Position(n, rate) + HOP_SECONDS * rate
  {}

  lemma NoWindows(readings: nat -> Option<Reading>, rate: nat)
    ensures Windows(readings, rate, 0) == []
  {}

  lemma NextWindow(readings: nat -> Option<Reading>, rate: nat, n: nat)
    ensures var r := readings(Position(n, rate));
            Windows(readings, rate, n + 1) ==
            Windows(readings, rate, n) + if r.Some? then [WindowAt(n, r.value)] else []
  {}

  /** The sample five seconds per hop into the recording. */
  function SampleAt(hop: nat, rate: nat): nat {
    hop * (5 * rate)
  }

  /** The window shows what was read at a hop's sample, over its ten seconds. */
  ghost predicate ReadAt(w: Window, hop: nat, reading: Option<Reading>) {
    && reading.Some?
    && w.start == (5 * hop) as real && w.end == w.start + 10.0
    && w.musicProb == reading.value.musicProb && w.instruments == reading.value.instruments
  }

  /** The windows are those of exactly the hops before n whose inference succeeds, in order. */
  lemma WindowsSay(readings: nat -> Option<Reading>, rate: nat, n: nat) returns (hops: seq<nat>)
    ensures var ws := Windows(readings, rate, n);
            && |hops| == |ws|
            && (forall i :: 0 <= i < |ws| ==> hops[i] < n && ReadAt(ws[i], hops[i], readings(SampleAt(hops[i], rate))))
            && (forall i, j :: 0 <= i < j < |hops| ==> hops[i] < hops[j])
            && (forall hop: nat :: hop < n && readings(SampleAt(hop, rate)).Some? ==> hop in hops)
  {
    hops := Hops(readings, rate, n);
    assert forall hop: nat :: Position(hop, rate) == SampleAt(hop, rate);
    hide Hops, Position, SampleAt;
  }

  lemma WindowsAreGridded(length: nat, rate: nat, readings: nat -> Option<Reading>, n: nat)
    requires rate > 0 && forall hop: nat :: hop < n ==> Fits(hop, rate, length)
    ensures Gridded(Windows(readings, rate, n), length as real / rate as real)
  {
    hide OnGrid, Hops, Position, Gridded, Fits;
    var hops, ws, total := Hops(readings, rate, n), Windows(readings, rate, n), length as real / rate as real;
    forall i | 0 <= i < |ws| ensures OnGrid(ws[i], hops[i], total) {
      HopOnGrid(hops[i], rate, length, ws[i]);
    }
    HopsAreGridded(ws, hops, total);
  }

  lemma HopOnGrid(hop: nat, rate: nat, length: nat, w: Window)
    requires rate > 0 && Fits(hop, rate, length)
    requires w.start == (HOP_SECONDS * hop) as real && w.end == (HOP_SECONDS * hop + WINDOW_SECONDS) as real
    ensures OnGrid(w, hop, length as real / rate as real)
  {}

  lemma HopsAreGridded(ws: seq<Window>, hops: seq<nat>, total: real)
    requires |ws| == |hops| && forall i :: 0 <= i < |ws| ==> OnGrid(ws[i], hops[i], total)
    requires forall i, j :: 0 <= i < j < |hops| ==> hops[i] < hops[j]
    ensures Gridded(ws, total)
  {
    forall i | 0 <= i < |ws| ensures OnSomeHop(ws[i], total) {
      assert OnGrid(ws[i], hops[i], total);
    }
    forall i, j | 0 <= i < j < |ws| ensures ws[i].start + ((j - i) * HOP_SECONDS) as real <= ws[j].start {
      Spread(hops, i, j);
    }
  }

  lemma {:induction false} Spread(hops: seq<nat>, i: nat, j: nat)
    requires i <= j < |hops| && forall a, b :: 0 <= a < b < |hops| ==> hops[a] < hops[b]
    ensures hops[i] + (j - i) <= hops[j]
  {
    if i < j {
      Spread(hops, i, j - 1);
    }
  }

  // ---------- instruments ----------

  /** Every instrument of either, with its greater probability. */
  function Merged(a: map<string, real>, b: map<string, real>): map<string, real> {
    map k | k in a.Keys + b.Keys :: if k in a && (k !in b || a[k] >= b[k]) then a[k] else b[k]
  }

  method MergeInstruments(agg: map<string, real>, more: map<string, real>) returns (r: map<string, real>)
    ensures r == Merged(agg, more)
  {
    r := agg;
    var rest := more.Keys;
    while rest != {}
      invariant rest <= more.Keys
      invariant r.Keys == agg.Keys + (more.Keys - rest)
      invariant forall k :: k in r ==> r[k] == if k in rest then agg[k] else Merged(agg, more)[k]
      decreases rest
    {
      var inst :| inst in rest;
      if inst !in r || more[inst] > r[inst] {
        r := r[inst := more[inst]];
      }
      rest := rest - {inst};
    }
  }

  /** The instruments of the windows from `lo` up to `hi`. */
  function Aggregate(ws: seq<Window>, lo: nat, hi: nat): map<string, real>
    requires lo <= hi <= |ws|
  {
    if lo == hi then map[] else Merged(Aggregate(ws, lo, hi - 1), ws[hi - 1].instruments)
  }

  predicate Heard(ws: seq<Window>, lo: nat, hi: nat, inst: string, prob: real)
    requires lo <= hi <= |ws|
  {
    exists k :: lo <= k < hi && inst in ws[k].instruments && ws[k].instruments[inst] == prob
  }

  /** The aggregate is the pointwise maximum: it lists exactly the instruments heard, each with its
      greatest probability. */
  lemma {:induction false} AggregateIsMaximum(ws: seq<Window>, lo: nat, hi: nat, inst: string)
    requires lo <= hi <= |ws|
    ensures var m := Aggregate(ws, lo, hi);
            && (inst in m ==> Heard(ws, lo, hi, inst, m[inst]))
            && (forall k :: lo <= k < hi && inst in ws[k].instruments ==>
                  inst in m && ws[k].instruments[inst] <= m[inst])
  {
    if lo < hi {
      AggregateIsMaximum(ws, lo, hi - 1, inst);
    }
  }

  // ---------- regions ----------

  datatype Span = Span(lo: nat, hi: nat)

  /** A maximal stretch of consecutive music windows. */
  predicate IsRun(ws: seq<Window>, s: Span) {
    && s.lo < s.hi <= |ws|
    && (forall k :: s.lo <= k < s.hi ==> IsMusic(ws[k]))
    && (s.lo == 0 || !IsMusic(ws[s.lo - 1]))
    && (s.hi == |ws| || !IsMusic(ws[s.hi]))
  }

  function Hull(ws: seq<Window>, s: Span): Region
    requires s.lo < s.hi <= |ws|
  {
    Region(ws[s.lo].start, ws[s.hi - 1].end, Aggregate(ws, s.lo, s.hi))
  }

  predicate Long(ws: seq<Window>, s: Span, minDuration: real)
    requires s.lo < s.hi <= |ws|
  {
    Hull(ws, s).end - Hull(ws, s).start >= minDuration
  }

  ghost predicate InOrder(spans: seq<Span>) {
    forall i, j :: 0 <= i < j < |spans| ==> spans[i].hi <= spans[j].lo
  }

  /** The regions are, in order, the hulls of exactly the long maximal runs. */
  ghost predicate Describes(ws: seq<Window>, minDuration: real, spans: seq<Span>, regions: seq<Region>) {
    && |regions| == |spans|
    && InOrder(spans)
    && (forall s :: s in spans <==> IsRun(ws, s) && Long(ws, s, minDuration))
    && (forall i :: 0 <= i < |spans| ==> spans[i] in spans && regions[i] == Hull(ws, spans[i]))
  }

  /** The runs that a window without music, before `n`, has closed. */
  ghost predicate Closed(ws: seq<Window>, s: Span, n: nat, minDuration: real) {
    IsRun(ws, s) && s.hi < n && Long(ws, s, minDuration)
  }

  ghost predicate Collected(ws: seq<Window>, n: nat, minDuration: real, spans: seq<Span>, regions: seq<Region>) {
    && |regions| == |spans|
    && InOrder(spans)
    && (forall s :: s in spans <==> Closed(ws, s, n, minDuration))
    && (forall i :: 0 <= i < |spans| ==> spans[i] in spans && regions[i] == Hull(ws, spans[i]))
  }

  /** The windows from `lo` up to `n` are music and what precedes them is not. */
  predicate Open(ws: seq<Window>, lo: nat, n: nat) {
    && lo < n <= |ws|
    && (forall k :: lo <= k < n ==> IsMusic(ws[k]))
    && (lo == 0 || !IsMusic(ws[lo - 1]))
  }

  lemma OpenBounds(ws: seq<Window>, lo: nat, n: nat)
    requires Open(ws, lo, n)
    ensures lo < n <= |ws|
  {}

  lemma OpenGrows(ws: seq<Window>, lo: nat, n: nat)
    requires n < |ws| && IsMusic(ws[n])
    requires Open(ws, lo, n) || (lo == n && (n == 0 || !IsMusic(ws[n - 1])))
    ensures Open(ws, lo, n + 1)
  {}

  /** A window that neither ends nor can end a run closes nothing. */
  lemma StillCollected(ws: seq<Window>, n: nat, minDuration: real, spans: seq<Span>, regions: seq<Region>)
    requires n <= |ws| && Collected(ws, n, minDuration, spans, regions)
    requires (n < |ws| && IsMusic(ws[n])) || n == 0 || !IsMusic(ws[n - 1])
    ensures Collected(ws, n + 1, minDuration, spans, regions)
  {}

  lemma OpenIsOnlyRun(ws: seq<Window>, lo: nat, n: nat, s: Span)
    requires Open(ws, lo, n) && (n == |ws| || !IsMusic(ws[n]))
    ensures IsRun(ws, Span(lo, n))
    ensures IsRun(ws, s) && s.hi == n ==> s == Span(lo, n)
    ensures IsRun(ws, s) && s.hi < n ==> s.hi <= lo
  {}

  /** The end of a run closes exactly that run. */
  lemma Close(ws: seq<Window>, lo: nat, n: nat, minDuration: real, spans: seq<Span>, regions: seq<Region>)
    requires Open(ws, lo, n) && (n == |ws| || !IsMusic(ws[n]))
    requires Collected(ws, n, minDuration, spans, regions)
    ensures !Long(ws, Span(lo, n), minDuration) ==> Collected(ws, n + 1, minDuration, spans, regions)
    ensures Long(ws, Span(lo, n), minDuration) ==>
              Collected(ws, n + 1, minDuration, spans + [Span(lo, n)], regions + [Hull(ws, Span(lo, n))])
  {
    hide Hull, Long, IsRun, Open;
    var run := Span(lo, n);
    OpenBounds(ws, lo, n);
    forall s ensures Closed(ws, s, n + 1, minDuration) <==>
                     Closed(ws, s, n, minDuration) || (s == run && Long(ws, run, minDuration)) {
      OpenIsOnlyRun(ws, lo, n, s);
    }
    forall i | 0 <= i < |spans| ensures spans[i].hi <= lo {
      OpenIsOnlyRun(ws, lo, n, spans[i]);
    }
    assert forall s :: s in spans + [run] <==> s in spans || s == run;
  }

  lemma HullGrows(ws: seq<Window>, lo: nat, n: nat)
    requires lo <= n < |ws|
    ensures Hull(ws, Span(lo, n + 1)) ==
            Region(ws[lo].start, ws[n].end, Merged(Aggregate(ws, lo, n), ws[n].instruments))
    ensures lo < n ==> Hull(ws, Span(lo, n)).start == ws[lo].start
                       && Hull(ws, Span(lo, n)).instruments == Aggregate(ws, lo, n)
    ensures Aggregate(ws, n, n) == map[]
  {}

  method DetectMusicRegions(ws: seq<Window>, minDuration: real) returns (regions: seq<Region>)
    ensures exists spans :: Describes(ws, minDuration, spans, regions)
  {
    hide Hull, Aggregate, Collected, Open, Merged, Describes;
    regions := [];
    ghost var spans: seq<Span> := [];
    NothingCollected(ws, minDuration);
    var currentStart: Option<real>, currentEnd: real, agg: map<string, real> := None, 0.0, map[];
    ghost var lo: nat := 0;
    for n := 0 to |ws|
      invariant Collected(ws, n, minDuration, spans, regions)
      invariant currentStart.None? ==> (n == 0 || !IsMusic(ws[n - 1])) && agg == map[]
      invariant currentStart.Some? ==>
                  lo < n && Open(ws, lo, n) && Region(currentStart.value, currentEnd, agg) == Hull(ws, Span(lo, n))
    {
      var w := ws[n];
      if IsMusic(w) {
        StillCollected(ws, n, minDuration, spans, regions);
        if currentStart.None? {
          currentStart, lo := Some(w.start), n;
        }
        HullGrows(ws, lo, n);
        OpenGrows(ws, lo, n);
        currentEnd := w.end;
        agg := MergeInstruments(agg, w.instruments);
      } else {
        if currentStart.Some? {
          Close(ws, lo, n, minDuration, spans, regions);
        } else {
          StillCollected(ws, n, minDuration, spans, regions);
        }
        if currentStart.Some? && currentEnd - currentStart.value >= minDuration {
          regions := regions + [Region(currentStart.value, currentEnd, agg)];
          spans := spans + [Span(lo, n)];
        }
        currentStart, agg := None, map[];
      }
    }
    if currentStart.Some? {
      Close(ws, lo, |ws|, minDuration, spans, regions);
    } else {
      StillCollected(ws, |ws|, minDuration, spans, regions);
    }
    if currentStart.Some? && currentEnd - currentStart.value >= minDuration {
      regions := regions + [Region(currentStart.value, currentEnd, agg)];
      spans := spans + [Span(lo, |ws|)];
    }
    AllCollected(ws, minDuration, spans, regions);
  }

  lemma NothingCollected(ws: seq<Window>, minDuration: real)
    ensures Collected(ws, 0, minDuration, [], [])
  {}

  lemma AllCollected(ws: seq<Window>, minDuration: real, spans: seq<Span>, regions: seq<Region>)
    requires Collected(ws, |ws| + 1, minDuration, spans, regions)
    ensures Describes(ws, minDuration, spans, regions)
  {}

  // ---------- on the grid ----------

  /** A window without music lies between two regions, so they do not overlap. */
  lemma RegionsApart(ws: seq<Window>, total: real, minDuration: real, spans: seq<Span>, regions: seq<Region>, i: nat,
                     j: nat)
    requires Gridded(ws, total) && Describes(ws, minDuration, spans, regions) && i < j < |regions|
    ensures regions[i].end <= regions[j].start
  {}

  /** Windows of the grid in list order are at least a hop apart each. */
  lemma GridOrder(ws: seq<Window>, total: real, i: nat, j: nat)
    requires Gridded(ws, total) && i <= j < |ws|
    ensures 0.0 <= ws[i].start && ws[i].end == ws[i].start + WINDOW_SECONDS as real && ws[i].end <= total
    ensures ws[j].end == ws[j].start + WINDOW_SECONDS as real && ws[j].end <= total
    ensures ws[i].start + ((j - i) * HOP_SECONDS) as real <= ws[j].start
  {}

  /** Each region has positive length and lies inside the recording. */
  lemma RegionInside(ws: seq<Window>, total: real, minDuration: real, spans: seq<Span>, regions: seq<Region>, i: nat)
    requires Gridded(ws, total) && Describes(ws, minDuration, spans, regions) && i < |regions|
    ensures 0.0 <= regions[i].start < regions[i].end <= total
    ensures regions[i].end - regions[i].start >= WINDOW_SECONDS as real
  {}

  function MusicTime(regions: seq<Region>): real {
    if regions == [] then 0.0
    else MusicTime(regions[..|regions| - 1]) + (regions[|regions| - 1].end - regions[|regions| - 1].start)
  }

  lemma {:induction false} MusicTimeBound(regions: seq<Region>, total: real)
    requires forall i, j :: 0 <= i < j < |regions| ==> regions[i].end <= regions[j].start
    requires forall i :: 0 <= i < |regions| ==> 0.0 <= regions[i].start && regions[i].end <= total
    requires total >= 0.0
    ensures MusicTime(regions) <= if regions == [] then 0.0 else regions[|regions| - 1].end
    ensures MusicTime(regions) <= total
  {
    if regions != [] {
      MusicTimeBound(regions[..|regions| - 1], total);
    }
  }

  /** All the music found is no longer than the recording. */
  lemma MusicFitsRecording(ws: seq<Window>, total: real, minDuration: real, spans: seq<Span>, regions: seq<Region>)
    requires Gridded(ws, total) && Describes(ws, minDuration, spans, regions) && total >= 0.0
    ensures MusicTime(regions) <= total
  {
    forall i, j | 0 <= i < j < |regions| ensures regions[i].end <= regions[j].start {
      RegionsApart(ws, total, minDuration, spans, regions, i, j);
    }
    forall i | 0 <= i < |regions| ensures 0.0 <= regions[i].start && regions[i].end <= total {
      RegionInside(ws, total, minDuration, spans, regions, i);
    }
    MusicTimeBound(regions, total);
  }

  function RunStart(ws: seq<Window>, k: nat): (lo: nat)
    requires k < |ws| && IsMusic(ws[k])
    ensures lo <= k && (lo == 0 || !IsMusic(ws[lo - 1])) && forall i :: lo <= i <= k ==> IsMusic(ws[i])
  {
    if k == 0 || !IsMusic(ws[k - 1]) then k else RunStart(ws, k - 1)
  }

  function RunEnd(ws: seq<Window>, k: nat): (hi: nat)
    requires k < |ws| && IsMusic(ws[k])
    ensures k < hi <= |ws| && (hi == |ws| || !IsMusic(ws[hi])) && forall i :: k <= i < hi ==> IsMusic(ws[i])
    decreases |ws| - k
  {
    if k + 1 == |ws| || !IsMusic(ws[k + 1]) then k + 1 else RunEnd(ws, k + 1)
  }

  /** On the grid a run lasts at least one window, so with the default minimum of one window's length
      every music window lies inside some region. */
  lemma RunAround(ws: seq<Window>, k: nat) returns (s: Span)
    requires k < |ws| && IsMusic(ws[k])
    ensures IsRun(ws, s) && s.lo <= k < s.hi
  {
    s := Span(RunStart(ws, k), RunEnd(ws, k));
  }

  lemma NoMusicMissed(ws: seq<Window>, total: real, minDuration: real, spans: seq<Span>, regions: seq<Region>, k: nat)
    returns (i: nat)
    requires Gridded(ws, total) && Describes(ws, minDuration, spans, regions)
    requires minDuration <= 10.0 && k < |ws| && ws[k].musicProb >= 0.10
    ensures i < |regions| && regions[i].start <= ws[k].start && ws[k].end <= regions[i].end
  {
    hide Gridded, IsMusic, Aggregate;
    var s := RunAround(ws, k);
    GridOrder(ws, total, s.lo, k);
    GridOrder(ws, total, k, s.hi - 1);
    assert s in spans;
    i :| 0 <= i < |spans| && spans[i] == s;
  }

  /** What a region says: it runs from the start of a window to the end of a later one, all music between
      windows that are not, for at least the minimum; it lists exactly the instruments heard in them, each
      with its greatest probability. */
  lemma RegionSays(ws: seq<Window>, minDuration: real, spans: seq<Span>, regions: seq<Region>, i: nat)
    returns (lo: nat, hi: nat)
    requires Describes(ws, minDuration, spans, regions) && i < |regions|
    ensures lo < hi <= |ws| && regions[i].start == ws[lo].start && regions[i].end == ws[hi - 1].end
    ensures forall k :: lo <= k < hi ==> ws[k].musicProb >= 0.10
    ensures (lo > 0 ==> ws[lo - 1].musicProb < 0.10) && (hi < |ws| ==> ws[hi].musicProb < 0.10)
    ensures regions[i].end - regions[i].start >= minDuration
    ensures forall inst :: inst in regions[i].instruments <==>
              exists k :: lo <= k < hi && inst in ws[k].instruments
    ensures forall inst, k :: lo <= k < hi && inst in ws[k].instruments ==>
              inst in regions[i].instruments && ws[k].instruments[inst] <= regions[i].instruments[inst]
    ensures forall inst :: inst in regions[i].instruments ==>
              exists k :: lo <= k < hi && inst in ws[k].instruments
                          && ws[k].instruments[inst] == regions[i].instruments[inst]
  {
    lo, hi := spans[i].lo, spans[i].hi;
    assert spans[i] in spans;
    forall inst
      ensures inst in regions[i].instruments ==> Heard(ws, lo, hi, inst, regions[i].instruments[inst])
      ensures forall k :: lo <= k < hi && inst in ws[k].instruments ==>
                inst in regions[i].instruments && ws[k].instruments[inst] <= regions[i].instruments[inst]
    {
      AggregateIsMaximum(ws, lo, hi, inst);
    }
    hide Aggregate;
  }
}
