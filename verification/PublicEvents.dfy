/** The public-event producers: each tails its own append-only log with a persisted byte cursor and
    appends events to one shared output file, remembering the ids it knows to be written.
    The broadcast-boundary and the chronicle producer run the same protocol on different logs. */
module PublicEvents {
  import opened Options

  // ---------- log files ----------

  /** One whole line. `Event` carries the id of the public event its producer builds from it; the
      other lines are skipped: blank, not JSON, not an object, or of no interest. */
  datatype Content = Blank | Malformed | NotObject | Ignored | Event(id: string)

  datatype Line = Line(content: Content, bytes: nat)

  /** Every line has at least its newline. */
  ghost predicate WholeLines(log: seq<Line>) {
    forall k :: 0 <= k < |log| ==> log[k].bytes >= 1
  }

  /** The byte offset at which line k starts. */
  function Offset(log: seq<Line>, k: nat): nat
    requires k <= |log|
  {
    if k == 0 then 0 else Offset(log, k - 1) + log[k - 1].bytes
  }

  function Size(log: seq<Line>): nat {
    Offset(log, |log|)
  }

  lemma {:induction false} OffsetMonotone(log: seq<Line>, i: nat, j: nat)
    requires WholeLines(log) && i <= j <= |log|
    ensures Offset(log, i) + (j - i) <= Offset(log, j)
  {
    if i < j {
      OffsetMonotone(log, i, j - 1);
    }
  }

  lemma {:induction false} OffsetPrefix(a: seq<Line>, b: seq<Line>, k: nat)
    requires k <= |a|
    ensures Offset(a + b, k) == Offset(a, k)
  {
    if k > 0 {
      OffsetPrefix(a, b, k - 1);
    }
  }

  // ---------- ids ----------

  /** The ids of the events in a log, in order. */
  function Ids(log: seq<Line>): seq<string> {
    if log == [] then [] else
      Ids(log[..|log| - 1]) + (match log[|log| - 1].content case Event(id) => [id] case _ => [])
  }

  /** Keeps the first occurrence of each id. */
  function Dedup(ids: seq<string>): seq<string> {
    if ids == [] then [] else
      var kept := Dedup(ids[..|ids| - 1]);
      if ids[|ids| - 1] in kept then kept else kept + [ids[|ids| - 1]]
  }

  /** Which producer an id belongs to. */
  type Owner = string -> nat

  /** The ids of one producer in the output file, in order. */
  function Mine(own: Owner, i: nat, out: seq<string>): seq<string> {
    if out == [] then [] else
      Mine(own, i, out[..|out| - 1]) + (if own(out[|out| - 1]) == i then [out[|out| - 1]] else [])
  }

  /** Every event of the log belongs to producer i. */
  ghost predicate OwnLog(own: Owner, i: nat, log: seq<Line>) {
    forall k :: 0 <= k < |log| && log[k].content.Event? ==> own(log[k].content.id) == i
  }

  // ---------- the protocol, step by step ----------

  /** Where a producer is: between ticks, about to read line `at`, or with the event of line `at`
      appended and the cursor not yet moved past it. */
  datatype Pc = Idle | Reading(at: nat) | Appended(at: nat)

  /** A producer with its source log and its cursor file. `known` is the in-memory id cache. */
  datatype Writer = Writer(log: seq<Line>, cursor: nat, known: Option<set<string>>, pc: Pc)

  datatype System = System(out: seq<string>, writers: seq<Writer>)

  datatype Action =
    | Grow(line: Line)   // another program appends a line to the log
    | StartTick          // opens the log at the cursor
    | Skip               // a line without an event: moves the cursor past it
    | Load               // first event of this process: reads the ids in the output file
    | Duplicate          // an id already known: moves the cursor past the line
    | AppendOk           // a new id: appends it and remembers it
    | AppendFail         // the append fails: the tick ends
    | WriteCursor        // after an append: moves the cursor past the line
    | EndTick            // end of the log
    | Rotate(log: seq<Line>)  // the log is replaced; a cursor beyond its end starts over
    | Crash              // the process dies at any point, or a cursor write fails

  ghost predicate AtEvent(w: Writer, id: string) {
    w.pc.Reading? && w.pc.at < |w.log| && w.log[w.pc.at].content == Event(id)
  }

  function Past(w: Writer): Writer
    requires !w.pc.Idle? && w.pc.at < |w.log|
  {
    w.(cursor := Offset(w.log, w.pc.at + 1), pc := Reading(w.pc.at + 1))
  }

  /** One atomic action of one producer. */
  ghost predicate Act(a: Action, out: seq<string>, w: Writer, out': seq<string>, w': Writer) {
    match a
    case Grow(line) => line.bytes >= 1 && out' == out && w' == w.(log := w.log + [line])
    case StartTick =>
      && w.pc.Idle? && out' == out
      && exists k: nat :: k <= |w.log| && Offset(w.log, k) == w.cursor && w' == w.(pc := Reading(k))
    case Skip =>
      && w.pc.Reading? && w.pc.at < |w.log| && !w.log[w.pc.at].content.Event?
      && out' == out && w' == Past(w)
    case Load =>
      && (exists id :: AtEvent(w, id)) && w.known.None?
      && out' == out && w' == w.(known := Some(set id | id in out))
    case Duplicate =>
      && (exists id :: AtEvent(w, id) && w.known.Some? && id in w.known.value)
      && out' == out && w' == Past(w)
    case AppendOk =>
      exists id :: && AtEvent(w, id) && w.known.Some? && id !in w.known.value
                   && out' == out + [id]
                   && w' == w.(known := Some(w.known.value + {id}), pc := Appended(w.pc.at))
    case AppendFail =>
      && (exists id :: AtEvent(w, id) && w.known.Some? && id !in w.known.value)
      && out' == out && w' == w.(pc := Idle)
    case WriteCursor => w.pc.Appended? && w.pc.at < |w.log| && out' == out && w' == Past(w)
    case EndTick => w.pc == Reading(|w.log|) && out' == out && w' == w.(pc := Idle)
    case Rotate(log) =>
      && w.pc.Idle? && out' == out
      && w' == w.(log := log, cursor := if w.cursor > Size(log) then 0 else w.cursor)
    case Crash => out' == out && w' == w.(known := None, pc := Idle)
  }

  /** Producer i takes one action; the others do not move, but share the output file. */
  ghost predicate Step(s: System, s': System, i: nat, a: Action) {
    && i < |s.writers| && |s'.writers| == |s.writers|
    && Act(a, s.out, s.writers[i], s'.out, s'.writers[i])
    && s'.writers == s.writers[i := s'.writers[i]]
  }

  // ---------- what every step keeps ----------

  /** The line the cursor stands at. */
  ghost predicate CursorAt(w: Writer, k: nat) {
    k <= |w.log| && Offset(w.log, k) == w.cursor
  }

  /** Exactly once: the producer's output is the deduplicated ids of the first k lines, where k is
      the line at the cursor, or one more when the last append outran the cursor; the cache agrees
      with the output on the producer's own ids; and a tick is always at the cursor's line. */
  ghost predicate WriterOk(own: Owner, i: nat, out: seq<string>, w: Writer, k: nat) {
    && WholeLines(w.log) && OwnLog(own, i, w.log) && CursorAt(w, k)
    && (Mine(own, i, out) == Dedup(Ids(w.log[..k]))
        || (k < |w.log| && Mine(own, i, out) == Dedup(Ids(w.log[..k + 1]))))
    && (w.known.Some? ==> forall id :: own(id) == i ==> (id in w.known.value <==> id in Mine(own, i, out)))
    && (w.pc.Reading? ==> w.pc.at == k)
    && (w.pc.Appended? ==> w.pc.at == k < |w.log| && Mine(own, i, out) == Dedup(Ids(w.log[..k + 1])))
  }

  ghost predicate WriterInv(own: Owner, i: nat, out: seq<string>, w: Writer) {
    exists k: nat :: WriterOk(own, i, out, w, k)
  }

  ghost predicate Inv(own: Owner, s: System) {
    forall i :: 0 <= i < |s.writers| ==> WriterInv(own, i, s.out, s.writers[i])
  }

  /** The logs only ever receive events of their own producer. */
  ghost predicate OwnAction(own: Owner, i: nat, a: Action) {
    && (a.Grow? && a.line.content.Event? ==> own(a.line.content.id) == i)
    && (a.Rotate? ==> OwnLog(own, i, a.log))
  }

  /** The log is append-only. */
  ghost predicate FairAction(own: Owner, i: nat, a: Action) {
    OwnAction(own, i, a) && !a.Rotate?
  }

  lemma MineAppend(own: Owner, i: nat, out: seq<string>, id: string)
    ensures Mine(own, i, out + [id]) == Mine(own, i, out) + (if own(id) == i then [id] else [])
  {}

  lemma {:induction false} MineMembers(own: Owner, i: nat, out: seq<string>, id: string)
    ensures id in Mine(own, i, out) <==> id in out && own(id) == i
  {
    if out != [] {
      MineMembers(own, i, out[..|out| - 1], id);
      assert out == out[..|out| - 1] + [out[|out| - 1]];
    }
  }

  /** One more line: its id, if any, is added to the deduplicated ids unless already there. */
  lemma DedupLine(log: seq<Line>, k: nat)
    requires k < |log|
    ensures var before, after := Dedup(Ids(log[..k])), Dedup(Ids(log[..k + 1]));
            match log[k].content
            case Event(id) => after == (if id in before then before else before + [id]) && id in after
            case _ => after == before
  {
    assert log[..k + 1][..k] == log[..k];
    var ids := Ids(log[..k]);
    if log[k].content.Event? {
      assert (ids + [log[k].content.id])[..|ids|] == ids;
    } else {
      assert ids + [] == ids;
    }
  }

  lemma CursorUnique(w: Writer, j: nat, k: nat)
    requires WholeLines(w.log) && CursorAt(w, j) && CursorAt(w, k)
    ensures j == k
  {
    if j < k { OffsetMonotone(w.log, j, k); }
    if k < j { OffsetMonotone(w.log, k, j); }
  }

  lemma GrowKeeps(own: Owner, i: nat, out: seq<string>, w: Writer, k: nat, line: Line)
    requires WriterOk(own, i, out, w, k) && line.bytes >= 1
    requires line.content.Event? ==> own(line.content.id) == i
    ensures WriterOk(own, i, out, w.(log := w.log + [line]), k)
  {
    OffsetPrefix(w.log, [line], k);
    assert (w.log + [line])[..k] == w.log[..k];
    assert k < |w.log| ==> (w.log + [line])[..k + 1] == w.log[..k + 1];
  }

  /** A new id is the next entry of the deduplicated log. */
  lemma AppendKeeps(own: Owner, i: nat, out: seq<string>, w: Writer, k: nat, out': seq<string>, w': Writer)
    requires WriterOk(own, i, out, w, k) && Act(AppendOk, out, w, out', w')
    ensures WriterOk(own, i, out', w', k)
  {
    var id :| && AtEvent(w, id) && out' == out + [id]
              && w' == w.(known := Some(w.known.value + {id}), pc := Appended(w.pc.at));
    DedupLine(w.log, k);
    MineAppend(own, i, out, id);
    assert own(id) == i && id !in Mine(own, i, out);
  }

  lemma ActKeeps(own: Owner, i: nat, a: Action, out: seq<string>, w: Writer, out': seq<string>, w': Writer)
    requires WriterInv(own, i, out, w) && Act(a, out, w, out', w') && FairAction(own, i, a)
    ensures WriterInv(own, i, out', w')
  {
    var k: nat :| WriterOk(own, i, out, w, k);
    match a
    case Grow(line) =>
      GrowKeeps(own, i, out, w, k, line);
    case StartTick =>
      var j: nat :| j <= |w.log| && Offset(w.log, j) == w.cursor && w' == w.(pc := Reading(j));
      CursorUnique(w, j, k);
      assert WriterOk(own, i, out', w', k);
    case Skip =>
      DedupLine(w.log, k);
      assert WriterOk(own, i, out', w', k + 1);
    case Load =>
      forall id | own(id) == i
        ensures id in out <==> id in Mine(own, i, out)
      {
        MineMembers(own, i, out, id);
      }
      assert WriterOk(own, i, out', w', k);
    case Duplicate =>
      DedupLine(w.log, k);
      assert WriterOk(own, i, out', w', k + 1);
    case AppendOk =>
      AppendKeeps(own, i, out, w, k, out', w');
    case AppendFail =>
      assert WriterOk(own, i, out', w', k);
    case WriteCursor =>
      assert WriterOk(own, i, out', w', k + 1);
    case EndTick =>
      assert WriterOk(own, i, out', w', k);
    case Crash =>
      assert WriterOk(own, i, out', w', k);
  }

  /** What another producer appends leaves this producer's part of the output as it was. */
  lemma ActOutput(own: Owner, i: nat, j: nat, a: Action, out: seq<string>, w: Writer, out': seq<string>, w': Writer)
    requires Act(a, out, w, out', w') && OwnLog(own, j, w.log) && i != j
    ensures Mine(own, i, out') == Mine(own, i, out)
  {}

  /** Every action of every producer keeps every producer's exactly-once invariant. */
  lemma StepKeepsInv(own: Owner, s: System, s': System, i: nat, a: Action)
    requires Inv(own, s) && Step(s, s', i, a) && FairAction(own, i, a)
    ensures Inv(own, s')
  {
    forall j | 0 <= j < |s'.writers|
      ensures WriterInv(own, j, s'.out, s'.writers[j])
    {
      assert WriterInv(own, j, s.out, s.writers[j]) && WriterInv(own, i, s.out, s.writers[i]);
      if j == i {
        ActKeeps(own, i, a, s.out, s.writers[i], s'.out, s'.writers[i]);
      } else {
        ActOutput(own, j, i, a, s.out, s.writers[i], s'.out, s'.writers[i]);
        var k: nat :| WriterOk(own, j, s.out, s.writers[j], k);
        assert WriterOk(own, j, s'.out, s'.writers[j], k);
      }
    }
  }

  // ---------- runs ----------

  /** Nothing read, nothing written, nothing of any producer in the output file. */
  ghost predicate Start(own: Owner, s: System) {
    && (forall i :: 0 <= i < |s.writers| ==>
          && s.writers[i].cursor == 0 && s.writers[i].pc.Idle? && s.writers[i].known.None?
          && WholeLines(s.writers[i].log) && OwnLog(own, i, s.writers[i].log))
    && (forall k :: 0 <= k < |s.out| ==> own(s.out[k]) >= |s.writers|)
  }

  datatype Move = Move(writer: nat, action: Action)

  ghost predicate IsRun(own: Owner, states: seq<System>, moves: seq<Move>) {
    && |states| == |moves| + 1
    && forall n :: 0 <= n < |moves| ==>
         Step(states[n], states[n + 1], moves[n].writer, moves[n].action)
         && FairAction(own, moves[n].writer, moves[n].action)
  }

  lemma {:induction false} MineOfStrangers(own: Owner, i: nat, out: seq<string>)
    requires forall k :: 0 <= k < |out| ==> own(out[k]) != i
    ensures Mine(own, i, out) == []
  {
    if out != [] {
      MineOfStrangers(own, i, out[..|out| - 1]);
    }
  }

  /** In every run, with failed appends, crashes between append and cursor write, restarts and other
      producers writing to the same file, every producer's output stays exactly-once. */
  lemma {:induction false} ExactlyOnce(own: Owner, states: seq<System>, moves: seq<Move>, n: nat)
    requires IsRun(own, states, moves) && Start(own, states[0]) && n <= |moves|
    ensures Inv(own, states[n])
  {
    if n == 0 {
      forall i | 0 <= i < |states[0].writers|
        ensures WriterInv(own, i, states[0].out, states[0].writers[i])
      {
        MineOfStrangers(own, i, states[0].out);
        assert WriterOk(own, i, states[0].out, states[0].writers[i], 0);
      }
    } else {
      ExactlyOnce(own, states, moves, n - 1);
      StepKeepsInv(own, states[n - 1], states[n], moves[n - 1].writer, moves[n - 1].action);
    }
  }

  // ---------- what the invariant gives a reader of the output file ----------

  lemma {:induction false} DedupProperties(ids: seq<string>)
    ensures forall i, j :: 0 <= i < j < |Dedup(ids)| ==> Dedup(ids)[i] != Dedup(ids)[j]
    ensures forall id :: id in Dedup(ids) <==> id in ids
  {
    if ids != [] {
      DedupProperties(ids[..|ids| - 1]);
      assert ids == ids[..|ids| - 1] + [ids[|ids| - 1]];
    }
  }

  /** No id twice; nothing that is not in the log; and nothing missing up to the cursor. */
  lemma OutputMeaning(own: Owner, i: nat, out: seq<string>, w: Writer, k: nat)
    requires WriterOk(own, i, out, w, k)
    ensures var mine := Mine(own, i, out);
            && (forall a, b :: 0 <= a < b < |mine| ==> mine[a] != mine[b])
            && (forall id :: id in Ids(w.log[..k]) ==> id in mine)
            && (forall id :: id in mine ==> id in Ids(w.log))
  {
    var m := if Mine(own, i, out) == Dedup(Ids(w.log[..k])) then k else k + 1;
    DedupProperties(Ids(w.log[..m]));
    IdsGrow(w.log, m);
    IdsGrow(w.log[..m], k);
    assert w.log[..m][..k] == w.log[..k];
  }

  /** A producer whose cursor is at the end of its log has written all of it. */
  lemma CaughtUp(own: Owner, i: nat, out: seq<string>, w: Writer)
    requires WriterInv(own, i, out, w) && w.cursor == Size(w.log)
    ensures Mine(own, i, out) == Dedup(Ids(w.log))
  {
    var k: nat :| WriterOk(own, i, out, w, k);
    CursorUnique(w, k, |w.log|);
    assert w.log[..|w.log|] == w.log;
  }

  lemma {:induction false} IdsGrow(log: seq<Line>, k: nat)
    requires k <= |log|
    ensures forall id :: id in Ids(log[..k]) ==> id in Ids(log)
    decreases |log|
  {
    if k < |log| {
      IdsGrow(log[..|log| - 1], k);
      assert log[..|log| - 1][..k] == log[..k];
    } else {
      assert log[..k] == log;
    }
  }

  // ---------- at most once, even when logs are rotated ----------

  /** No id of this producer is in the output twice, and the cache knows exactly the written ones. */
  ghost predicate SafeWriter(own: Owner, i: nat, out: seq<string>, w: Writer) {
    && OwnLog(own, i, w.log)
    && (forall a, b :: 0 <= a < b < |Mine(own, i, out)| ==> Mine(own, i, out)[a] != Mine(own, i, out)[b])
    && (w.known.Some? ==> forall id :: own(id) == i ==> (id in w.known.value <==> id in Mine(own, i, out)))
  }

  ghost predicate Safe(own: Owner, s: System) {
    forall i :: 0 <= i < |s.writers| ==> SafeWriter(own, i, s.out, s.writers[i])
  }

  lemma ActKeepsSafe(own: Owner, i: nat, a: Action, out: seq<string>, w: Writer, out': seq<string>, w': Writer)
    requires SafeWriter(own, i, out, w) && Act(a, out, w, out', w') && OwnAction(own, i, a)
    ensures SafeWriter(own, i, out', w')
  {
    if a.Load? {
      forall id | own(id) == i
        ensures id in out <==> id in Mine(own, i, out)
      {
        MineMembers(own, i, out, id);
      }
    } else if a.AppendOk? {
      var id :| AtEvent(w, id) && w.known.Some? && id !in w.known.value && out' == out + [id];
      MineAppend(own, i, out, id);
    }
  }

  /** In every run, whatever happens to the logs, no producer writes an id twice. */
  lemma {:induction false} AtMostOnce(own: Owner, states: seq<System>, moves: seq<Move>, n: nat)
    requires |states| == |moves| + 1 && Start(own, states[0]) && n <= |moves|
    requires forall m :: 0 <= m < |moves| ==>
               Step(states[m], states[m + 1], moves[m].writer, moves[m].action)
               && OwnAction(own, moves[m].writer, moves[m].action)
    ensures Safe(own, states[n])
  {
    if n == 0 {
      forall i | 0 <= i < |states[0].writers|
        ensures SafeWriter(own, i, states[0].out, states[0].writers[i])
      {
        MineOfStrangers(own, i, states[0].out);
      }
    } else {
      AtMostOnce(own, states, moves, n - 1);
      var s, s', i, a := states[n - 1], states[n], moves[n - 1].writer, moves[n - 1].action;
      assert Step(s, s', i, a) && OwnAction(own, i, a);
      forall j | 0 <= j < |s'.writers|
        ensures SafeWriter(own, j, s'.out, s'.writers[j])
      {
        assert SafeWriter(own, j, s.out, s.writers[j]) && SafeWriter(own, i, s.out, s.writers[i]);
        if j == i {
          ActKeepsSafe(own, i, a, s.out, s.writers[i], s'.out, s'.writers[i]);
        } else {
          ActOutput(own, j, i, a, s.out, s.writers[i], s'.out, s'.writers[i]);
        }
      }
    }
  }

  // ---------- a whole tick ----------

  datatype Result = Result(out: seq<string>, at: nat, known: Option<set<string>>)

  /** What one call of `run_once` does from line k on when the appends for the lines in `fails` fail. */
  function Tick(log: seq<Line>, k: nat, out: seq<string>, known: Option<set<string>>, fails: set<nat>): (r: Result)
    requires k <= |log|
    ensures k <= r.at <= |log|
    decreases |log| - k
  {
    if k == |log| then Result(out, k, known)
    else if !log[k].content.Event? then Tick(log, k + 1, out, known, fails)
    else
      var id := log[k].content.id;
      var ids := if known.Some? then known.value else set x | x in out;
      if id in ids then Tick(log, k + 1, out, Some(ids), fails)
      else if k in fails then Result(out, k, Some(ids))
      else Tick(log, k + 1, out + [id], Some(ids + {id}), fails)
  }

  /** A tick stops early only at a line whose append fails. */
  lemma {:induction false} TickStops(log: seq<Line>, k: nat, out: seq<string>, known: Option<set<string>>,
                                     fails: set<nat>)
    requires k <= |log|
    ensures var r := Tick(log, k, out, known, fails); r.at < |log| ==> r.at in fails && log[r.at].content.Event?
    decreases |log| - k
  {
    if k < |log| {
      if !log[k].content.Event? {
        TickStops(log, k + 1, out, known, fails);
      } else {
        var id := log[k].content.id;
        var ids := if known.Some? then known.value else set x | x in out;
        TickStops(log, k + 1, out, Some(ids), fails);
        TickStops(log, k + 1, out + [id], Some(ids + {id}), fails);
      }
    }
  }

  datatype Local = Local(out: seq<string>, w: Writer)

  /** Not a crash, not a change of the log. */
  predicate Undisturbed(a: Action) {
    !a.Grow? && !a.Rotate? && !a.Crash?
  }

  ghost predicate Acts(s: Local, t: Local) {
    exists a: Action :: Undisturbed(a) && Act(a, s.out, s.w, t.out, t.w)
  }

  ghost predicate IsTrace(tr: seq<Local>) {
    tr != [] && forall n :: 0 <= n < |tr| - 1 ==> Acts(tr[n], tr[n + 1])
  }

  lemma Prepend(a: Action, s: Local, tr: seq<Local>)
    requires IsTrace(tr) && Undisturbed(a) && Act(a, s.out, s.w, tr[0].out, tr[0].w)
    ensures IsTrace([s] + tr)
  {}

  /** A tick from line k is a sequence of protocol actions. */
  lemma {:induction false} TickIsTrace(w: Writer, k: nat, out: seq<string>, fails: set<nat>) returns (tr: seq<Local>)
    requires k <= |w.log| && w.pc == Reading(k) && w.cursor == Offset(w.log, k)
    ensures IsTrace(tr) && tr[0] == Local(out, w)
    ensures var r := Tick(w.log, k, out, w.known, fails);
            tr[|tr| - 1] == Local(r.out, Writer(w.log, Offset(w.log, r.at), r.known, Idle))
    decreases |w.log| - k
  {
    if k == |w.log| {
      tr := [Local(out, w.(pc := Idle))];
      Prepend(EndTick, Local(out, w), tr);
      tr := [Local(out, w)] + tr;
    } else if !w.log[k].content.Event? {
      tr := TickIsTrace(Past(w), k + 1, out, fails);
      Prepend(Skip, Local(out, w), tr);
      tr := [Local(out, w)] + tr;
    } else {
      tr := EventIsTrace(w.(known := Some(if w.known.Some? then w.known.value else set x | x in out)), k, out, fails);
      if w.known.None? {
        assert AtEvent(w, w.log[k].content.id);
        Prepend(Load, Local(out, w), tr);
        tr := [Local(out, w)] + tr;
      }
    }
  }

  lemma {:induction false} EventIsTrace(w: Writer, k: nat, out: seq<string>, fails: set<nat>) returns (tr: seq<Local>)
    requires k < |w.log| && w.pc == Reading(k) && w.cursor == Offset(w.log, k)
    requires w.log[k].content.Event? && w.known.Some?
    ensures IsTrace(tr) && tr[0] == Local(out, w)
    ensures var r := Tick(w.log, k, out, w.known, fails);
            tr[|tr| - 1] == Local(r.out, Writer(w.log, Offset(w.log, r.at), r.known, Idle))
    decreases |w.log| - k, 0
  {
    hide Acts;
    var id := w.log[k].content.id;
    assert AtEvent(w, id);
    if id in w.known.value {
      tr := TickIsTrace(Past(w), k + 1, out, fails);
      Prepend(Duplicate, Local(out, w), tr);
      tr := [Local(out, w)] + tr;
    } else if k in fails {
      tr := [Local(out, w.(pc := Idle))];
      Prepend(AppendFail, Local(out, w), tr);
      tr := [Local(out, w)] + tr;
    } else {
      var mid := w.(known := Some(w.known.value + {id}), pc := Appended(k));
      tr := TickIsTrace(Past(mid), k + 1, out + [id], fails);
      Prepend(WriteCursor, Local(out + [id], mid), tr);
      tr := [Local(out + [id], mid)] + tr;
      Prepend(AppendOk, Local(out, w), tr);
      tr := [Local(out, w)] + tr;
    }
  }

  lemma {:induction false} TraceKeepsInv(own: Owner, i: nat, tr: seq<Local>)
    requires IsTrace(tr) && WriterInv(own, i, tr[0].out, tr[0].w)
    ensures WriterInv(own, i, tr[|tr| - 1].out, tr[|tr| - 1].w)
  {
    if |tr| > 1 {
      assert Acts(tr[0], tr[1]);
      var a: Action :| Undisturbed(a) && Act(a, tr[0].out, tr[0].w, tr[1].out, tr[1].w);
      ActKeeps(own, i, a, tr[0].out, tr[0].w, tr[1].out, tr[1].w);
      hide Acts, Act, WriterInv;
      TraceKeepsInv(own, i, tr[1..]);
    }
  }

  /** A whole tick keeps the exactly-once invariant, and one without a failing append catches up. */
  lemma TickKeepsInv(own: Owner, i: nat, w: Writer, k: nat, out: seq<string>, fails: set<nat>)
    requires WriterInv(own, i, out, w) && w.pc.Idle? && CursorAt(w, k)
    ensures var r := Tick(w.log, k, out, w.known, fails);
            && WriterInv(own, i, r.out, Writer(w.log, Offset(w.log, r.at), r.known, Idle))
            && (fails == {} ==> Mine(own, i, r.out) == Dedup(Ids(w.log)))
  {
    var reading := w.(pc := Reading(k));
    ActKeeps(own, i, StartTick, out, w, out, reading);
    var tr := TickIsTrace(reading, k, out, fails);
    TraceKeepsInv(own, i, tr);
    var r := Tick(w.log, k, out, w.known, fails);
    TickStops(w.log, k, out, w.known, fails);
    if fails == {} {
      CaughtUp(own, i, r.out, Writer(w.log, Offset(w.log, r.at), r.known, Idle));
    }
  }

  // ---------- reading from a byte offset ----------

  /** The last line that starts at or before a byte offset. */
  function LineAt(log: seq<Line>, cursor: nat): (k: nat)
    ensures k <= |log| && Offset(log, k) <= cursor
    ensures k < |log| ==> cursor < Offset(log, k + 1)
  {
    if log == [] || Size(log) <= cursor then |log| else
      var init := log[..|log| - 1];
      InitOffset(log, LineAt(init, cursor));
      InitOffset(log, |init|);
      LineAt(init, cursor)
  }

  lemma {:induction false} InitOffset(log: seq<Line>, k: nat)
    requires k < |log|
    ensures Offset(log[..|log| - 1], k) == Offset(log, k)
    ensures k + 1 < |log| ==> Offset(log[..|log| - 1], k + 1) == Offset(log, k + 1)
  {
    OffsetPrefix(log[..|log| - 1], [log[|log| - 1]], k);
    if k + 1 < |log| {
      OffsetPrefix(log[..|log| - 1], [log[|log| - 1]], k + 1);
    }
    assert log == log[..|log| - 1] + [log[|log| - 1]];
  }

  /** The lines a reader sees that starts at a byte offset: a line it starts inside of is cut in two. */
  function Aligned(log: seq<Line>, cursor: nat, remainder: Content): seq<Line> {
    var k := LineAt(log, cursor);
    if k == |log| || Offset(log, k) == cursor then log
    else
      log[..k]
      + [Line(Malformed, cursor - Offset(log, k)), Line(remainder, Offset(log, k + 1) - cursor)]
      + log[k + 1..]
  }

  /** The reader starts at the beginning of a line; nothing changes if it already did, and no byte is
      lost or moved. */
  lemma AlignedAt(log: seq<Line>, cursor: nat, remainder: Content)
    requires cursor <= Size(log)
    ensures var lines := Aligned(log, cursor, remainder);
            && Offset(lines, LineAt(lines, cursor)) == cursor && Size(lines) == Size(log)
            && (Offset(log, LineAt(log, cursor)) == cursor ==> lines == log)
  {
    var k := LineAt(log, cursor);
    if k < |log| && Offset(log, k) < cursor {
      CutLine(log, k, Line(Malformed, cursor - Offset(log, k)), Line(remainder, Offset(log, k + 1) - cursor));
      LineAtIs(Aligned(log, cursor, remainder), cursor, k + 1);
    }
  }

  lemma {:induction false} OffsetAscends(log: seq<Line>, i: nat, j: nat)
    requires i <= j <= |log|
    ensures Offset(log, i) <= Offset(log, j)
  {
    if i < j {
      OffsetAscends(log, i, j - 1);
    }
  }

  lemma LineAtIs(log: seq<Line>, cursor: nat, k: nat)
    requires k < |log| && Offset(log, k) <= cursor < Offset(log, k + 1)
    ensures LineAt(log, cursor) == k
  {
    hide Offset;
    var j := LineAt(log, cursor);
    if j < k { OffsetAscends(log, j + 1, k); }
    if k < j { OffsetAscends(log, k + 1, j); }
  }

  lemma {:induction false} OffsetConcat(a: seq<Line>, b: seq<Line>, k: nat)
    requires k <= |b|
    ensures Offset(a + b, |a| + k) == Size(a) + Offset(b, k)
  {
    if k > 0 {
      OffsetConcat(a, b, k - 1);
    } else {
      OffsetPrefix(a, b, |a|);
    }
  }

  lemma CutLine(log: seq<Line>, k: nat, head: Line, tail: Line)
    requires k < |log| && head.bytes + tail.bytes == log[k].bytes
    ensures var lines := log[..k] + [head, tail] + log[k + 1..];
            && Offset(lines, k + 1) == Offset(log, k) + head.bytes
            && Offset(lines, k + 2) == Offset(log, k + 1) && Size(lines) == Size(log)
  {
    var lines, front, rest := log[..k] + [head, tail] + log[k + 1..], log[..k], log[k + 1..];
    assert lines == front + ([head, tail] + rest) && log == front + ([log[k]] + rest);
    OffsetPrefix(front, [log[k]] + rest, k);
    OffsetPrefix(front, [head, tail] + rest, k);
    SizeJoin(front, [log[k]] + rest);
    SizeJoin(front, [head, tail] + rest);
    SizeJoin([log[k]], rest);
    SizeJoin([head, tail], rest);
    assert Size([head, tail]) == Offset([head, tail], 1) + tail.bytes == head.bytes + tail.bytes;
    assert Offset([log[k]], 1) == Offset([log[k]], 0) + log[k].bytes;
  }

  lemma SizeJoin(a: seq<Line>, b: seq<Line>)
    ensures Size(a + b) == Size(a) + Size(b)
  {
    OffsetConcat(a, b, |b|);
  }

  // ---------- the mutable producer ----------

  class OutputFile {
    var ids: seq<string>

    constructor ()
      ensures ids == []
    {
      ids := [];
    }
  }

  class Producer {
    const output: OutputFile
    var cursor: nat
    var known: Option<set<string>>

    constructor (output: OutputFile, cursor: nat)
      ensures this.output == output && this.cursor == cursor && known == None
    {
      this.output, this.cursor, known := output, cursor, None;
    }

    method EventAlreadyWritten(id: string) returns (yes: bool)
      modifies this`known
      ensures known == Some(if old(known).Some? then old(known).value else set x | x in output.ids)
      ensures yes == (id in known.value)
    {
      if known.None? {
        known := Some(set x | x in output.ids);
      }
      yes := id in known.value;
    }

    method AppendPublicEvent(id: string, fails: bool) returns (ok: bool)
      modifies this`known, output
      ensures ok == !fails
      ensures output.ids == if ok then old(output.ids) + [id] else old(output.ids)
      ensures known == if ok && old(known).Some? then Some(old(known).value + {id}) else old(known)
    {
      if fails {
        return false;
      }
      output.ids := output.ids + [id];
      if known.Some? {
        known := Some(known.value + {id});
      }
      ok := true;
    }

    /** One batch. `source` is the log file as it is during the tick, or None if it cannot be read;
        a cursor beyond the end of the file starts over, and a cursor inside a line reads what is
        left of it, `remainder`, as a line. */
    method RunOnce(source: Option<seq<Line>>, remainder: Content, fails: set<nat>) returns (written: nat)
      modifies this, output
      ensures source.None? ==> written == 0 && cursor == old(cursor) && known == old(known)
      ensures source.None? ==> output.ids == old(output.ids)
      ensures source.Some? ==>
                var start := if old(cursor) > Size(source.value) then 0 else old(cursor);
                var lines := Aligned(source.value, start, remainder);
                var r := Tick(lines, LineAt(lines, start), old(output.ids), old(known), fails);
                && output.ids == r.out && known == r.known && cursor == Offset(lines, r.at)
                && |r.out| == |old(output.ids)| + written
    {
      hide Aligned, LineAt, Offset;
      written := 0;
      if source.None? {
        return;
      }
      if cursor > Size(source.value) {
        cursor := 0;
      }
      var log := Aligned(source.value, cursor, remainder);
      AlignedAt(source.value, cursor, remainder);
      var k := LineAt(log, cursor);
      ghost var goal := Tick(log, k, output.ids, known, fails);
      while k < |log|
        invariant k <= |log| && cursor == Offset(log, k)
        invariant Tick(log, k, output.ids, known, fails) == goal
        invariant |output.ids| == |old(output.ids)| + written
      {
        var content := log[k].content;
        if content.Event? {
          var seen := EventAlreadyWritten(content.id);
          if !seen {
            var ok := AppendPublicEvent(content.id, k in fails);
            if !ok {
              break;
            }
            written := written + 1;
          }
        }
        cursor := Offset(log, k + 1);
        k := k + 1;
      }
    }
  }
}
