/** The ids of the two public-event producers: their prefixes survive sanitising, so neither producer
    can ever take the other's id for its own. */
module EventIds {
  import opened Options
  import opened PublicEvents

  /** How a string is lower-cased. */
  type Lowering = string -> string

  predicate Plain(c: char) {
    'a' <= c <= 'z' || c == ':'
  }

  ghost predicate AllPlain(p: string) {
    forall i :: 0 <= i < |p| ==> Plain(p[i])
  }

  /** Lower-casing leaves lower-case letters and colons at the front alone, whatever follows them. */
  ghost predicate KeepsPlain(lower: Lowering) {
    forall p: string, rest: string :: AllPlain(p) ==> p <= lower(p + rest)
  }

  predicate Allowed(c: char) {
    'a' <= c <= 'z' || '0' <= c <= '9' || c == '_' || c == ':'
  }

  predicate Strippable(c: char) {
    c == '_' || c == ':'
  }

  /** Every "+00:00" becomes "z". */
  function Zulu(s: string): string {
    if s == "" then ""
    else if |s| >= 6 && s[..6] == "+00:00" then "z" + Zulu(s[6..])
    else [s[0]] + Zulu(s[1..])
  }

  function SkipDisallowed(s: string): (r: string)
    ensures |r| <= |s|
  {
    if s == "" || Allowed(s[0]) then s else SkipDisallowed(s[1..])
  }

  /** Every run of other characters becomes one underscore. */
  function Replaced(s: string): string
    decreases |s|
  {
    if s == "" then ""
    else if Allowed(s[0]) then [s[0]] + Replaced(s[1..])
    else "_" + Replaced(SkipDisallowed(s[1..]))
  }

  function SkipUnderscores(s: string): (r: string)
    ensures |r| <= |s|
  {
    if s == "" || s[0] != '_' then s else SkipUnderscores(s[1..])
  }

  /** Every run of underscores becomes one. */
  function Collapsed(s: string): string
    decreases |s|
  {
    if s == "" then ""
    else if s[0] == '_' then "_" + Collapsed(SkipUnderscores(s[1..]))
    else [s[0]] + Collapsed(s[1..])
  }

  function StripLeft(s: string): string {
    if s == "" || !Strippable(s[0]) then s else StripLeft(s[1..])
  }

  function StripRight(s: string): string {
    if s == "" || !Strippable(s[|s| - 1]) then s else StripRight(s[..|s| - 1])
  }

  function Sanitized(lower: Lowering, raw: string): string {
    var cleaned := StripRight(StripLeft(Collapsed(Replaced(Zulu(lower(raw))))));
    if cleaned == "" || !('a' <= cleaned[0] <= 'z') then "rvpe:" + cleaned else cleaned
  }

  /** A field of the source record: None when absent, blank or not a string. */
  function Or(field: Option<string>, default: string): string {
    if field.Some? then field.value else default
  }

  function BoundaryFields(timestamp: Option<string>, incoming: Option<string>, outgoing: Option<string>,
                          digest: Option<string>): string {
    Or(timestamp, "unknown_time") + ":" + Or(incoming, "missing_incoming") + ":" + Or(outgoing, "missing_outgoing")
    + ":" + Or(digest, "missing_digest")
  }

  function BoundaryId(lower: Lowering, timestamp: Option<string>, incoming: Option<string>, outgoing: Option<string>,
                      digest: Option<string>): string {
    Sanitized(lower, "rvpe:broadcast_boundary:" + BoundaryFields(timestamp, incoming, outgoing, digest))
  }

  function ChronicleFields(mapped: string, ts: Option<string>, trace: Option<string>, span: Option<string>,
                           source: Option<string>, kind: Option<string>): string {
    mapped + ":" + Or(ts, "unknown_ts") + ":" + Or(trace, "missing_trace") + ":" + Or(span, "missing_span")
    + ":" + Or(source, "unknown_source") + ":" + Or(kind, "unknown_event")
  }

  function ChronicleId(lower: Lowering, mapped: string, ts: Option<string>, trace: Option<string>, span: Option<string>,
                       source: Option<string>, kind: Option<string>): string {
    Sanitized(lower, "rvpe:chronicle:" + ChronicleFields(mapped, ts, trace, span, source, kind))
  }

  // ---------- a plain prefix survives ----------

  /** The replacements leave a prefix of lower-case letters and colons where it is. */
  lemma {:induction false} PrefixKept(p: string, rest: string)
    requires AllPlain(p)
    ensures Zulu(p + rest) == p + Zulu(rest)
    ensures Replaced(p + rest) == p + Replaced(rest)
    ensures Collapsed(p + rest) == p + Collapsed(rest)
  {
    hide Zulu, Replaced, Collapsed, Plain;
    if p == "" {
      assert forall t: string :: p + t == t;
    } else {
      PrefixKept(p[1..], rest);
      OnePlain(p[0], p[1..] + rest);
      assert p + rest == [p[0]] + (p[1..] + rest);
      assert forall t: string :: p + t == [p[0]] + (p[1..] + t);
    }
  }

  lemma OnePlain(c: char, rest: string)
    requires Plain(c)
    ensures Zulu([c] + rest) == [c] + Zulu(rest)
    ensures Replaced([c] + rest) == [c] + Replaced(rest)
    ensures Collapsed([c] + rest) == [c] + Collapsed(rest)
  {}

  lemma {:induction false} StripRightKept(p: string, rest: string)
    requires p != "" && !Strippable(p[|p| - 1])
    ensures p <= StripRight(p + rest)
    decreases |rest|
  {
    if rest == "" {
      assert p + rest == p;
    } else {
      assert (p + rest)[..|p + rest| - 1] == p + rest[..|rest| - 1];
      StripRightKept(p, rest[..|rest| - 1]);
    }
  }

  lemma Keeps(lower: Lowering, p: string, rest: string)
    requires KeepsPlain(lower) && AllPlain(p)
    ensures p <= lower(p + rest)
  {}

  lemma SanitizedPrefix(lower: Lowering, p: string, rest: string)
    requires KeepsPlain(lower) && AllPlain(p) && p != "" && p[0] != ':' && p[|p| - 1] != ':'
    ensures p <= Sanitized(lower, p + rest)
  {
    hide Replaced, Collapsed, Zulu, StripRight, KeepsPlain;
    Keeps(lower, p, rest);
    var a := lower(p + rest)[|p|..];
    assert lower(p + rest) == p + a;
    PrefixKept(p, a);
    PrefixKept(p, Zulu(a));
    PrefixKept(p, Replaced(Zulu(a)));
    StripRightKept(p, Collapsed(Replaced(Zulu(a))));
  }

  const BOUNDARY := "rvpe:broadcast"
  const CHRONICLE := "rvpe:chronicle"

  /** The producer an id belongs to, read off its sixth character. */
  function OwnerOf(id: string): nat {
    if |id| > 5 && id[5] == 'b' then 0 else if |id| > 5 && id[5] == 'c' then 1 else 2
  }

  lemma BoundaryOwned(lower: Lowering, timestamp: Option<string>, incoming: Option<string>, outgoing: Option<string>,
                      digest: Option<string>)
    requires KeepsPlain(lower)
    ensures OwnerOf(BoundaryId(lower, timestamp, incoming, outgoing, digest)) == 0
  {
    hide Sanitized, BoundaryFields;
    var fields := BoundaryFields(timestamp, incoming, outgoing, digest);
    assert "rvpe:broadcast_boundary:" + fields == BOUNDARY + ("_boundary:" + fields);
    SanitizedPrefix(lower, BOUNDARY, "_boundary:" + fields);
    assert BOUNDARY[5] == 'b';
  }

  lemma ChronicleOwned(lower: Lowering, mapped: string, ts: Option<string>, trace: Option<string>, span: Option<string>,
                       source: Option<string>, kind: Option<string>)
    requires KeepsPlain(lower)
    ensures OwnerOf(ChronicleId(lower, mapped, ts, trace, span, source, kind)) == 1
  {
    hide Sanitized, ChronicleFields;
    var fields := ChronicleFields(mapped, ts, trace, span, source, kind);
    assert "rvpe:chronicle:" + fields == CHRONICLE + (":" + fields);
    SanitizedPrefix(lower, CHRONICLE, ":" + fields);
    assert CHRONICLE[5] == 'c';
  }

  ghost predicate IsBoundaryId(lower: Lowering, id: string) {
    exists t, i, o, d :: id == BoundaryId(lower, t, i, o, d)
  }

  ghost predicate IsChronicleId(lower: Lowering, id: string) {
    exists m, ts, tr, sp, so, k :: id == ChronicleId(lower, m, ts, tr, sp, so, k)
  }

  /** The ids writer i builds: the boundary producer is writer 0, the chronicle producer writer 1. */
  ghost predicate Builds(lower: Lowering, i: nat, id: string) {
    if i == 0 then IsBoundaryId(lower, id) else i == 1 && IsChronicleId(lower, id)
  }

  lemma BuildsOwn(lower: Lowering, i: nat, id: string)
    requires KeepsPlain(lower) && Builds(lower, i, id)
    ensures OwnerOf(id) == i
  {
    hide BoundaryId, ChronicleId, KeepsPlain, OwnerOf;
    if i == 0 {
      var t, m, o, d :| id == BoundaryId(lower, t, m, o, d);
      BoundaryOwned(lower, t, m, o, d);
    } else {
      var m, ts, tr, sp, so, e :| id == ChronicleId(lower, m, ts, tr, sp, so, e);
      ChronicleOwned(lower, m, ts, tr, sp, so, e);
    }
  }

  /** The events of a log carry ids that writer i builds. */
  ghost predicate Feeds(lower: Lowering, i: nat, log: seq<Line>) {
    forall k :: 0 <= k < |log| && log[k].content.Event? ==> Builds(lower, i, log[k].content.id)
  }

  lemma FeedsOwn(lower: Lowering, i: nat, log: seq<Line>)
    requires KeepsPlain(lower) && Feeds(lower, i, log)
    ensures OwnLog(OwnerOf, i, log)
  {
    hide KeepsPlain, OwnerOf, Builds;
    forall k | 0 <= k < |log| && log[k].content.Event? ensures OwnerOf(log[k].content.id) == i {
      BuildsOwn(lower, i, log[k].content.id);
    }
  }

  /** Whatever the two source logs contain, each producer's events carry only its own ids: the
      exactly-once protocol may share one output file between them. */
  lemma ProducersOwnTheirLogs(lower: Lowering, boundary: seq<Line>, chronicle: seq<Line>)
    requires KeepsPlain(lower) && Feeds(lower, 0, boundary) && Feeds(lower, 1, chronicle)
    ensures OwnLog(OwnerOf, 0, boundary) && OwnLog(OwnerOf, 1, chronicle)
  {
    FeedsOwn(lower, 0, boundary);
    FeedsOwn(lower, 1, chronicle);
  }

  // ---------- the two producers together ----------

  /** Two new producers, each with its own log, and an output file with none of their ids. */
  ghost predicate Begins(lower: Lowering, s: System) {
    && |s.writers| == 2
    && (forall i :: 0 <= i < 2 ==>
          && s.writers[i].cursor == 0 && s.writers[i].pc.Idle? && s.writers[i].known.None?
          && WholeLines(s.writers[i].log) && Feeds(lower, i, s.writers[i].log))
    && (forall k :: 0 <= k < |s.out| ==> OwnerOf(s.out[k]) == 2)
  }

  /** Any interleaving of the two, on logs that only grow, by lines each producer takes for its own. */
  ghost predicate IsProducerRun(lower: Lowering, states: seq<System>, moves: seq<Move>) {
    && |states| == |moves| + 1 && Begins(lower, states[0])
    && forall n :: 0 <= n < |moves| ==>
         && Step(states[n], states[n + 1], moves[n].writer, moves[n].action)
         && !moves[n].action.Rotate?
         && (moves[n].action.Grow? ==> Feeds(lower, moves[n].writer, [moves[n].action.line]))
  }

  /** The two producers share one output file exactly-once, with nothing asked of their ids. */
  lemma ProducersExactlyOnce(lower: Lowering, states: seq<System>, moves: seq<Move>, n: nat)
    requires KeepsPlain(lower) && IsProducerRun(lower, states, moves) && n <= |moves|
    ensures Inv(OwnerOf, states[n])
  {
    hide KeepsPlain, Builds, OwnerOf, Inv;
    FeedsOwn(lower, 0, states[0].writers[0].log);
    FeedsOwn(lower, 1, states[0].writers[1].log);
    forall m | 0 <= m < |moves| ensures FairAction(OwnerOf, moves[m].writer, moves[m].action) {
      FairFeed(lower, moves[m]);
    }
    ExactlyOnce(OwnerOf, states, moves, n);
  }

  lemma FairFeed(lower: Lowering, move: Move)
    requires KeepsPlain(lower) && !move.action.Rotate?
    requires move.action.Grow? ==> Feeds(lower, move.writer, [move.action.line])
    ensures FairAction(OwnerOf, move.writer, move.action)
  {
    hide KeepsPlain, OwnerOf, Builds;
    if move.action.Grow? {
      FeedsOwn(lower, move.writer, [move.action.line]);
      assert [move.action.line][0] == move.action.line;
    }
  }
}
