/** What an event id says: sanitising only folds case and punctuation of a record's fields, so ids are
    equal exactly when the folded fields are, and no record that differs is lost. */
module EventText {
  import opened EventIds
  import opened Options
  import opened PublicEvents
  import opened Sequences

  predicate Ascii(s: string) {
    forall i :: 0 <= i < |s| ==> s[i] < 128 as char
  }

  function LowerChar(c: char): char {
    if 'A' <= c <= 'Z' then c - 'A' + 'a' else c
  }

  function LowerAscii(s: string): (r: string)
    ensures |r| == |s|
  {
    seq(|s|, i requires 0 <= i < |s| => LowerChar(s[i]))
  }

  /** Lower-casing does to ASCII text what it is meant to. */
  ghost predicate LowersAscii(lower: Lowering) {
    forall s: string :: Ascii(s) ==> lower(s) == LowerAscii(s)
  }

  /** Letters in lower case, digits and colons as they are, an underscore for anything else. */
  function FoldChar(c: char): char {
    if 'A' <= c <= 'Z' then c - 'A' + 'a'
    else if 'a' <= c <= 'z' || '0' <= c <= '9' || c == ':' then c
    else '_'
  }

  function Fold(s: string): (r: string)
    ensures |r| == |s|
  {
    seq(|s|, i requires 0 <= i < |s| => FoldChar(s[i]))
  }

  predicate Special(c: char) {
    FoldChar(c) == '_'
  }

  /** ASCII text without plus signs or adjacent special characters, with a letter or digit at both ends. */
  ghost predicate Clean(s: string) {
    && s != "" && Ascii(s) && '+' !in s
    && !Special(s[0]) && s[0] != ':' && !Special(s[|s| - 1]) && s[|s| - 1] != ':'
    && forall i :: 0 < i < |s| ==> !(Special(s[i - 1]) && Special(s[i]))
  }

  // ---------- sanitising clean text ----------

  lemma {:induction false} NoZulu(s: string)
    requires '+' !in s
    ensures Zulu(s) == s
  {
    if s != "" {
      NoZulu(s[1..]);
      assert s == [s[0]] + s[1..] && s[0] in s;
    }
  }

  ghost predicate Spread(s: string) {
    forall i :: 0 < i < |s| ==> !(Special(s[i - 1]) && Special(s[i]))
  }

  lemma SpreadRest(s: string)
    requires Spread(s) && s != ""
    ensures Spread(s[1..]) && (|s| > 1 && Special(s[0]) ==> !Special(s[1]))
  {
    assert forall i :: 0 < i < |s[1..]| ==> s[1..][i - 1] == s[i] && s[1..][i] == s[i + 1];
  }

  /** Lower-case text without adjacent special characters has each of them replaced by an underscore. */
  lemma {:induction false} ReplacedIsFold(s: string)
    requires Spread(s) && forall i :: 0 <= i < |s| ==> !('A' <= s[i] <= 'Z')
    ensures Replaced(s) == Fold(s)
  {
    if s != "" {
      SpreadRest(s);
      ReplacedIsFold(s[1..]);
      assert Fold(s) == [FoldChar(s[0])] + Fold(s[1..]);
      if !Allowed(s[0]) {
        assert |s| > 1 ==> Allowed(s[1]);
      }
    }
  }

  lemma {:induction false} CollapsedSame(t: string)
    requires forall i :: 0 < i < |t| ==> !(t[i - 1] == '_' && t[i] == '_')
    ensures Collapsed(t) == t
  {
    if t != "" {
      assert forall i :: 0 < i < |t[1..]| ==> t[1..][i - 1] == t[i] && t[1..][i] == t[i + 1];
      CollapsedSame(t[1..]);
      assert t == [t[0]] + t[1..];
      assert |t| > 1 && t[0] == '_' ==> t[1..][0] != '_';
    }
  }

  lemma StripSame(t: string)
    requires t != "" && !Strippable(t[0]) && !Strippable(t[|t| - 1])
    ensures StripRight(StripLeft(t)) == t
  {}

  lemma LowerKeepsClean(s: string)
    requires Clean(s)
    ensures Clean(LowerAscii(s)) && Fold(LowerAscii(s)) == Fold(s)
    ensures forall i :: 0 <= i < |s| ==> !('A' <= LowerAscii(s)[i] <= 'Z')
  {
    hide FoldChar, LowerChar;
    var t := LowerAscii(s);
    forall i | 0 <= i < |s|
      ensures FoldChar(t[i]) == FoldChar(s[i]) && (t[i] == ':' <==> s[i] == ':')
      ensures t[i] != '+' && t[i] < 128 as char && !('A' <= t[i] <= 'Z')
    {
      LowerCharFolds(s[i]);
      assert s[i] in s;
    }
  }

  lemma LowerCharFolds(c: char)
    requires c < 128 as char
    ensures FoldChar(LowerChar(c)) == FoldChar(c) && (LowerChar(c) == ':' <==> c == ':')
    ensures (LowerChar(c) == '+' <==> c == '+') && LowerChar(c) < 128 as char && !('A' <= LowerChar(c) <= 'Z')
  {}

  /** Clean text that starts with a letter is only folded. */
  lemma SanitizedIsFold(lower: Lowering, s: string)
    requires LowersAscii(lower) && Clean(s) && 'a' <= FoldChar(s[0]) <= 'z'
    ensures Sanitized(lower, s) == Fold(s)
  {
    hide Zulu, Replaced, Collapsed, StripLeft, StripRight, LowerAscii, Fold;
    var t, f := LowerAscii(s), Fold(s);
    assert lower(s) == t;
    LowerKeepsClean(s);
    NoZulu(t);
    ReplacedIsFold(t);
    FoldedEnds(s);
    CollapsedSame(f);
    StripSame(f);
  }

  lemma FoldedEnds(s: string)
    requires Clean(s)
    ensures var f := Fold(s);
            && f != "" && f[0] == FoldChar(s[0]) && !Strippable(f[0]) && !Strippable(f[|f| - 1])
            && forall i :: 0 < i < |f| ==> !(f[i - 1] == '_' && f[i] == '_')
  {
    var f := Fold(s);
    assert forall i :: 0 <= i < |s| ==> (f[i] == '_' <==> Special(s[i]));
  }

  // ---------- joining fields ----------

  lemma JoinClean(a: string, b: string)
    requires Clean(a) && Clean(b)
    ensures Clean(a + ":" + b) && Fold(a + ":" + b) == Fold(a) + ":" + Fold(b)
  {
    var s := a + ":" + b;
    assert s[|a|] == ':' && forall i :: |a| < i < |s| ==> s[i] == b[i - |a| - 1];
    assert forall i :: 0 <= i < |a| ==> s[i] == a[i];
    hide FoldChar;
    forall i | 0 < i < |s| ensures !(Special(s[i - 1]) && Special(s[i])) {
      if i > |a| + 1 { assert s[i - 1] == b[i - |a| - 2] && s[i] == b[i - |a| - 1]; }
      ColonIsPlain();
    }
  }

  lemma ColonIsPlain()
    ensures FoldChar(':') == ':' && !Special(':')
  {}

  // ---------- the ids, spelled out ----------

  /** A boundary record's four fields; None when absent or blank. */
  datatype Boundary = Boundary(timestamp: Option<string>, incoming: Option<string>, outgoing: Option<string>,
                               digest: Option<string>)

  /** A chronicle record's fields, and the event type it is mapped to. */
  datatype Chronicle = Chronicle(mapped: string, ts: Option<string>, trace: Option<string>, span: Option<string>,
                                 source: Option<string>, kind: Option<string>)

  /** The fields as an id shows them, in order. */
  function BoundaryParts(b: Boundary): (parts: seq<string>)
    ensures |parts| == 4
  {
    [if b.timestamp.Some? then b.timestamp.value else "unknown_time",
     if b.incoming.Some? then b.incoming.value else "missing_incoming",
     if b.outgoing.Some? then b.outgoing.value else "missing_outgoing",
     if b.digest.Some? then b.digest.value else "missing_digest"]
  }

  function ChronicleParts(c: Chronicle): (parts: seq<string>)
    ensures |parts| == 6
  {
    [c.mapped,
     if c.ts.Some? then c.ts.value else "unknown_ts",
     if c.trace.Some? then c.trace.value else "missing_trace",
     if c.span.Some? then c.span.value else "missing_span",
     if c.source.Some? then c.source.value else "unknown_source",
     if c.kind.Some? then c.kind.value else "unknown_event"]
  }

  /** The prefix and the parts, each after a colon. */
  function Joined(prefix: string, parts: seq<string>): string {
    if parts == [] then prefix else Joined(prefix, parts[..|parts| - 1]) + ":" + parts[|parts| - 1]
  }

  function Folded(parts: seq<string>): (r: seq<string>)
    ensures |r| == |parts|
  {
    seq(|parts|, i requires 0 <= i < |parts| => Fold(parts[i]))
  }

  ghost predicate AllClean(parts: seq<string>) {
    forall i :: 0 <= i < |parts| ==> Clean(parts[i])
  }

  lemma {:induction false} JoinedClean(prefix: string, parts: seq<string>)
    requires Clean(prefix) && AllClean(parts)
    ensures Clean(Joined(prefix, parts)) && Joined(prefix, parts)[0] == prefix[0]
    ensures Fold(Joined(prefix, parts)) == Joined(Fold(prefix), Folded(parts))
  {
    hide Clean, Fold;
    if parts != [] {
      var init, last := parts[..|parts| - 1], parts[|parts| - 1];
      JoinedClean(prefix, init);
      JoinClean(Joined(prefix, init), last);
      assert Folded(parts)[..|parts| - 1] == Folded(init);
      CleanStarts(Joined(prefix, init));
    }
  }

  lemma CleanStarts(s: string)
    requires Clean(s)
    ensures s != ""
  {}

  lemma LastColon(a: string, b: string)
    requires ':' !in b
    ensures (a + ":" + b)[|a|] == ':' && (a + ":" + b)[..|a|] == a && (a + ":" + b)[|a| + 1..] == b
    ensures forall i :: |a| < i < |a + ":" + b| ==> (a + ":" + b)[i] != ':'
  {
    var s := a + ":" + b;
    forall i | |a| < i < |s| ensures s[i] != ':' {
      assert s[i] == b[i - |a| - 1] && b[i - |a| - 1] in b;
    }
  }

  lemma LastPartSame(a: string, b: string, x: string, y: string)
    requires ':' !in b && ':' !in y && a + ":" + b == x + ":" + y
    ensures a == x && b == y
  {
    LastColon(a, b);
    LastColon(x, y);
  }

  /** All parts but the first are free of colons. */
  ghost predicate ColonsFirst(parts: seq<string>) {
    forall i :: 0 < i < |parts| ==> ':' !in parts[i]
  }

  lemma {:induction false} JoinedSame(prefix: string, a: seq<string>, b: seq<string>)
    requires |a| == |b| && ColonsFirst(a) && ColonsFirst(b)
    requires Joined(prefix, a) == Joined(prefix, b)
    ensures a == b
  {
    if |a| == 1 {
      assert a[..0] == [] && b[..0] == [];
      assert (prefix + ":" + a[0])[|prefix| + 1..] == a[0] && (prefix + ":" + b[0])[|prefix| + 1..] == b[0];
    } else if |a| > 1 {
      var m, n := a[..|a| - 1], b[..|b| - 1];
      LastPartSame(Joined(prefix, m), a[|a| - 1], Joined(prefix, n), b[|b| - 1]);
      JoinedSame(prefix, m, n);
      assert a == m + [a[|a| - 1]] && b == n + [b[|b| - 1]];
    }
  }

  lemma NoColonFolded(parts: seq<string>)
    requires ColonsFirst(parts)
    ensures ColonsFirst(Folded(parts))
  {
    forall i | 0 < i < |parts| ensures ':' !in Folded(parts)[i] {
      assert forall k :: 0 <= k < |parts[i]| ==> parts[i][k] in parts[i];
    }
  }

  /** Joined ids differ unless all folded parts agree. */
  lemma FoldedSame(prefix: string, a: seq<string>, b: seq<string>)
    requires |a| == |b| && ColonsFirst(a) && ColonsFirst(b)
    ensures Joined(prefix, Folded(a)) == Joined(prefix, Folded(b)) <==> Folded(a) == Folded(b)
  {
    NoColonFolded(a);
    NoColonFolded(b);
    if Joined(prefix, Folded(a)) == Joined(prefix, Folded(b)) {
      JoinedSame(prefix, Folded(a), Folded(b));
    }
  }

  function IdOfBoundary(lower: Lowering, b: Boundary): string {
    BoundaryId(lower, b.timestamp, b.incoming, b.outgoing, b.digest)
  }

  function IdOfChronicle(lower: Lowering, c: Chronicle): string {
    ChronicleId(lower, c.mapped, c.ts, c.trace, c.span, c.source, c.kind)
  }

  /** A boundary id is the prefix, timestamp, incoming, outgoing and digest, folded. */
  lemma BoundarySpelled(lower: Lowering, b: Boundary)
    requires LowersAscii(lower) && AllClean(BoundaryParts(b))
    ensures var f := Folded(BoundaryParts(b));
            IdOfBoundary(lower, b) ==
            "rvpe:broadcast_boundary:" + f[0] + ":" + f[1] + ":" + f[2] + ":" + f[3]
  {
    hide Clean, Fold, Sanitized, Joined, LowersAscii, Folded, BoundaryParts, BoundaryFields;
    var prefix, parts := BOUNDARY_PREFIX, BoundaryParts(b);
    BoundaryRaw(b);
    BoundaryPrefixClean();
    JoinedClean(prefix, parts);
    RLetter();
    SanitizedIsFold(lower, Joined(prefix, parts));
    JoinedFour(prefix, Folded(parts));
    assert prefix + ":" == "rvpe:broadcast_boundary:";
  }

  lemma RLetter()
    ensures FoldChar('r') == 'r'
  {}

  lemma BoundaryRaw(b: Boundary)
    ensures "rvpe:broadcast_boundary:" + BoundaryFields(b.timestamp, b.incoming, b.outgoing, b.digest) ==
            Joined("rvpe:broadcast_boundary", BoundaryParts(b))
  {
    var p := BoundaryParts(b);
    JoinedFour("rvpe:broadcast_boundary", p);
    Regrouped("rvpe:broadcast_boundary:", p[0], p[1], p[2], p[3]);
    hide Joined;
    assert "rvpe:broadcast_boundary" + ":" == "rvpe:broadcast_boundary:";
  }

  lemma Regrouped(p: string, a: string, b: string, c: string, d: string)
    ensures p + (a + ":" + b + ":" + c + ":" + d) == p + a + ":" + b + ":" + c + ":" + d
  {
    assert p + (a + ":" + b + ":" + c + ":" + d) == p + (a + ":" + b + ":" + c + ":") + d;
    assert p + (a + ":" + b + ":" + c + ":") == p + (a + ":" + b + ":") + c + ":";
    assert p + (a + ":" + b + ":") == p + a + ":" + b + ":";
  }

  lemma JoinedSnoc(prefix: string, init: seq<string>, last: string)
    ensures Joined(prefix, init + [last]) == Joined(prefix, init) + ":" + last
  {
    assert (init + [last])[..|init|] == init;
  }

  lemma JoinedFour(prefix: string, p: seq<string>)
    requires |p| == 4
    ensures Joined(prefix, p) == prefix + ":" + p[0] + ":" + p[1] + ":" + p[2] + ":" + p[3]
  {
    assert p == p[..3] + [p[3]] && p[..3] == p[..2] + [p[2]] && p[..2] == p[..1] + [p[1]] && p[..1] == [] + [p[0]];
    JoinedSnoc(prefix, p[..3], p[3]);
    JoinedSnoc(prefix, p[..2], p[2]);
    JoinedSnoc(prefix, p[..1], p[1]);
    JoinedSnoc(prefix, [], p[0]);
  }

  predicate Word(s: string) {
    s != "" && forall i :: 0 <= i < |s| ==> 'a' <= s[i] <= 'z'
  }

  lemma WordClean(s: string)
    requires Word(s)
    ensures Clean(s) && Fold(s) == s
  {}

  lemma WordsClean(a: string, b: string)
    requires Word(a) && Word(b)
    ensures Clean(a + "_" + b) && Fold(a + "_" + b) == a + "_" + b
  {
    var s := a + "_" + b;
    assert s[|a|] == '_' && (forall i :: 0 <= i < |a| ==> s[i] == a[i]);
    assert forall i :: |a| < i < |s| ==> s[i] == b[i - |a| - 1];
  }

  lemma JoinFixed(a: string, b: string)
    requires Clean(a) && Clean(b) && Fold(a) == a && Fold(b) == b
    ensures Clean(a + ":" + b) && Fold(a + ":" + b) == a + ":" + b
  {
    JoinClean(a, b);
    hide Clean, Fold;
  }

  const BOUNDARY_PREFIX: string := "rvpe:broadcast_boundary"
  const CHRONICLE_PREFIX: string := "rvpe:chronicle"

  lemma BoundaryPrefixClean()
    ensures Clean(BOUNDARY_PREFIX) && Fold(BOUNDARY_PREFIX) == BOUNDARY_PREFIX
  {
    hide Clean, Fold;
    PrefixWords();
    hide Word;
    WordClean("rvpe");
    WordsClean("broadcast", "boundary");
    var rest := "broadcast" + "_" + "boundary";
    JoinFixed("rvpe", rest);
    assert "rvpe" + ":" + rest == BOUNDARY_PREFIX;
  }

  lemma PrefixWords()
    ensures Word("rvpe") && Word("broadcast") && Word("boundary") && Word("chronicle")
  {}

  lemma ChroniclePrefixClean()
    ensures Clean(CHRONICLE_PREFIX) && Fold(CHRONICLE_PREFIX) == CHRONICLE_PREFIX
  {
    hide Clean, Fold;
    PrefixWords();
    hide Word;
    WordClean("rvpe");
    WordClean("chronicle");
    JoinFixed("rvpe", "chronicle");
    assert "rvpe" + ":" + "chronicle" == CHRONICLE_PREFIX;
  }

  // ---------- chronicle ids ----------

  /** A chronicle id is the prefix, the mapped type and the record's five fields, folded. */
  lemma ChronicleSpelled(lower: Lowering, c: Chronicle)
    requires LowersAscii(lower) && AllClean(ChronicleParts(c))
    ensures var f := Folded(ChronicleParts(c));
            IdOfChronicle(lower, c) ==
            "rvpe:chronicle:" + f[0] + ":" + f[1] + ":" + f[2] + ":" + f[3] + ":" + f[4] + ":" + f[5]
  {
    hide Clean, Fold, Sanitized, Joined, LowersAscii, Folded, ChronicleParts, ChronicleFields;
    var prefix, parts := CHRONICLE_PREFIX, ChronicleParts(c);
    ChronicleRaw(c);
    ChroniclePrefixClean();
    JoinedClean(prefix, parts);
    RLetter();
    SanitizedIsFold(lower, Joined(prefix, parts));
    JoinedSix(prefix, Folded(parts));
    assert prefix + ":" == "rvpe:chronicle:";
  }

  lemma JoinedSix(prefix: string, p: seq<string>)
    requires |p| == 6
    ensures Joined(prefix, p) == prefix + ":" + p[0] + ":" + p[1] + ":" + p[2] + ":" + p[3] + ":" + p[4] + ":" + p[5]
  {
    assert p == p[..5] + [p[5]] && p[..5] == p[..4] + [p[4]];
    JoinedSnoc(prefix, p[..5], p[5]);
    JoinedSnoc(prefix, p[..4], p[4]);
    JoinedFour(prefix, p[..4]);
    hide Joined;
  }

  lemma ChronicleRaw(c: Chronicle)
    ensures "rvpe:chronicle:" + ChronicleFields(c.mapped, c.ts, c.trace, c.span, c.source, c.kind) ==
            Joined(CHRONICLE_PREFIX, ChronicleParts(c))
  {
    var p := ChronicleParts(c);
    hide Joined, ChronicleParts;
    JoinedSix(CHRONICLE_PREFIX, p);
    Regrouped("rvpe:chronicle:", p[0], p[1], p[2], p[3]);
    AddTwo("rvpe:chronicle:", p[0] + ":" + p[1] + ":" + p[2] + ":" + p[3], p[4], p[5]);
    assert CHRONICLE_PREFIX + ":" == "rvpe:chronicle:";
    FieldsOf(c);
  }

  lemma AddTwo(p: string, a: string, b: string, c: string)
    ensures p + (a + ":" + b + ":" + c) == p + a + ":" + b + ":" + c
  {
    assert p + (a + ":" + b + ":" + c) == p + (a + ":" + b + ":") + c;
    assert p + (a + ":" + b + ":") == p + a + ":" + b + ":";
  }

  lemma FieldsOf(c: Chronicle)
    ensures var p := ChronicleParts(c);
            ChronicleFields(c.mapped, c.ts, c.trace, c.span, c.source, c.kind) ==
            p[0] + ":" + p[1] + ":" + p[2] + ":" + p[3] + ":" + p[4] + ":" + p[5]
  {}

  // ---------- who shares an id ----------

  /** Two boundary records have one id exactly when all four fields agree up to case and punctuation. */
  lemma BoundaryIdsAgree(lower: Lowering, a: Boundary, b: Boundary)
    requires LowersAscii(lower) && AllClean(BoundaryParts(a)) && AllClean(BoundaryParts(b))
    requires ColonsFirst(BoundaryParts(a)) && ColonsFirst(BoundaryParts(b))
    ensures IdOfBoundary(lower, a) == IdOfBoundary(lower, b) <==>
            Folded(BoundaryParts(a)) == Folded(BoundaryParts(b))
  {
    hide Clean, Fold, Sanitized, Joined, LowersAscii, Folded, BoundaryParts, IdOfBoundary;
    BoundarySpelled(lower, a);
    BoundarySpelled(lower, b);
    JoinedFour(BOUNDARY_PREFIX, Folded(BoundaryParts(a)));
    JoinedFour(BOUNDARY_PREFIX, Folded(BoundaryParts(b)));
    assert BOUNDARY_PREFIX + ":" == "rvpe:broadcast_boundary:";
    FoldedSame(BOUNDARY_PREFIX, BoundaryParts(a), BoundaryParts(b));
  }

  lemma ChronicleIdsAgree(lower: Lowering, a: Chronicle, b: Chronicle)
    requires LowersAscii(lower) && AllClean(ChronicleParts(a)) && AllClean(ChronicleParts(b))
    requires ColonsFirst(ChronicleParts(a)) && ColonsFirst(ChronicleParts(b))
    ensures IdOfChronicle(lower, a) == IdOfChronicle(lower, b) <==>
            Folded(ChronicleParts(a)) == Folded(ChronicleParts(b))
  {
    hide Clean, Fold, Sanitized, Joined, LowersAscii, Folded, ChronicleParts, IdOfChronicle;
    ChronicleSpelled(lower, a);
    ChronicleSpelled(lower, b);
    JoinedSix(CHRONICLE_PREFIX, Folded(ChronicleParts(a)));
    JoinedSix(CHRONICLE_PREFIX, Folded(ChronicleParts(b)));
    assert CHRONICLE_PREFIX + ":" == "rvpe:chronicle:";
    FoldedSame(CHRONICLE_PREFIX, ChronicleParts(a), ChronicleParts(b));
  }

  /** A field of lower-case letters, digits and inner colons. */
  ghost predicate PlainField(s: string) {
    && s != "" && s[0] != ':' && s[|s| - 1] != ':'
    && forall k :: 0 <= k < |s| ==> 'a' <= s[k] <= 'z' || '0' <= s[k] <= '9' || s[k] == ':'
  }

  lemma PlainFieldKept(s: string)
    requires PlainField(s)
    ensures Clean(s) && Fold(s) == s
  {}

  /** Records whose fields are all there and plain have one id exactly if they are the same. */
  lemma PlainIdsAgree(lower: Lowering, a: Boundary, b: Boundary)
    requires LowersAscii(lower) && ColonsFirst(BoundaryParts(a)) && ColonsFirst(BoundaryParts(b))
    requires a.timestamp.Some? && a.incoming.Some? && a.outgoing.Some? && a.digest.Some?
    requires b.timestamp.Some? && b.incoming.Some? && b.outgoing.Some? && b.digest.Some?
    requires forall i :: 0 <= i < 4 ==> PlainField(BoundaryParts(a)[i]) && PlainField(BoundaryParts(b)[i])
    ensures IdOfBoundary(lower, a) == IdOfBoundary(lower, b) <==> a == b
  {
    var p, q := BoundaryParts(a), BoundaryParts(b);
    hide Clean, Fold, PlainField, LowersAscii, IdOfBoundary, ColonsFirst;
    forall i | 0 <= i < 4 ensures Clean(p[i]) && Fold(p[i]) == p[i] && Clean(q[i]) && Fold(q[i]) == q[i] {
      PlainFieldKept(p[i]);
      PlainFieldKept(q[i]);
    }
    BoundaryIdsAgree(lower, a, b);
    assert Folded(p) == p && Folded(q) == q;
    assert p == q <==> p[0] == q[0] && p[1] == q[1] && p[2] == q[2] && p[3] == q[3];
  }

  // ---------- every different record is published ----------

  function BoundaryIds(lower: Lowering, records: seq<Boundary>): (ids: seq<string>)
    ensures |ids| == |records|
  {
    seq(|records|, k requires 0 <= k < |records| => IdOfBoundary(lower, records[k]))
  }

  /** Records with clean fields, any two of which differ in some field by more than case and punctuation. */
  ghost predicate AllDiffer(records: seq<Boundary>) {
    && (forall k :: 0 <= k < |records| ==>
          AllClean(BoundaryParts(records[k])) && ColonsFirst(BoundaryParts(records[k])))
    && (forall j, k :: 0 <= j < k < |records| ==>
          Folded(BoundaryParts(records[j])) != Folded(BoundaryParts(records[k])))
  }

  lemma {:induction false} DedupNothing(ids: seq<string>)
    requires NoRepeats(ids)
    ensures Dedup(ids) == ids
  {
    if ids != [] {
      DedupNothing(ids[..|ids| - 1]);
      assert ids == ids[..|ids| - 1] + [ids[|ids| - 1]];
    }
  }

  /** A producer that has caught up with a log of different records has published every one of them, once,
      in order. */
  lemma AllPublished(lower: Lowering, records: seq<Boundary>, out: seq<string>, w: Writer)
    requires LowersAscii(lower) && AllDiffer(records) && Ids(w.log) == BoundaryIds(lower, records)
    requires WriterInv(OwnerOf, 0, out, w) && w.cursor == Size(w.log)
    ensures Mine(OwnerOf, 0, out) == BoundaryIds(lower, records)
  {
    hide AllClean, ColonsFirst, BoundaryParts, Folded, IdOfBoundary, LowersAscii, WriterInv;
    forall j, k | 0 <= j < k < |records|
      ensures BoundaryIds(lower, records)[j] != BoundaryIds(lower, records)[k]
    {
      BoundaryIdsAgree(lower, records[j], records[k]);
    }
    DedupNothing(BoundaryIds(lower, records));
    CaughtUp(OwnerOf, 0, out, w);
  }

  // ---------- the zulu suffix ----------

  predicate AtOffset(s: string) {
    |s| >= 6 && s[..6] == "+00:00"
  }

  lemma ZuluIs(s: string)
    ensures Zulu("") == ""
    ensures AtOffset(s) ==> |s| >= 6 && Zulu(s) == "z" + Zulu(s[6..])
    ensures s != "" && !AtOffset(s) ==> Zulu(s) == [s[0]] + Zulu(s[1..])
  {}

  /** No offset straddles the start of another or of a "z". */
  lemma OffsetApart(a: string, x: string)
    requires a != "" && x != "" && (x[0] == '+' || x[0] == 'z')
    ensures AtOffset(a + x) <==> AtOffset(a)
  {
    if |a| >= 6 {
      assert (a + x)[..6] == a[..6];
    } else if |a + x| >= 6 {
      assert (a + x)[..6][|a|] == x[0];
    }
  }

  lemma {:induction false} ZuluApart(a: string, x: string)
    requires x != "" && (x[0] == '+' || x[0] == 'z')
    ensures Zulu(a + x) == Zulu(a) + Zulu(x)
  {
    hide Zulu, AtOffset;
    ZuluIs(a);
    if a == "" {
      assert a + x == x;
    } else {
      OffsetApart(a, x);
      ZuluIs(a + x);
      var k := if AtOffset(a) then 6 else 1;
      assert (a + x)[k..] == a[k..] + x;
      ZuluApart(a[k..], x);
      Regroup(if AtOffset(a) then "z" else [a[0]], Zulu(a[k..]), Zulu(x));
    }
  }

  lemma Regroup(a: string, b: string, c: string)
    ensures a + (b + c) == a + b + c
  {}

  /** An offset of zero and a "z" are one and the same to an id. */
  lemma OffsetIsZulu(a: string, b: string)
    ensures Zulu(a + ("+00:00" + b)) == Zulu(a + ("z" + b))
  {
    hide Zulu;
    var x, y := "+00:00" + b, "z" + b;
    ZuluApart(a, x);
    ZuluApart(a, y);
    assert AtOffset(x) && !AtOffset(y) && x[6..] == b && y[1..] == b;
    ZuluIs(x);
    ZuluIs(y);
  }

  // ---------- what any id looks like ----------

  ghost predicate AllAllowed(s: string) {
    forall i :: 0 <= i < |s| ==> Allowed(s[i])
  }

  ghost predicate NoDouble(s: string) {
    forall i :: 0 < i < |s| ==> !(s[i - 1] == '_' && s[i] == '_')
  }

  lemma {:induction false} ReplacedAllowed(s: string)
    ensures AllAllowed(Replaced(s))
    decreases |s|
  {
    if s != "" {
      if Allowed(s[0]) { ReplacedAllowed(s[1..]); } else { ReplacedAllowed(SkipDisallowed(s[1..])); }
    }
  }

  lemma {:induction false} SkippedAllowed(s: string)
    ensures SkipUnderscores(s) != "" ==> SkipUnderscores(s)[0] != '_'
    ensures AllAllowed(s) ==> AllAllowed(SkipUnderscores(s))
  {
    if s != "" && s[0] == '_' {
      SkippedAllowed(s[1..]);
    }
  }

  lemma {:induction false} CollapsedShape(s: string)
    requires AllAllowed(s)
    ensures AllAllowed(Collapsed(s)) && NoDouble(Collapsed(s))
    ensures s != "" ==> Collapsed(s) != "" && Collapsed(s)[0] == s[0]
    decreases |s|
  {
    if s != "" {
      var rest := if s[0] == '_' then SkipUnderscores(s[1..]) else s[1..];
      SkippedAllowed(s[1..]);
      CollapsedShape(rest);
    }
  }

  lemma {:induction false} StripLeftShape(s: string)
    requires AllAllowed(s) && NoDouble(s)
    ensures AllAllowed(StripLeft(s)) && NoDouble(StripLeft(s))
    ensures StripLeft(s) != "" ==> !Strippable(StripLeft(s)[0])
  {
    if s != "" && Strippable(s[0]) {
      assert forall i :: 0 < i < |s[1..]| ==> s[1..][i - 1] == s[i] && s[1..][i] == s[i + 1];
      StripLeftShape(s[1..]);
    }
  }

  lemma {:induction false} StripRightShape(s: string)
    requires AllAllowed(s) && NoDouble(s)
    ensures AllAllowed(StripRight(s)) && NoDouble(StripRight(s)) && StripRight(s) <= s
    ensures StripRight(s) != "" ==> !Strippable(StripRight(s)[|StripRight(s)| - 1])
  {
    if s != "" && Strippable(s[|s| - 1]) {
      StripRightShape(s[..|s| - 1]);
    }
  }

  /** Whatever it is made from, an id starts with a letter, holds lower-case letters, digits, colons and
      single underscores only, and ends in a letter or digit unless nothing was left of its text. */
  lemma SanitizedShape(lower: Lowering, raw: string)
    ensures var id := Sanitized(lower, raw);
            && id != "" && 'a' <= id[0] <= 'z' && AllAllowed(id) && NoDouble(id)
            && (id == "rvpe:" || (id[|id| - 1] != '_' && id[|id| - 1] != ':'))
  {
    var a := Replaced(Zulu(lower(raw)));
    ReplacedAllowed(Zulu(lower(raw)));
    CollapsedShape(a);
    StripLeftShape(Collapsed(a));
    var b := StripLeft(Collapsed(a));
    StripRightShape(b);
    hide Zulu, Replaced, Collapsed, StripLeft, StripRight;
    var cleaned := StripRight(b);
    if cleaned == "" || !('a' <= cleaned[0] <= 'z') {
      PrefixShape(cleaned);
    }
  }

  lemma PrefixShape(s: string)
    requires AllAllowed(s) && NoDouble(s)
    ensures AllAllowed("rvpe:" + s) && NoDouble("rvpe:" + s)
  {
    var t := "rvpe:" + s;
    assert t[4] == ':' && forall i :: 5 <= i < |t| ==> t[i] == s[i - 5];
    forall i | 0 < i < |t| ensures !(t[i - 1] == '_' && t[i] == '_') {
      if i >= 6 { assert t[i - 1] == s[i - 6] && t[i] == s[i - 5]; }
    }
  }
}
