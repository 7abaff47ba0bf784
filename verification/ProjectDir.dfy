/** Decoding a project directory name, in which '/' was written as '-', by probing the filesystem. */
module ProjectDir {

  /** The filesystem, as far as decoding asks about it. */
  type Filesystem = string -> bool

  /** The first separator at or after an index. */
  function NextSeparator(s: string, from: nat, separators: set<char>): (n: nat)
    requires from <= |s|
    ensures from <= n <= |s| && (n < |s| ==> s[n] in separators)
    ensures forall i :: from <= i < n ==> s[i] !in separators
    decreases |s| - from
  {
    if from == |s| || s[from] in separators then from else NextSeparator(s, from + 1, separators)
  }

  /** The parts that follow the separator at `at`. */
  function PartsFrom(s: string, at: nat, separators: set<char>): (parts: seq<string>)
    requires at <= |s|
    ensures at < |s| ==> parts != []
    decreases |s| - at
  {
    if at == |s| then [] else
      var next := NextSeparator(s, at + 1, separators);
      [s[at + 1..next]] + PartsFrom(s, next, separators)
  }

  const DASH: set<char> := {'-'}

  function Join(parts: seq<string>): string
    requires |parts| >= 1
  {
    if |parts| == 1 then parts[0] else Join(parts[..|parts| - 1]) + "/" + parts[|parts| - 1]
  }

  function Encoded(c: char): char {
    if c == '/' then '-' else c
  }

  /** Every slash replaced by a dash. */
  function Encode(s: string): (r: string)
    ensures |r| == |s|
  {
    seq(|s|, i requires 0 <= i < |s| => Encoded(s[i]))
  }

  /** Does the next part continue the last component rather than start a new one? */
  predicate Continues(fs: Filesystem, path: string, part: string) {
    fs(path + "-" + part) && !fs(path + "/" + part)
  }

  function Extended(fs: Filesystem, path: string, part: string): string {
    if Continues(fs, path, part) then path + "-" + part else path + "/" + part
  }

  function DecodeFrom(fs: Filesystem, path: string, parts: seq<string>): string
    decreases |parts|
  {
    if parts == [] then path else DecodeFrom(fs, Extended(fs, path, parts[0]), parts[1..])
  }

  function Decoded(fs: Filesystem, name: string): string {
    if name == "" || name[0] != '-' then name
    else
      var parts := PartsFrom(name, 0, DASH);
      DecodeFrom(fs, "/" + parts[0], parts[1..])
  }

  lemma {:induction false} DecodeSnoc(fs: Filesystem, path: string, parts: seq<string>, part: string)
    ensures DecodeFrom(fs, path, parts + [part]) == Extended(fs, DecodeFrom(fs, path, parts), part)
    decreases |parts|
  {
    if parts == [] {
      assert [part][1..] == [];
    } else {
      assert (parts + [part])[1..] == parts[1..] + [part];
      DecodeSnoc(fs, Extended(fs, path, parts[0]), parts[1..], part);
    }
  }

  /** The two candidates of one step, as the component list gives them. */
  lemma Candidates(result: seq<string>, part: string)
    requires |result| >= 1
    ensures "/" + Join(result + [part]) == "/" + Join(result) + "/" + part
    ensures "/" + Join(result[|result| - 1 := result[|result| - 1] + "-" + part]) == "/" + Join(result) + "-" + part
  {}

  lemma DecodeStart(fs: Filesystem, part: string)
    ensures "/" + Join([part]) == DecodeFrom(fs, "/" + part, [])
  {}

  /** Builds the list of components, either adding one or lengthening the last. */
  method DecodeProjectDir(fs: Filesystem, name: string) returns (path: string)
    ensures path == Decoded(fs, name)
  {
    hide DecodeFrom, Join, PartsFrom;
    if name == "" || name[0] != '-' {
      return name;
    }
    var parts := PartsFrom(name, 0, DASH);
    var result := [parts[0]];
    DecodeStart(fs, parts[0]);
    assert parts[1..1] == [];
    for k := 1 to |parts|
      invariant |result| >= 1
      invariant "/" + Join(result) == DecodeFrom(fs, "/" + parts[0], parts[1..k])
    {
      var part, joined := parts[k], result[|result| - 1 := result[|result| - 1] + "-" + parts[k]];
      Candidates(result, part);
      assert parts[1..k + 1] == parts[1..k] + [part];
      DecodeSnoc(fs, "/" + parts[0], parts[1..k], part);
      if fs("/" + Join(joined)) && !fs("/" + Join(result) + "/" + part) {
        result := joined;
      } else {
        result := result + [part];
      }
    }
    assert parts[1..|parts|] == parts[1..];
    path := "/" + Join(result);
  }

  lemma DecodeNext(fs: Filesystem, path: string, s: string, at: nat, separators: set<char>)
    requires at < |s|
    ensures var next := NextSeparator(s, at + 1, separators);
            DecodeFrom(fs, path, PartsFrom(s, at, separators)) ==
            DecodeFrom(fs, Extended(fs, path, s[at + 1..next]), PartsFrom(s, next, separators))
  {}

  lemma DecodedFirst(fs: Filesystem, name: string)
    requires name != "" && name[0] == '-'
    ensures var next := NextSeparator(name, 1, DASH);
            Decoded(fs, name) == DecodeFrom(fs, "/" + name[1..next], PartsFrom(name, next, DASH))
  {}

  lemma DecodedOther(fs: Filesystem, name: string)
    requires name == "" || name[0] != '-'
    ensures Decoded(fs, name) == name
  {}

  // ---------- encoding what was decoded ----------

  /** Decoding and encoding the rest of a name that continues a decoded path. */
  lemma {:induction false} EncodeDecodeFrom(fs: Filesystem, path: string, name: string, at: nat)
    requires at <= |name| && (at < |name| ==> name[at] == '-')
    ensures Encode(DecodeFrom(fs, path, PartsFrom(name, at, DASH))) == Encode(path) + Encode(name[at..])
    decreases |name| - at
  {
    if at < |name| {
      var next := NextSeparator(name, at + 1, DASH);
      var part := name[at + 1..next];
      hide Encode, PartsFrom, NextSeparator, DecodeFrom;
      DecodeNext(fs, path, name, at, DASH);
      EncodeDecodeFrom(fs, Extended(fs, path, part), name, next);
      EncodeExtended(fs, path, part);
      EncodeSuffix(name, at, next);
      var a, b, c := Encode(path), Encode("-" + part), Encode(name[next..]);
      assert (a + b) + c == a + (b + c);
    }
  }

  lemma EncodeSuffix(name: string, at: nat, next: nat)
    requires at < next <= |name| && name[at] == '-'
    ensures Encode(name[at..]) == Encode("-" + name[at + 1..next]) + Encode(name[next..])
  {}

  lemma EncodeExtended(fs: Filesystem, path: string, part: string)
    ensures Encode(Extended(fs, path, part)) == Encode(path) + Encode("-" + part)
  {}

  lemma EncodeFirst(part: string)
    ensures Encode("/" + part) == Encode("-" + part)
  {}

  lemma EncodeDecoded(fs: Filesystem, name: string)
    ensures Encode(Decoded(fs, name)) == Encode(name)
  {
    hide Encode, PartsFrom, NextSeparator, DecodeFrom, Decoded;
    if name == "" || name[0] != '-' {
      DecodedOther(fs, name);
    } else {
      var next := NextSeparator(name, 1, DASH);
      DecodedFirst(fs, name);
      EncodeDecodeFrom(fs, "/" + name[1..next], name, next);
      EncodeSuffix(name, 0, next);
      assert name[0..] == name;
      EncodeFirst(name[1..next]);
    }
  }

  /** Whatever the filesystem answers, encoding the decoded path is encoding the name; so it gives
      the name back exactly when the name has no slash. */
  lemma NameRecovered(fs: Filesystem, name: string)
    ensures Encode(Decoded(fs, name)) == Encode(name)
    ensures Encode(Decoded(fs, name)) == name <==> '/' !in name
  {
    EncodeDecoded(fs, name);
    hide Decoded;
    assert forall i :: 0 <= i < |name| ==> name[i] in name;
    assert forall i :: 0 <= i < |name| ==> Encode(name)[i] == Encoded(name[i]);
  }

  // ---------- decoding what was encoded ----------

  const SEPARATORS: set<char> := {'/', '-'}

  /** The probe at this separator answers as the path has it: a '-' continues a component, a '/' does
      not. */
  predicate ProbedRight(fs: Filesystem, path: string, i: nat)
    requires i < |path|
  {
    var part := path[i + 1..NextSeparator(path, i + 1, SEPARATORS)];
    fs(path[..i] + "-" + part) && !fs(path[..i] + "/" + part) <==> path[i] == '-'
  }

  ghost predicate AllProbedRight(fs: Filesystem, path: string, from: nat) {
    forall i: nat :: from <= i < |path| && path[i] in SEPARATORS ==> ProbedRight(fs, path, i)
  }

  lemma {:induction false} SameSeparators(path: string, from: nat)
    requires from <= |path|
    ensures NextSeparator(Encode(path), from, DASH) == NextSeparator(path, from, SEPARATORS)
    decreases |path| - from
  {
    if from < |path| {
      SameSeparators(path, from + 1);
    }
  }

  /** The encoded name has the same parts as the path. */
  lemma {:induction false} SameParts(path: string, at: nat)
    requires at <= |path|
    ensures PartsFrom(Encode(path), at, DASH) == PartsFrom(path, at, SEPARATORS)
    decreases |path| - at
  {
    hide NextSeparator;
    if at < |path| {
      SameSeparators(path, at + 1);
      var next := NextSeparator(path, at + 1, SEPARATORS);
      SameParts(path, next);
      assert Encode(path)[at + 1..next] == path[at + 1..next];
    }
  }

  lemma {:induction false} DecodeExtends(fs: Filesystem, path: string, parts: seq<string>)
    ensures path <= DecodeFrom(fs, path, parts)
    decreases |parts|
  {
    if parts != [] {
      DecodeExtends(fs, Extended(fs, path, parts[0]), parts[1..]);
    }
  }

  lemma NotRepaired(fs: Filesystem, extended: string, rest: seq<string>, path: string, at: nat)
    requires at < |extended| && at < |path| && extended[at] != path[at]
    ensures DecodeFrom(fs, extended, rest) != path
  {
    DecodeExtends(fs, extended, rest);
  }

  /** One wrong answer is never repaired: the decoded path differs at that separator for good. */
  lemma {:induction false} DecodeFromRebuilds(fs: Filesystem, path: string, at: nat)
    requires at <= |path| && (at < |path| ==> path[at] in SEPARATORS)
    ensures DecodeFrom(fs, path[..at], PartsFrom(path, at, SEPARATORS)) == path <==> AllProbedRight(fs, path, at)
    decreases |path| - at
  {
    if at == |path| {
      assert path == path[..at];
    } else {
      hide PartsFrom, NextSeparator, Extended, Continues, DecodeFrom, AllProbedRight, ProbedRight;
      var next := NextSeparator(path, at + 1, SEPARATORS);
      DecodeNext(fs, path[..at], path, at, SEPARATORS);
      SplitProbes(fs, path, at, next);
      OneStep(fs, path, at, next);
      if ProbedRight(fs, path, at) {
        DecodeFromRebuilds(fs, path, next);
      } else {
        NotRepaired(fs, Extended(fs, path[..at], path[at + 1..next]), PartsFrom(path, next, SEPARATORS), path, at);
      }
    }
  }

  lemma SplitProbes(fs: Filesystem, path: string, at: nat, next: nat)
    requires at < |path| && path[at] in SEPARATORS && next == NextSeparator(path, at + 1, SEPARATORS)
    ensures AllProbedRight(fs, path, at) <==> ProbedRight(fs, path, at) && AllProbedRight(fs, path, next)
  {}

  lemma OneStep(fs: Filesystem, path: string, at: nat, next: nat)
    requires at < |path| && path[at] in SEPARATORS && next == NextSeparator(path, at + 1, SEPARATORS)
    ensures var extended := Extended(fs, path[..at], path[at + 1..next]);
            && |extended| == next
            && (ProbedRight(fs, path, at) ==> extended == path[..next])
            && (!ProbedRight(fs, path, at) ==> extended[at] != path[at])
  {}

  /** Encoding a path and decoding the name finds the path again exactly when, at every separator
      after the first, the probe answers as the path has it. */
  lemma PathRecovered(fs: Filesystem, path: string)
    requires path != "" && path[0] == '/'
    ensures Decoded(fs, Encode(path)) == path <==> AllProbedRight(fs, path, 1)
  {
    var next := NextSeparator(path, 1, SEPARATORS);
    SameParts(path, 0);
    assert PartsFrom(path, 0, SEPARATORS)[1..] == PartsFrom(path, next, SEPARATORS);
    assert path[..next] == "/" + path[1..next];
    DecodeFromRebuilds(fs, path, next);
    assert AllProbedRight(fs, path, next) ==> AllProbedRight(fs, path, 1);
  }

  /** A path whose ancestors all exist and whose components have no dash is always recovered. */
  lemma PlainPathRecovered(fs: Filesystem, path: string)
    requires path != "" && path[0] == '/' && '-' !in path
    requires forall i :: 1 <= i <= |path| && (i == |path| || path[i] == '/') ==> fs(path[..i])
    ensures Decoded(fs, Encode(path)) == path
  {
    forall i: nat | 1 <= i < |path| && path[i] in SEPARATORS ensures ProbedRight(fs, path, i) {
      var next := NextSeparator(path, i + 1, SEPARATORS);
      assert path[i] in path && (next < |path| ==> path[next] in path);
      assert path[..next] == path[..i] + "/" + path[i + 1..next];
    }
    PathRecovered(fs, path);
  }

  /** A component with two dashes is lost when only the whole of it exists, not its first half. */
  lemma TwoDashesLost()
    ensures var fs := (p: string) => p == "/a-b-c";
            Decoded(fs, Encode("/a-b-c")) != "/a-b-c"
  {
    var fs: Filesystem := (p: string) => p == "/a-b-c";
    var path := "/a-b-c";
    assert NextSeparator(path, 3, SEPARATORS) == 4;
    assert path[..2] == "/a" && path[3..4] == "b";
    assert !ProbedRight(fs, path, 2);
    PathRecovered(fs, path);
  }
}
