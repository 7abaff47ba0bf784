/** Grouping a list by a string key: sorted distinct keys, buckets, and sums that survive grouping. */
module Grouping {
  import opened Options
  import opened Sequences

  // ---------- the order of strings ----------

  predicate Less(a: string, b: string) {
    if b == "" then false
    else if a == "" then true
    else if a[0] != b[0] then a[0] < b[0]
    else Less(a[1..], b[1..])
  }

  lemma {:induction false} LessTotal(a: string, b: string)
    ensures a != b <==> Less(a, b) || Less(b, a)
  {
    if a != "" && b != "" && a[0] == b[0] {
      LessTotal(a[1..], b[1..]);
      assert a == [a[0]] + a[1..] && b == [b[0]] + b[1..];
    }
  }

  lemma {:induction false} LessTransitive(a: string, b: string, c: string)
    requires Less(a, b) && Less(b, c)
    ensures Less(a, c)
  {
    if a != "" && a[0] == b[0] && b[0] == c[0] {
      LessTransitive(a[1..], b[1..], c[1..]);
    }
  }

  /** The characters before k agree, and there the first ends, or has the smaller one. */
  predicate SmallerAt(a: string, b: string, k: nat) {
    k <= |a| && k < |b| && a[..k] == b[..k] && (k == |a| || a[k] < b[k])
  }

  /** One string is less than another exactly when it is a proper prefix or has the smaller character where
      they first differ. */
  lemma {:induction false} LessMeans(a: string, b: string)
    ensures Less(a, b) <==> exists k: nat :: SmallerAt(a, b, k)
  {
    if a == "" || b == "" {
      if b != "" { assert SmallerAt(a, b, 0); }
    } else if a[0] != b[0] {
      if a[0] < b[0] { assert SmallerAt(a, b, 0); }
      forall k: nat | k > 0 ensures !SmallerAt(a, b, k) {
        if k <= |a| && k < |b| { assert a[..k][0] != b[..k][0]; }
      }
    } else {
      LessMeans(a[1..], b[1..]);
      if k: nat :| SmallerAt(a[1..], b[1..], k) {
        assert a[..k + 1] == [a[0]] + a[1..][..k] && b[..k + 1] == [b[0]] + b[1..][..k];
        assert SmallerAt(a, b, k + 1);
      }
      if k: nat :| SmallerAt(a, b, k) {
        assert k > 0 && a[1..][..k - 1] == a[..k][1..] && b[1..][..k - 1] == b[..k][1..];
        assert SmallerAt(a[1..], b[1..], k - 1);
      }
    }
  }

  predicate Ascending(s: seq<string>) {
    forall i, j :: 0 <= i < j < |s| ==> Less(s[i], s[j])
  }

  lemma AscendingNoRepeats(s: seq<string>)
    requires Ascending(s)
    ensures NoRepeats(s)
  {
    forall i, j | 0 <= i < j < |s| ensures s[i] != s[j] {
      LessTotal(s[i], s[j]);
    }
  }

  function Insert(x: string, s: seq<string>): seq<string> {
    if s == [] || Less(x, s[0]) then [x] + s else [s[0]] + Insert(x, s[1..])
  }

  /** The sorted list of some strings. */
  function Sort(s: seq<string>): seq<string> {
    if s == [] then [] else Insert(s[|s| - 1], Sort(s[..|s| - 1]))
  }

  lemma {:induction false} InsertMembers(x: string, s: seq<string>, y: string)
    ensures y in Insert(x, s) <==> y == x || y in s
  {
    if s != [] && !Less(x, s[0]) {
      InsertMembers(x, s[1..], y);
    }
  }

  lemma {:induction false} InsertAscending(x: string, s: seq<string>)
    requires Ascending(s) && x !in s
    ensures Ascending(Insert(x, s))
  {
    if s == [] {
    } else if Less(x, s[0]) {
      forall j | 0 < j < |s| ensures Less(x, s[j]) {
        LessTransitive(x, s[0], s[j]);
      }
    } else {
      InsertAscending(x, s[1..]);
      var t := Insert(x, s[1..]);
      forall j | 0 <= j < |t| ensures Less(s[0], t[j]) {
        InsertMembers(x, s[1..], t[j]);
        LessTotal(x, s[0]);
      }
    }
  }

  lemma {:induction false} SortMembers(s: seq<string>, y: string)
    ensures y in Sort(s) <==> y in s
  {
    if s != [] {
      InsertMembers(s[|s| - 1], Sort(s[..|s| - 1]), y);
      SortMembers(s[..|s| - 1], y);
    }
  }

  lemma {:induction false} SortAscending(s: seq<string>)
    requires NoRepeats(s)
    ensures Ascending(Sort(s))
  {
    if s != [] {
      SortAscending(s[..|s| - 1]);
      SortMembers(s[..|s| - 1], s[|s| - 1]);
      InsertAscending(s[|s| - 1], Sort(s[..|s| - 1]));
    }
  }

  // ---------- weighing ----------

  function Weigh<E>(s: seq<E>, w: E -> int): int {
    if s == [] then 0 else Weigh(s[..|s| - 1], w) + w(s[|s| - 1])
  }

  /** Splitting a list by a condition splits its weight. */
  lemma {:induction false} WeighSplit<E>(s: seq<E>, p: E -> bool, q: E -> bool, w: E -> int)
    requires forall e :: e in s ==> p(e) == !q(e)
    ensures Weigh(s, w) == Weigh(Select(s, p), w) + Weigh(Select(s, q), w)
  {
    if s != [] {
      var init, last := s[..|s| - 1], s[|s| - 1];
      WeighSplit(init, p, q, w);
      assert last in s;
      WeighOne(Select(init, p), last, w);
      WeighOne(Select(init, q), last, w);
    }
  }

  lemma WeighOne<E>(s: seq<E>, e: E, w: E -> int)
    ensures Weigh(s + [e], w) == Weigh(s, w) + w(e)
  {}

  lemma {:induction false} WeighConcat<E>(s: seq<E>, t: seq<E>, w: E -> int)
    ensures Weigh(s + t, w) == Weigh(s, w) + Weigh(t, w)
  {
    if t == [] {
      assert s + t == s;
    } else {
      var init, last := t[..|t| - 1], t[|t| - 1];
      WeighConcat(s, init, w);
      WeighOne(s + init, last, w);
      assert s + t == s + init + [last];
    }
  }

  lemma {:induction false} WeighNotNegative<E>(s: seq<E>, w: E -> int)
    requires forall e :: e in s ==> w(e) >= 0
    ensures Weigh(s, w) >= 0
  {
    if s != [] {
      WeighNotNegative(s[..|s| - 1], w);
      assert s[|s| - 1] in s;
    }
  }

  lemma {:induction false} WeighOnes<E>(s: seq<E>, w: E -> int)
    requires forall e :: e in s ==> w(e) == 1
    ensures Weigh(s, w) == |s|
  {
    if s != [] {
      WeighOnes(s[..|s| - 1], w);
      assert s[|s| - 1] in s;
    }
  }

  // ---------- grouping ----------

  /** The keys that occur, in order of first occurrence. */
  function Keys<E>(s: seq<E>, key: E -> Option<string>): (ks: seq<string>)
    ensures NoRepeats(ks)
    ensures forall k :: k in ks <==> exists e :: e in s && key(e) == Some(k)
  {
    if s == [] then [] else
      var init, last := s[..|s| - 1], s[|s| - 1];
      assert s == init + [last];
      var ks := Keys(init, key);
      if key(last).None? || key(last).value in ks then ks else ks + [key(last).value]
  }

  function InBucket<E>(key: E -> Option<string>, k: string): E -> bool {
    (e: E) => key(e) == Some(k)
  }

  function Bucket<E>(s: seq<E>, key: E -> Option<string>, k: string): seq<E> {
    Select(s, InBucket(key, k))
  }

  /** The weight of the buckets of some keys together. */
  function WeighBuckets<E>(ks: seq<string>, s: seq<E>, key: E -> Option<string>, w: E -> int): int {
    if ks == [] then 0
    else WeighBuckets(ks[..|ks| - 1], s, key, w) + Weigh(Bucket(s, key, ks[|ks| - 1]), w)
  }

  function KeyIn<E>(key: E -> Option<string>, ks: seq<string>): E -> bool {
    (e: E) => key(e).Some? && key(e).value in ks
  }

  lemma {:induction false} NoBuckets<E>(ks: seq<string>, key: E -> Option<string>, w: E -> int)
    ensures WeighBuckets(ks, [], key, w) == 0
  {
    if ks != [] {
      NoBuckets(ks[..|ks| - 1], key, w);
    }
  }

  /** One more entry adds its weight to one bucket, if any. */
  lemma {:induction false} BucketsStep<E>(ks: seq<string>, s: seq<E>, e: E, key: E -> Option<string>, w: E -> int)
    requires NoRepeats(ks)
    ensures WeighBuckets(ks, s + [e], key, w) == WeighBuckets(ks, s, key, w) + if KeyIn(key, ks)(e) then w(e) else 0
  {
    if ks != [] {
      var init, k := ks[..|ks| - 1], ks[|ks| - 1];
      BucketsStep(init, s, e, key, w);
      assert (s + [e])[..|s|] == s;
      WeighOne(Bucket(s, key, k), e, w);
      assert ks == init + [k] && k !in init;
    }
  }

  /** Grouping loses nothing: the buckets of some keys weigh as much as the entries with those keys. */
  lemma {:induction false} BucketsWeighAll<E>(ks: seq<string>, s: seq<E>, key: E -> Option<string>, w: E -> int)
    requires NoRepeats(ks)
    ensures WeighBuckets(ks, s, key, w) == Weigh(Select(s, KeyIn(key, ks)), w)
  {
    if s == [] {
      NoBuckets(ks, key, w);
    } else {
      var init, e := s[..|s| - 1], s[|s| - 1];
      BucketsWeighAll(ks, init, key, w);
      BucketsStep(ks, init, e, key, w);
      WeighOne(Select(init, KeyIn(key, ks)), e, w);
      assert s == init + [e];
    }
  }

  function KeyWith<E>(key: E -> Option<string>, p: string -> bool): E -> bool {
    (e: E) => key(e).Some? && p(key(e).value)
  }

  /** The sorted keys that meet a condition. */
  function SortedKeys<E>(s: seq<E>, key: E -> Option<string>, p: string -> bool): seq<string> {
    Select(Sort(Keys(s, key)), p)
  }

  /** The buckets of all keys that meet a condition weigh as much as the entries that meet it. */
  lemma GroupedWeight<E>(s: seq<E>, key: E -> Option<string>, p: string -> bool, w: E -> int)
    ensures WeighBuckets(SortedKeys(s, key, p), s, key, w) == Weigh(Select(s, KeyWith(key, p)), w)
  {
    var all, ks := Keys(s, key), SortedKeys(s, key, p);
    SortAscending(all);
    AscendingNoRepeats(Sort(all));
    SelectNoRepeats(Sort(all), p);
    BucketsWeighAll(ks, s, key, w);
    forall e | e in s ensures KeyIn(key, ks)(e) == KeyWith(key, p)(e) {
      if key(e).Some? {
        SelectMembers(Sort(all), p, key(e).value);
        SortMembers(all, key(e).value);
      }
    }
    SelectSame(s, KeyIn(key, ks), KeyWith(key, p));
  }

  lemma NothingYet<E>(key: E -> Option<string>)
    ensures Keys([], key) == []
  {}

  lemma NoBucket<E>(s: seq<E>, key: E -> Option<string>, k: string)
    requires k !in Keys(s, key)
    ensures Bucket(s, key, k) == []
  {
    SelectNone(s, InBucket(key, k));
  }

  lemma OneMoreEntry<E>(s: seq<E>, i: nat, key: E -> Option<string>)
    requires i < |s|
    ensures Keys(s[..i + 1], key) ==
            Keys(s[..i], key)
            + if key(s[i]).None? || key(s[i]).value in Keys(s[..i], key) then [] else [key(s[i]).value]
    ensures forall k :: Bucket(s[..i + 1], key, k) ==
                        Bucket(s[..i], key, k) + if key(s[i]) == Some(k) then [s[i]] else []
  {
    assert s[..i + 1] == s[..i] + [s[i]] && s[..i + 1][..i] == s[..i];
  }

  /** Fills a dictionary of lists in one pass; `order` lists its keys. */
  method FillBuckets<E>(s: seq<E>, key: E -> Option<string>) returns (order: seq<string>, buckets: map<string, seq<E>>)
    ensures order == Keys(s, key)
    ensures forall k :: k in order <==> k in buckets
    ensures forall k :: k in buckets ==> buckets[k] == Bucket(s, key, k)
  {
    hide Bucket, Keys;
    order, buckets := [], map[];
    NothingYet(key);
    for i := 0 to |s|
      invariant order == Keys(s[..i], key)
      invariant forall k :: k in order <==> k in buckets
      invariant forall k :: k in buckets ==> buckets[k] == Bucket(s[..i], key, k)
    {
      OneMoreEntry(s, i, key);
      match key(s[i]) {
        case None =>
        case Some(k) =>
          if k !in buckets {
            NoBucket(s[..i], key, k);
            order := order + [k];
            buckets := buckets[k := []];
          }
          buckets := buckets[k := buckets[k] + [s[i]]];
      }
    }
    assert s[..|s|] == s;
  }
}
