/** Lists without repeats, and filtering. */
module Sequences {

  ghost predicate NoRepeats<T>(s: seq<T>) {
    forall i, j :: 0 <= i < j < |s| ==> s[i] != s[j]
  }

  lemma SnocNoRepeats<T>(s: seq<T>, x: T)
    requires NoRepeats(s) && x !in s
    ensures NoRepeats(s + [x])
  {}

  /** A list without repeats holds each of its entries once. */
  lemma {:induction false} NoRepeatsCounts<T>(s: seq<T>, x: T)
    requires NoRepeats(s)
    ensures multiset(s)[x] <= 1
  {
    if s != [] {
      var init, last := s[..|s| - 1], s[|s| - 1];
      NoRepeatsCounts(init, x);
      assert s == init + [last] && last !in init;
    }
  }

  /** A list without repeats is no longer than a set that holds its entries. */
  lemma {:induction false} NoRepeatsSize<T>(s: seq<T>, all: set<T>)
    requires NoRepeats(s) && forall x :: x in s ==> x in all
    ensures |s| <= |all|
    decreases |s|
  {
    if s != [] {
      var init, last := s[..|s| - 1], s[|s| - 1];
      forall x | x in init ensures x in all - {last} {
        var k :| 0 <= k < |s| - 1 && s[k] == x;
      }
      NoRepeatsSize(init, all - {last});
      assert last in all;
    }
  }

  lemma {:induction false} NoRepeatsSet<T>(s: seq<T>)
    requires NoRepeats(s)
    ensures |set x | x in s| == |s|
  {
    if s != [] {
      var init, last := s[..|s| - 1], s[|s| - 1];
      NoRepeatsSet(init);
      assert s == init + [last] && last !in init;
      assert (set x | x in s) == (set x | x in init) + {last};
    } else {
      assert (set x | x in s) == {};
    }
  }

  /** The entries that meet a condition, in order. */
  function Select<E>(s: seq<E>, p: E -> bool): (r: seq<E>)
    ensures |r| <= |s|
  {
    if s == [] then []
    else if p(s[|s| - 1]) then Select(s[..|s| - 1], p) + [s[|s| - 1]]
    else Select(s[..|s| - 1], p)
  }

  lemma SelectOne<E>(s: seq<E>, p: E -> bool, e: E)
    ensures Select([], p) == []
    ensures Select(s + [e], p) == Select(s, p) + if p(e) then [e] else []
  {
    assert (s + [e])[..|s|] == s;
  }

  lemma {:induction false} SelectMembers<E>(s: seq<E>, p: E -> bool, e: E)
    ensures e in Select(s, p) <==> e in s && p(e)
  {
    if s != [] {
      SelectMembers(s[..|s| - 1], p, e);
      assert s == s[..|s| - 1] + [s[|s| - 1]];
    }
  }

  /** Each entry is selected as often as it occurs. */
  lemma {:induction false} SelectCounts<E>(s: seq<E>, p: E -> bool, e: E)
    ensures multiset(Select(s, p))[e] == if p(e) then multiset(s)[e] else 0
  {
    if s != [] {
      SelectCounts(s[..|s| - 1], p, e);
      assert s == s[..|s| - 1] + [s[|s| - 1]];
    }
  }

  lemma {:induction false} SelectNoRepeats<E>(s: seq<E>, p: E -> bool)
    requires NoRepeats(s)
    ensures NoRepeats(Select(s, p))
  {
    if s != [] {
      SelectNoRepeats(s[..|s| - 1], p);
      SelectMembers(s[..|s| - 1], p, s[|s| - 1]);
    }
  }

  lemma {:induction false} SelectSame<E>(s: seq<E>, p: E -> bool, q: E -> bool)
    requires forall e :: e in s ==> p(e) == q(e)
    ensures Select(s, p) == Select(s, q)
  {
    if s != [] {
      SelectSame(s[..|s| - 1], p, q);
      assert s[|s| - 1] in s;
    }
  }

  lemma {:induction false} SelectJoin<E>(a: seq<E>, b: seq<E>, p: E -> bool)
    ensures Select(a + b, p) == Select(a, p) + Select(b, p)
  {
    if b == [] {
      assert a + b == a;
    } else {
      var init, last := b[..|b| - 1], b[|b| - 1];
      SelectJoin(a, init, p);
      assert a + b == (a + init) + [last];
      SelectOne(a + init, p, last);
      SelectOne(init, p, last);
      assert init + [last] == b;
    }
  }

  lemma {:induction false} SelectBoth<E>(s: seq<E>, p: E -> bool, q: E -> bool, r: E -> bool)
    requires forall e :: e in s ==> r(e) == (p(e) && q(e))
    ensures Select(Select(s, p), q) == Select(s, r)
  {
    if s != [] {
      var init, last := s[..|s| - 1], s[|s| - 1];
      SelectBoth(init, p, q, r);
      assert last in s;
      SelectOne(Select(init, p), q, last);
    }
  }

  lemma {:induction false} SelectAll<E>(s: seq<E>, p: E -> bool)
    requires forall e :: e in s ==> p(e)
    ensures Select(s, p) == s
  {
    if s != [] {
      SelectAll(s[..|s| - 1], p);
      assert s == s[..|s| - 1] + [s[|s| - 1]];
    }
  }

  lemma {:induction false} SelectNone<E>(s: seq<E>, p: E -> bool)
    requires forall e :: e in s ==> !p(e)
    ensures Select(s, p) == []
  {
    if s != [] {
      SelectNone(s[..|s| - 1], p);
    }
  }

  /** The last n entries. */
  function Latest<E>(s: seq<E>, n: nat): seq<E> {
    if |s| <= n then s else s[|s| - n..]
  }
}
