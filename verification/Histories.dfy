/** Brute-force sums over all change/no-change histories, for any change and growth factors and
    any table of likelihoods, and the recursion that computes them run length by run length. */
module Histories {
  import opened Sums

  /** A history says of each observation whether it ended a segment. */
  type History = seq<bool>

  /** `l(k, r)`: the likelihood of observation k when the current segment is the r before it. */
  type Table = (nat, nat) -> real

  function AllHistories(n: nat): (all: seq<History>)
    ensures forall i :: 0 <= i < |all| ==> |all[i]| == n
  {
    if n == 0 then [[]] else Extend(AllHistories(n - 1), true) + Extend(AllHistories(n - 1), false)
  }

  function Extend(hs: seq<History>, change: bool): (r: seq<History>)
    ensures |r| == |hs| && forall i :: 0 <= i < |hs| ==> r[i] == hs[i] + [change]
  {
    seq(|hs|, i requires 0 <= i < |hs| => hs[i] + [change])
  }

  function Pow2(n: nat): nat {
    if n == 0 then 1 else 2 * Pow2(n - 1)
  }

  ghost predicate Injective(hs: seq<History>) {
    forall i, j :: 0 <= i < j < |hs| ==> hs[i] != hs[j]
  }

  /** The list names every history of length n exactly once, so it has 2^n entries. */
  lemma AllHistoriesComplete(n: nat)
    ensures |AllHistories(n)| == Pow2(n)
    ensures forall hs: History :: hs in AllHistories(n) <==> |hs| == n
    ensures Injective(AllHistories(n))
  {
    AllHistoriesOnce(n);
    forall hs: History | |hs| == n
      ensures hs in AllHistories(n)
    {
      HistoryListed(hs);
    }
  }

  lemma {:induction false} AllHistoriesOnce(n: nat)
    ensures |AllHistories(n)| == Pow2(n) && Injective(AllHistories(n))
  {
    if n > 0 {
      AllHistoriesOnce(n - 1);
      ExtendInjective(AllHistories(n - 1));
    }
  }

  lemma {:induction false} HistoryListed(hs: History)
    ensures hs in AllHistories(|hs|)
  {
    if hs != [] {
      HistoryListed(hs[..|hs| - 1]);
      FindHistory(AllHistories(|hs| - 1), hs);
    }
  }

  lemma ExtendInjective(prev: seq<History>)
    requires Injective(prev)
    ensures Injective(Extend(prev, true) + Extend(prev, false))
  {
    var all := Extend(prev, true) + Extend(prev, false);
    forall i, j | 0 <= i < j < |all|
      ensures all[i] != all[j]
    {
      var pi, pj := if i < |prev| then i else i - |prev|, if j < |prev| then j else j - |prev|;
      assert all[i] == prev[pi] + [i < |prev|] && all[j] == prev[pj] + [j < |prev|];
      SnocDiffers(prev[pi], prev[pj], i < |prev|, j < |prev|);
    }
  }

  lemma SnocDiffers(a: History, b: History, x: bool, y: bool)
    requires a != b || x != y
    ensures a + [x] != b + [y]
  {
    var s, t := a + [x], b + [y];
    assert s[..|s| - 1] == a && t[..|t| - 1] == b;
    assert s[|s| - 1] == x && t[|t| - 1] == y;
  }

  lemma FindHistory(prev: seq<History>, hs: History)
    requires |hs| > 0 && hs[..|hs| - 1] in prev
    ensures hs in Extend(prev, true) + Extend(prev, false)
  {
    var last := hs[|hs| - 1];
    var i :| 0 <= i < |prev| && prev[i] == hs[..|hs| - 1];
    assert hs == prev[i] + [last];
    assert (Extend(prev, true) + Extend(prev, false))[if last then i else |prev| + i] == hs;
  }

  /** The current run length after a history: observations since the last change. */
  function Trailing(hs: History): (r: nat)
    ensures r <= |hs|
  {
    if hs == [] || hs[|hs| - 1] then 0 else Trailing(hs[..|hs| - 1]) + 1
  }

  /** The joint weight of a history and the data: at each observation its likelihood in the
      current segment, and `h` if it ended the segment or `g` if not. */
  ghost function HistoryWeight(h: real, g: real, l: Table, hs: History): real {
    if hs == [] then 1.0 else
      var n := |hs| - 1;
      Mul(if hs[n] then h else g, Mul(HistoryWeight(h, g, l, hs[..n]), l(n, Trailing(hs[..n]))))
  }

  /** Total weight, by run length, of a list of histories of length n. */
  ghost function Masses(h: real, g: real, l: Table, n: nat, hss: seq<History>): (m: seq<real>)
    requires forall i :: 0 <= i < |hss| ==> |hss[i]| == n
    ensures |m| == n + 1
  {
    if hss == [] then Zeros(n + 1) else
      Raise(Masses(h, g, l, n, hss[..|hss| - 1]), Trailing(hss[|hss| - 1]), HistoryWeight(h, g, l, hss[|hss| - 1]))
  }

  function Zeros(n: nat): (z: seq<real>)
    ensures |z| == n && forall i :: 0 <= i < n ==> z[i] == 0.0
  {
    seq(n, _ => 0.0)
  }

  /** Adds w to entry r. */
  function Raise(m: seq<real>, r: nat, w: real): seq<real>
    requires r < |m|
  {
    m[r := m[r] + w]
  }

  /** Total weight by run length over all 2^n histories. */
  ghost function AllMasses(h: real, g: real, l: Table, n: nat): (m: seq<real>)
    ensures |m| == n + 1
  {
    Masses(h, g, l, n, AllHistories(n))
  }

  /** The likelihoods of observation n under each run length. */
  function Row(l: Table, n: nat): (r: seq<real>)
    ensures |r| == n + 1 && forall i :: 0 <= i <= n ==> r[i] == l(n, i)
  {
    seq(n + 1, i requires 0 <= i < n + 1 => l(n, i))
  }

  /** Change (all run lengths collapse to 0) followed by growth (each run length steps up). */
  function Unnormalised(h: real, g: real, joint: seq<real>): seq<real> {
    [Mul(h, Sum(joint))] + Scale(g, joint)
  }

  lemma RaiseTimes(m: seq<real>, l: seq<real>, r: nat, w: real)
    requires |m| == |l| && r < |m|
    ensures Times(Raise(m, r, w), l) == Raise(Times(m, l), r, Mul(w, l[r]))
    ensures Sum(Times(Raise(m, r, w), l)) == Sum(Times(m, l)) + Mul(w, l[r])
  {
    var t := Times(m, l);
    assert Mul(m[r] + w, l[r]) == t[r] + Mul(w, l[r]);
    assert Times(Raise(m, r, w), l) == t[r := t[r] + Mul(w, l[r])];
    SumUpdate(t, r, t[r] + Mul(w, l[r]));
  }

  lemma MulAdds(a: real, b: real, c: real)
    ensures Mul(a, b + c) == Mul(a, b) + Mul(a, c)
  {}

  lemma RaiseScale(c: real, m: seq<real>, r: nat, w: real)
    requires r < |m|
    ensures Scale(c, Raise(m, r, w)) == Raise(Scale(c, m), r, Mul(c, w))
  {
    MulAdds(c, m[r], w);
  }

  /** What the last history of a list adds once it is extended. */
  lemma MassesExtend(h: real, g: real, l: Table, n: nat, hss: seq<History>, change: bool)
    requires hss != [] && forall i :: 0 <= i < |hss| ==> |hss[i]| == n
    ensures var hs := hss[|hss| - 1];
            Masses(h, g, l, n + 1, Extend(hss, change)) ==
            Raise(Masses(h, g, l, n + 1, Extend(hss[..|hss| - 1], change)), if change then 0 else Trailing(hs) + 1,
                  Mul(if change then h else g, Mul(HistoryWeight(h, g, l, hs), Row(l, n)[Trailing(hs)])))
  {
    var init, hs := hss[..|hss| - 1], hss[|hss| - 1];
    assert Extend(hss, change)[..|init|] == Extend(init, change);
    assert (hs + [change])[..n] == hs;
  }

  /** Ending the segment moves every history's weight to run length 0. */
  lemma {:induction false} MassesOfChange(h: real, g: real, l: Table, n: nat, hss: seq<History>)
    requires forall i :: 0 <= i < |hss| ==> |hss[i]| == n
    ensures Masses(h, g, l, n + 1, Extend(hss, true)) ==
            [Mul(h, Sum(Times(Masses(h, g, l, n, hss), Row(l, n))))] + Zeros(n + 1)
  {
    var row := Row(l, n);
    if hss == [] {
      NothingCollapses(h, row);
    } else {
      var init, hs := hss[..|hss| - 1], hss[|hss| - 1];
      MassesOfChange(h, g, l, n, init);
      MassesExtend(h, g, l, n, hss, true);
      CollapseStep(h, Masses(h, g, l, n, init), row, Trailing(hs), HistoryWeight(h, g, l, hs), Zeros(n + 1));
    }
  }

  lemma NothingCollapses(h: real, row: seq<real>)
    ensures [Mul(h, Sum(Times(Zeros(|row|), row)))] + Zeros(|row|) == Zeros(|row| + 1)
  {
    SumZero(Times(Zeros(|row|), row));
    assert Mul(h, 0.0) == 0.0;
  }

  lemma CollapseStep(h: real, m: seq<real>, row: seq<real>, r: nat, w: real, tail: seq<real>)
    requires |m| == |row| && r < |m|
    ensures Raise([Mul(h, Sum(Times(m, row)))] + tail, 0, Mul(h, Mul(w, row[r]))) ==
            [Mul(h, Sum(Times(Raise(m, r, w), row)))] + tail
  {
    RaiseTimes(m, row, r, w);
    MulAdds(h, Sum(Times(m, row)), Mul(w, row[r]));
  }

  /** Continuing the segment moves every history's weight one run length up. */
  lemma {:induction false} MassesOfGrowth(h: real, g: real, l: Table, n: nat, hss: seq<History>)
    requires forall i :: 0 <= i < |hss| ==> |hss[i]| == n
    ensures Masses(h, g, l, n + 1, Extend(hss, false)) == Shifted(g, Masses(h, g, l, n, hss), Row(l, n))
    decreases |hss|
  {
    if hss == [] {
      NothingShifts(g, Row(l, n));
    } else {
      var init, hs := hss[..|hss| - 1], hss[|hss| - 1];
      MassesOfGrowth(h, g, l, n, init);
      MassesExtend(h, g, l, n, hss, false);
      ShiftStep(g, Masses(h, g, l, n, init), Row(l, n), Trailing(hs), HistoryWeight(h, g, l, hs));
    }
  }

  ghost function Shifted(g: real, m: seq<real>, row: seq<real>): seq<real>
    requires |m| == |row|
  {
    [0.0] + Scale(g, Times(m, row))
  }

  lemma ShiftStep(c: real, m: seq<real>, row: seq<real>, r: nat, w: real)
    requires |m| == |row| && r < |m|
    ensures Raise(Shifted(c, m, row), r + 1, Mul(c, Mul(w, row[r]))) == Shifted(c, Raise(m, r, w), row)
  {
    RaiseTimes(m, row, r, w);
    RaiseScale(c, Times(m, row), r, Mul(w, row[r]));
    RaiseShift(Scale(c, Times(m, row)), r, Mul(c, Mul(w, row[r])));
  }

  lemma NothingShifts(c: real, row: seq<real>)
    ensures Shifted(c, Zeros(|row|), row) == Zeros(|row| + 1)
  {}

  lemma RaiseShift(m: seq<real>, r: nat, w: real)
    requires r < |m|
    ensures [0.0] + Raise(m, r, w) == Raise([0.0] + m, r + 1, w)
  {}

  lemma {:induction false} MassesConcat(h: real, g: real, l: Table, n: nat, a: seq<History>, b: seq<History>)
    requires forall i :: 0 <= i < |a| ==> |a[i]| == n
    requires forall i :: 0 <= i < |b| ==> |b[i]| == n
    ensures forall r :: 0 <= r <= n ==>
              Masses(h, g, l, n, a + b)[r] == Masses(h, g, l, n, a)[r] + Masses(h, g, l, n, b)[r]
  {
    if b == [] {
      assert a + b == a;
    } else {
      MassesConcat(h, g, l, n, a, b[..|b| - 1]);
      assert (a + b)[..|a + b| - 1] == a + b[..|b| - 1];
    }
  }

  /** The brute-force masses satisfy the online recursion, without any normalisation. */
  lemma MassRecursion(h: real, g: real, l: Table, n: nat)
    ensures AllMasses(h, g, l, n + 1) == Unnormalised(h, g, Times(AllMasses(h, g, l, n), Row(l, n)))
  {
    var hss := AllHistories(n);
    var joint := Times(AllMasses(h, g, l, n), Row(l, n));
    MassesOfChange(h, g, l, n, hss);
    MassesOfGrowth(h, g, l, n, hss);
    MassesConcat(h, g, l, n + 1, Extend(hss, true), Extend(hss, false));
    HeadPlusTail(Mul(h, Sum(joint)), Scale(g, joint), AllMasses(h, g, l, n + 1));
  }

  lemma HeadPlusTail(head: real, tail: seq<real>, m: seq<real>)
    requires |m| == |tail| + 1
    requires forall r :: 0 <= r <= |tail| ==> m[r] == ([head] + Zeros(|tail|))[r] + ([0.0] + tail)[r]
    ensures m == [head] + tail
  {}
}
