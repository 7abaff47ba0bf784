/** Arithmetic on reals and on sequences of reals. */
module Sums {

  function Sum(s: seq<real>): real {
    if s == [] then 0.0 else Sum(s[..|s| - 1]) + s[|s| - 1]
  }

  function Max(a: real, b: real): real {
    if a >= b then a else b
  }

  function Min(a: real, b: real): real {
    if a <= b then a else b
  }

  function Mul(a: real, b: real): real {
    a * b
  }

  function Scale(c: real, s: seq<real>): (r: seq<real>)
    ensures |r| == |s| && forall i :: 0 <= i < |s| ==> r[i] == Mul(c, s[i])
  {
    seq(|s|, i requires 0 <= i < |s| => Mul(c, s[i]))
  }

  /** The elementwise product. */
  function Times(a: seq<real>, b: seq<real>): (r: seq<real>)
    requires |a| == |b|
    ensures |r| == |a| && forall i :: 0 <= i < |a| ==> r[i] == Mul(a[i], b[i])
  {
    seq(|a|, i requires 0 <= i < |a| => Mul(a[i], b[i]))
  }

  lemma {:induction false} SumScale(c: real, s: seq<real>)
    ensures Sum(Scale(c, s)) == Mul(c, Sum(s))
  {
    if s != [] {
      SumScale(c, s[..|s| - 1]);
      assert Scale(c, s)[..|s| - 1] == Scale(c, s[..|s| - 1]);
    }
  }

  lemma {:induction false} SumConcat(a: seq<real>, b: seq<real>)
    ensures Sum(a + b) == Sum(a) + Sum(b)
  {
    if b == [] {
      assert a + b == a;
    } else {
      SumConcat(a, b[..|b| - 1]);
      assert (a + b)[..|a + b| - 1] == a + b[..|b| - 1];
    }
  }

  lemma {:induction false} SumPositive(s: seq<real>)
    requires forall i :: 0 <= i < |s| ==> s[i] > 0.0
    ensures Sum(s) >= 0.0 && (s != [] ==> Sum(s) > 0.0)
  {
    if s != [] {
      SumPositive(s[..|s| - 1]);
    }
  }

  /** Raising one entry raises the sum by as much. */
  lemma {:induction false} SumUpdate(s: seq<real>, i: nat, v: real)
    requires i < |s|
    ensures Sum(s[i := v]) == Sum(s) + (v - s[i])
  {
    var n := |s| - 1;
    if i < n {
      SumUpdate(s[..n], i, v);
      assert s[i := v][..n] == s[..n][i := v];
    } else {
      assert s[i := v][..n] == s[..n];
    }
  }

  lemma {:induction false} SumZero(s: seq<real>)
    requires forall i :: 0 <= i < |s| ==> s[i] == 0.0
    ensures Sum(s) == 0.0
  {
    if s != [] {
      SumZero(s[..|s| - 1]);
    }
  }

  lemma SumSingle(v: real)
    ensures Sum([v]) == v
  {
    assert [v][..0] == [];
  }

  // ---------- signs of products and quotients ----------

  lemma ProductPositive(a: real, b: real)
    requires a > 0.0 && b > 0.0
    ensures a * b > 0.0
  {}

  lemma ProductSigns(q: real, b: real)
    requires b > 0.0
    ensures q <= 0.0 ==> q * b <= 0.0
    ensures q < 0.0 ==> q * b < 0.0
    ensures q >= 1.0 ==> q * b >= b
  {}

  lemma QuotientPositive(a: real, b: real)
    requires b > 0.0
    ensures a > 0.0 ==> a / b > 0.0
    ensures a >= 0.0 ==> a / b >= 0.0
  {
    assert (a / b) * b == a;
    ProductSigns(a / b, b);
  }
}
