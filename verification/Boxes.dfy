/** Axis-aligned boxes and their overlap, as `_iou_batch` scores them. */
module Boxes {
  import opened Assignment
  import opened Sums

  datatype Box = Box(x1: real, y1: real, x2: real, y2: real)

  function Area(b: Box): real {
    (b.x2 - b.x1) * (b.y2 - b.y1)
  }

  function Overlap(a: Box, b: Box): real {
    Max(0.0, Min(a.x2, b.x2) - Max(a.x1, b.x1)) * Max(0.0, Min(a.y2, b.y2) - Max(a.y1, b.y1))
  }

  /** Intersection over union; 0.0 when the union is not positive. */
  function Iou(a: Box, b: Box): real {
    var inter := Overlap(a, b);
    var union := Area(a) + Area(b) - inter;
    if union > 0.0 then inter / union else 0.0
  }

  /** The full score matrix of two box lists. */
  function IouBatch(a: seq<Box>, b: seq<Box>): (m: Scores)
    ensures m.rows == |a| && m.cols == |b|
    ensures forall r, c :: 0 <= r < |a| && 0 <= c < |b| ==> m.At((r, c)) == Iou(a[r], b[c])
  {
    Matrix(|a|, |b|,
           seq(|a|, r requires 0 <= r < |a| => seq(|b|, c requires 0 <= c < |b| => Iou(a[r], b[c]))))
  }

  lemma ProductMono(a: real, b: real, c: real, d: real)
    requires 0.0 <= a <= c && 0.0 <= b <= d
    ensures 0.0 <= a * b <= c * d
    ensures a * b == c * d && a * b > 0.0 ==> a == c && b == d
  {
    assert c * d - a * b == (c - a) * d + a * (d - b);
    assert (c - a) * d >= 0.0 && a * (d - b) >= 0.0;
    if a * b == c * d && a * b > 0.0 {
      assert a > 0.0 && d > 0.0;
      assert (c - a) * d == 0.0 && a * (d - b) == 0.0;
    }
  }

  /** A box that overlaps anything is proper, and the overlap fits inside it. */
  lemma OverlapFits(a: Box, b: Box)
    ensures Overlap(a, b) >= 0.0
    ensures Overlap(a, b) > 0.0 ==> a.x1 < a.x2 && a.y1 < a.y2 && Overlap(a, b) <= Area(a)
    ensures Overlap(a, b) > 0.0 && Overlap(a, b) == Area(a) ==>
              b.x1 <= a.x1 && b.y1 <= a.y1 && a.x2 <= b.x2 && a.y2 <= b.y2
  {
    var w := Max(0.0, Min(a.x2, b.x2) - Max(a.x1, b.x1));
    var h := Max(0.0, Min(a.y2, b.y2) - Max(a.y1, b.y1));
    assert w * h >= 0.0;
    if w * h > 0.0 {
      assert w > 0.0 && h > 0.0;
      ProductMono(w, h, a.x2 - a.x1, a.y2 - a.y1);
    }
  }

  lemma OverlapSymmetric(a: Box, b: Box)
    ensures Overlap(a, b) == Overlap(b, a)
  {}

  lemma Ratio(p: real, q: real)
    requires 0.0 <= p <= q && 0.0 < q
    ensures 0.0 <= p / q <= 1.0
    ensures p / q == 1.0 <==> p == q
    ensures p / q == 0.0 <==> p == 0.0
  {
    assert (p / q) * q == p;
  }

  /** For every two boxes, proper or not, the score lies in [0, 1]; it is 1 exactly for one and
      the same box of positive area, 0 exactly when they do not overlap. */
  lemma IouRange(a: Box, b: Box)
    ensures 0.0 <= Iou(a, b) <= 1.0
    ensures Iou(a, b) == 1.0 <==> a == b && a.x1 < a.x2 && a.y1 < a.y2
    ensures Iou(a, b) == 0.0 <==> Overlap(a, b) == 0.0
    ensures Iou(a, b) == Iou(b, a)
  {
    OverlapFits(a, b);
    OverlapFits(b, a);
    OverlapSymmetric(a, b);
    var inter := Overlap(a, b);
    var union := Area(a) + Area(b) - inter;
    if inter > 0.0 {
      Ratio(inter, union);
      if inter == union {
        assert inter == Area(a) == Area(b);
      }
      if a == b {
        assert inter == Area(a);
      }
    } else if a == b && a.x1 < a.x2 && a.y1 < a.y2 {
      SelfOverlap(a);
      assert false;
    } else if union > 0.0 {
      Ratio(inter, union);
    }
  }

  lemma SelfOverlap(a: Box)
    requires a.x1 < a.x2 && a.y1 < a.y2
    ensures Overlap(a, a) > 0.0
  {
    ProductMono(0.0, 0.0, a.x2 - a.x1, a.y2 - a.y1);
    assert a.x2 - a.x1 > 0.0 && a.y2 - a.y1 > 0.0;
    assert (a.x2 - a.x1) * (a.y2 - a.y1) > 0.0;
  }

  /** A box inside another overlaps it by the share of the area it fills. */
  lemma NestedIou(a: Box, b: Box)
    requires b.x1 <= a.x1 < a.x2 <= b.x2 && b.y1 <= a.y1 < a.y2 <= b.y2
    ensures Iou(a, b) * ((b.x2 - b.x1) * (b.y2 - b.y1)) == (a.x2 - a.x1) * (a.y2 - a.y1)
  {
    var w, h, v, u := a.x2 - a.x1, a.y2 - a.y1, b.x2 - b.x1, b.y2 - b.y1;
    ProductMono(w, h, v, u);
    ProductPositive(v, u);
    assert Overlap(a, b) == w * h && Area(a) == w * h && Area(b) == v * u;
    TimesShare(w * h, v * u);
  }

  /** A box moved sideways by less than its width keeps (width - move) / (width + move). */
  lemma ShiftedIou(a: Box, d: real)
    requires a.x1 < a.x2 && a.y1 < a.y2 && 0.0 <= d <= a.x2 - a.x1
    ensures Iou(a, Box(a.x1 + d, a.y1, a.x2 + d, a.y2)) * (a.x2 - a.x1 + d) == a.x2 - a.x1 - d
  {
    var w, h, b := a.x2 - a.x1, a.y2 - a.y1, Box(a.x1 + d, a.y1, a.x2 + d, a.y2);
    assert Max(0.0, Min(a.x2, b.x2) - Max(a.x1, b.x1)) == w - d && Max(0.0, Min(a.y2, b.y2) - Max(a.y1, b.y1)) == h;
    assert Overlap(a, b) == (w - d) * h && Area(a) == w * h && Area(b) == w * h;
    SideBySide(w, d, h);
    CommonFactor(w - d, w + d, h);
    hide Overlap, Area;
  }

  lemma SideBySide(w: real, d: real, h: real)
    ensures w * h + w * h - (w - d) * h == (w + d) * h
  {}

  lemma TimesShare(p: real, q: real)
    requires q > 0.0
    ensures p / q * q == p
  {}

  lemma CommonFactor(p: real, q: real, f: real)
    requires q > 0.0 && f > 0.0
    ensures q * f > 0.0 && (p * f) / (q * f) * q == p
  {
    ProductPositive(q, f);
    TimesShare(p * f, q * f);
    var r := (p * f) / (q * f);
    assert r * (q * f) == (r * q) * f;
    assert (r * q - p) * f == 0.0;
  }

  /** Every threshold leaves the greedy association at least half as heavy as any other
      association of the same boxes at or above it. */
  lemma AssociationHalfOptimal(a: seq<Box>, b: seq<Box>, threshold: real, chosen: set<Cell>, other: set<Cell>)
    requires GreedyMatching(IouBatch(a, b), threshold, chosen)
    requires Within(IouBatch(a, b), other) && IsMatching(other)
    requires forall c :: c in other ==> IouBatch(a, b).At(c) >= threshold
    ensures Weight(IouBatch(a, b), other) <= 2.0 * Weight(IouBatch(a, b), chosen)
  {
    var m := IouBatch(a, b);
    forall c: Cell | m.Has(c)
      ensures m.At(c) >= 0.0
    {
      IouRange(a[c.0], b[c.1]);
    }
    GreedyHalfOptimal(m, threshold, chosen, other);
  }
}
