/** Greedy bipartite assignment, as `_linear_assignment` does it. */
module Assignment {
  import opened Sequences

  /** A (row, column) position: a track index and a detection index. */
  type Cell = (nat, nat)

  datatype Matrix = Matrix(rows: nat, cols: nat, data: seq<seq<real>>) {
    ghost predicate Valid() {
      && |data| == rows
      && forall r :: 0 <= r < rows ==> |data[r]| == cols
    }

    predicate Has(c: Cell) {
      c.0 < rows && c.1 < cols
    }

    /** The score of a cell; 0.0 outside the matrix, so that weights are total. */
    function At(c: Cell): real
      requires Valid()
    {
      if Has(c) then data[c.0][c.1] else 0.0
    }
  }

  type Scores = m: Matrix | m.Valid() witness Matrix(0, 0, [])

  // ---------- row-major layout ----------

  /** `cost_matrix.ravel()`: the rows end to end. */
  function Ravel(data: seq<seq<real>>): seq<real> {
    if data == [] then [] else Ravel(data[..|data| - 1]) + data[|data| - 1]
  }

  /** Decodes a flat index the way the loop does. */
  function CellOf(k: nat, cols: nat): Cell
    requires cols > 0
  {
    (k / cols, k % cols)
  }

  lemma {:induction false} RavelLength(data: seq<seq<real>>, cols: nat)
    requires forall r :: 0 <= r < |data| ==> |data[r]| == cols
    ensures |Ravel(data)| == |data| * cols
  {
    if data != [] {
      RavelLength(data[..|data| - 1], cols);
      assert (|data| - 1) * cols + cols == |data| * cols;
    }
  }

  lemma MulGap(a: int, b: int, n: nat)
    ensures a < b ==> a * n + n <= b * n
  {
    if a < b {
      assert (a + 1) * n <= b * n;
    }
  }

  lemma DecodeUnique(k: nat, r: nat, c: nat, cols: nat)
    requires c < cols && k == r * cols + c
    ensures CellOf(k, cols) == (r, c)
  {
    MulGap(r, k / cols, cols);
    MulGap(k / cols, r, cols);
  }

  /** Decoding a flat index finds the cell it came from. */
  lemma {:induction false} RavelDecode(data: seq<seq<real>>, cols: nat, k: nat)
    requires forall r :: 0 <= r < |data| ==> |data[r]| == cols
    requires k < |Ravel(data)|
    ensures cols > 0 && CellOf(k, cols).0 < |data|
    ensures data[CellOf(k, cols).0][CellOf(k, cols).1] == Ravel(data)[k]
  {
    var last := |data| - 1;
    RavelLength(data[..last], cols);
    if k < |Ravel(data[..last])| {
      RavelDecode(data[..last], cols, k);
    } else {
      DecodeUnique(k, last, k - |Ravel(data[..last])|, cols);
    }
  }

  /** Every cell has a flat index. */
  lemma RavelEncode(m: Scores, c: Cell) returns (k: nat)
    requires m.Has(c)
    ensures k < |Ravel(m.data)| && CellOf(k, m.cols) == c
  {
    RavelLength(m.data, m.cols);
    MulGap(c.0, m.rows, m.cols);
    k := c.0 * m.cols + c.1;
    DecodeUnique(k, c.0, c.1, m.cols);
  }

  // ---------- argsort ----------

  ghost predicate IsPermutationOfIndices(order: seq<nat>, n: nat) {
    && |order| == n
    && (forall k :: 0 <= k < n ==> order[k] < n)
    && (forall i, j :: 0 <= i < j < n ==> order[i] != order[j])
    && (forall v: nat :: v < n ==> v in order)
  }

  ghost predicate Descending(keys: seq<real>, order: seq<nat>)
    requires forall k :: 0 <= k < |order| ==> order[k] < |keys|
  {
    forall i, j :: 0 <= i < j < |order| ==> keys[order[i]] >= keys[order[j]]
  }

  /** `np.argsort(-keys)`. Callers rely only on this contract, so everything proved about
      them holds for any descending order, however ties are broken. */
  method ArgsortDescending(keys: seq<real>) returns (order: seq<nat>)
    ensures IsPermutationOfIndices(order, |keys|)
    ensures Descending(keys, order)
  {
    order := [];
    for n := 0 to |keys|
      invariant IsPermutationOfIndices(order, n)
      invariant Descending(keys, order)
    {
      var at := 0;
      while at < n && keys[order[at]] >= keys[n]
        invariant 0 <= at <= n
        invariant forall k :: 0 <= k < at ==> keys[order[k]] >= keys[n]
      {
        at := at + 1;
      }
      InsertIndex(keys, order, n, at);
      order := order[..at] + [n] + order[at..];
    }
  }

  lemma InsertIndex(keys: seq<real>, order: seq<nat>, n: nat, at: nat)
    requires n < |keys| && IsPermutationOfIndices(order, n) && Descending(keys, order)
    requires at <= n
    requires forall k :: 0 <= k < at ==> keys[order[k]] >= keys[n]
    requires at < n ==> keys[order[at]] <= keys[n]
    ensures IsPermutationOfIndices(order[..at] + [n] + order[at..], n + 1)
    ensures Descending(keys, order[..at] + [n] + order[at..])
  {
    var next := order[..at] + [n] + order[at..];
    forall v: nat | v < n + 1
      ensures v in next
    {
      if v == n {
        assert next[at] == v;
      } else {
        assert v in order;
        var k :| 0 <= k < n && order[k] == v;
        assert next[if k < at then k else k + 1] == v;
      }
    }
    forall i, j | 0 <= i < j < n + 1
      ensures next[i] != next[j] && keys[next[i]] >= keys[next[j]]
    {
      InsertPair(keys, order, n, at, i, j);
    }
  }

  lemma InsertPair(keys: seq<real>, order: seq<nat>, n: nat, at: nat, i: nat, j: nat)
    requires n < |keys| && |order| == n && at <= n && i < j < n + 1
    requires forall k :: 0 <= k < n ==> order[k] < n
    requires forall i, j :: 0 <= i < j < n ==> order[i] != order[j]
    requires Descending(keys, order)
    requires forall k :: 0 <= k < at ==> keys[order[k]] >= keys[n]
    requires at < n ==> keys[order[at]] <= keys[n]
    ensures var next := order[..at] + [n] + order[at..];
            next[i] != next[j] && keys[next[i]] >= keys[next[j]]
  {}

  // ---------- what a greedy assignment is ----------

  predicate Conflict(a: Cell, b: Cell) {
    a.0 == b.0 || a.1 == b.1
  }

  /** No two chosen cells share a row or a column. */
  ghost predicate IsMatching(chosen: set<Cell>) {
    forall a, b {:trigger Conflict(a, b)} :: a in chosen && b in chosen && Conflict(a, b) ==> a == b
  }

  ghost predicate Within(m: Scores, chosen: set<Cell>) {
    forall c :: c in chosen ==> m.Has(c)
  }

  /** `c` is blocked by a chosen cell that scores at least as much. */
  ghost predicate Dominated(m: Scores, chosen: set<Cell>, c: Cell) {
    exists g :: g in chosen && Conflict(g, c) && m.At(g) >= m.At(c)
  }

  /** The greedy outcome: a matching at or above the threshold that dominates
      every other cell at or above the threshold. */
  ghost predicate GreedyMatching(m: Scores, threshold: real, chosen: set<Cell>) {
    && Within(m, chosen)
    && IsMatching(chosen)
    && (forall c :: c in chosen ==> m.At(c) >= threshold)
    && (forall c: Cell :: m.Has(c) && m.At(c) >= threshold ==> Dominated(m, chosen, c))
  }

  /** The indices below `n` that are not in `used`, ascending. */
  function Unused(n: nat, used: set<nat>): (rest: seq<nat>)
    ensures forall i: nat :: i in rest <==> i < n && i !in used
    ensures forall k :: 0 <= k < |rest| ==> rest[k] < n
    ensures forall i, j :: 0 <= i < j < |rest| ==> rest[i] < rest[j]
  {
    if n == 0 then []
    else if n - 1 in used then Unused(n - 1, used)
    else Unused(n - 1, used) + [n - 1]
  }

  ghost function Cells(matches: seq<Cell>): set<Cell> {
    set c | c in matches
  }

  ghost function Rows(chosen: set<Cell>): set<nat> {
    set c | c in chosen :: c.0
  }

  ghost function Cols(chosen: set<Cell>): set<nat> {
    set c | c in chosen :: c.1
  }

  /** The state of the greedy loop after looking at the first `k` cells of the scan. */
  ghost predicate Progress(m: Scores, threshold: real, scan: seq<Cell>, k: nat, matches: seq<Cell>)
    requires k <= |scan|
  {
    && NoRepeats(matches)
    && Within(m, Cells(matches)) && IsMatching(Cells(matches))
    && (forall c :: c in matches ==> m.At(c) >= threshold)
    && (forall i, j :: 0 <= i < j < |matches| ==> m.At(matches[i]) >= m.At(matches[j]))
    && (forall c, j :: c in matches && k <= j < |scan| ==> m.At(c) >= m.At(scan[j]))
    && (forall j :: 0 <= j < k ==> Dominated(m, Cells(matches), scan[j]))
  }

  /** Every cell once over, heaviest first. */
  ghost predicate IsScan(m: Scores, scan: seq<Cell>) {
    && (forall j :: 0 <= j < |scan| ==> m.Has(scan[j]))
    && (forall i, j :: 0 <= i < j < |scan| ==> m.At(scan[i]) >= m.At(scan[j]))
    && (forall c: Cell :: m.Has(c) ==> c in scan)
  }

  lemma ArgsortScans(m: Scores, order: seq<nat>) returns (scan: seq<Cell>)
    requires IsPermutationOfIndices(order, |Ravel(m.data)|) && Descending(Ravel(m.data), order)
    requires m.cols > 0
    ensures IsScan(m, scan) && |scan| == |order|
    ensures forall j :: 0 <= j < |order| ==> scan[j] == CellOf(order[j], m.cols)
  {
    scan := seq(|order|, j requires 0 <= j < |order| => CellOf(order[j], m.cols));
    forall j | 0 <= j < |order|
      ensures m.Has(scan[j]) && m.At(scan[j]) == Ravel(m.data)[order[j]]
    {
      RavelDecode(m.data, m.cols, order[j]);
    }
    forall c: Cell | m.Has(c)
      ensures c in scan
    {
      var k := RavelEncode(m, c);
      assert k in order;
      var j :| 0 <= j < |order| && order[j] == k;
      assert scan[j] == c;
    }
  }

  /** Greedy assignment: best score first, skip used rows and columns, stop below the threshold. */
  method LinearAssignment(m: Scores, threshold: real)
    returns (matches: seq<Cell>, unmatchedRows: seq<nat>, unmatchedCols: seq<nat>)
    ensures NoRepeats(matches)
    ensures GreedyMatching(m, threshold, Cells(matches))
    ensures forall i, j :: 0 <= i < j < |matches| ==> m.At(matches[i]) >= m.At(matches[j])
    ensures unmatchedRows == Unused(m.rows, Rows(Cells(matches)))
    ensures unmatchedCols == Unused(m.cols, Cols(Cells(matches)))
  {
    matches := [];
    var usedRows: set<nat>, usedCols: set<nat> := {}, {};
    if m.rows == 0 || m.cols == 0 {
      assert Rows(Cells(matches)) == {} && Cols(Cells(matches)) == {};
      return [], Unused(m.rows, {}), Unused(m.cols, {});
    }
    var order := ArgsortDescending(Ravel(m.data));
    ghost var scan := ArgsortScans(m, order);
    var k := 0;
    while k < |order|
      invariant 0 <= k <= |order|
      invariant Progress(m, threshold, scan, k, matches)
      invariant usedRows == Rows(Cells(matches)) && usedCols == Cols(Cells(matches))
    {
      var cell := CellOf(order[k], m.cols);
      assert cell == scan[k];
      if cell.0 in usedRows || cell.1 in usedCols {
        SkipStep(m, threshold, scan, k, matches);
        k := k + 1;
        continue;
      }
      if m.At(cell) < threshold {
        break;
      }
      MatchStep(m, threshold, scan, k, matches);
      matches := matches + [cell];
      usedRows, usedCols := usedRows + {cell.0}, usedCols + {cell.1};
      k := k + 1;
    }
    ScanComplete(m, threshold, scan, k, matches);
    unmatchedRows := Unused(m.rows, usedRows);
    unmatchedCols := Unused(m.cols, usedCols);
  }

  /** A cell in a used row or column is already blocked by an earlier, heavier match. */
  lemma SkipStep(m: Scores, threshold: real, scan: seq<Cell>, k: nat, matches: seq<Cell>)
    requires k < |scan| && Progress(m, threshold, scan, k, matches)
    requires scan[k].0 in Rows(Cells(matches)) || scan[k].1 in Cols(Cells(matches))
    ensures Progress(m, threshold, scan, k + 1, matches)
  {}

  lemma MatchStep(m: Scores, threshold: real, scan: seq<Cell>, k: nat, matches: seq<Cell>)
    requires IsScan(m, scan) && k < |scan| && Progress(m, threshold, scan, k, matches)
    requires scan[k].0 !in Rows(Cells(matches)) && scan[k].1 !in Cols(Cells(matches))
    requires m.At(scan[k]) >= threshold
    ensures Progress(m, threshold, scan, k + 1, matches + [scan[k]])
    ensures Rows(Cells(matches + [scan[k]])) == Rows(Cells(matches)) + {scan[k].0}
    ensures Cols(Cells(matches + [scan[k]])) == Cols(Cells(matches)) + {scan[k].1}
  {
    ExtendMatching(m, matches, scan[k]);
    MatchKeepsOrder(m, threshold, scan, k, matches);
    forall j | 0 <= j < k + 1
      ensures Dominated(m, Cells(matches + [scan[k]]), scan[j])
    {
      if j < k {
        DominatedGrows(m, Cells(matches), Cells(matches + [scan[k]]), scan[j]);
      } else {
        assert scan[k] in Cells(matches + [scan[k]]) && Conflict(scan[k], scan[k]);
      }
    }
  }

  lemma MatchKeepsOrder(m: Scores, threshold: real, scan: seq<Cell>, k: nat, matches: seq<Cell>)
    requires IsScan(m, scan) && k < |scan| && Progress(m, threshold, scan, k, matches)
    requires scan[k].0 !in Rows(Cells(matches)) && m.At(scan[k]) >= threshold
    ensures var next := matches + [scan[k]];
            && NoRepeats(next)
            && (forall c :: c in next ==> m.At(c) >= threshold)
            && (forall i, j :: 0 <= i < j < |next| ==> m.At(next[i]) >= m.At(next[j]))
            && (forall c, j :: c in next && k + 1 <= j < |scan| ==> m.At(c) >= m.At(scan[j]))
  {}

  lemma ScanComplete(m: Scores, threshold: real, scan: seq<Cell>, k: nat, matches: seq<Cell>)
    requires IsScan(m, scan) && k <= |scan| && Progress(m, threshold, scan, k, matches)
    requires k < |scan| ==> m.At(scan[k]) < threshold
    ensures GreedyMatching(m, threshold, Cells(matches))
  {}

  lemma ExtendMatching(m: Scores, before: seq<Cell>, cell: Cell)
    requires m.Has(cell) && Within(m, Cells(before)) && IsMatching(Cells(before))
    requires cell.0 !in Rows(Cells(before)) && cell.1 !in Cols(Cells(before))
    ensures Cells(before + [cell]) == Cells(before) + {cell}
    ensures Within(m, Cells(before + [cell])) && IsMatching(Cells(before + [cell]))
    ensures Rows(Cells(before + [cell])) == Rows(Cells(before)) + {cell.0}
    ensures Cols(Cells(before + [cell])) == Cols(Cells(before)) + {cell.1}
  {}

  lemma DominatedGrows(m: Scores, a: set<Cell>, b: set<Cell>, c: Cell)
    requires a <= b && Dominated(m, a, c)
    ensures Dominated(m, b, c)
  {}

  // ---------- total weight and the factor-two guarantee ----------

  ghost function Weight(m: Scores, chosen: set<Cell>): real {
    if chosen == {} then 0.0 else
      var c :| c in chosen;
      m.At(c) + Weight(m, chosen - {c})
  }

  lemma {:induction false} WeightSplit(m: Scores, chosen: set<Cell>, c: Cell)
    requires c in chosen
    ensures Weight(m, chosen) == m.At(c) + Weight(m, chosen - {c})
  {
    var d :| d in chosen && Weight(m, chosen) == m.At(d) + Weight(m, chosen - {d});
    if d != c {
      WeightSplit(m, chosen - {d}, c);
      WeightSplit(m, chosen - {c}, d);
      assert chosen - {d} - {c} == chosen - {c} - {d};
    }
  }

  /** One chosen cell accounts for at most two cells of any matching: its row's and its column's. */
  lemma WeightBlocked(m: Scores, other: set<Cell>, g: Cell, blocked: set<Cell>)
    requires IsMatching(other) && m.At(g) >= 0.0
    requires blocked <= other
    requires forall c :: c in blocked ==> Conflict(g, c) && m.At(c) <= m.At(g)
    ensures Weight(m, other) <= Weight(m, other - blocked) + 2.0 * m.At(g)
  {
    var inRow := set c | c in blocked && c.0 == g.0;
    var inCol := blocked - inRow;
    forall c, d | c in blocked && d in blocked && c.0 == g.0 == d.0 ensures c == d { assert Conflict(c, d); }
    forall c, d | c in inCol && d in inCol ensures c == d { assert Conflict(g, c) && Conflict(g, d) && Conflict(c, d); }
    WeightLine(m, other, g, inRow);
    WeightLine(m, other - inRow, g, inCol);
    assert other - inRow - inCol == other - blocked;
  }

  lemma WeightLine(m: Scores, other: set<Cell>, g: Cell, line: set<Cell>)
    requires line <= other && m.At(g) >= 0.0
    requires forall c :: c in line ==> m.At(c) <= m.At(g)
    requires forall c, d :: c in line && d in line ==> c == d
    ensures Weight(m, other) <= Weight(m, other - line) + m.At(g)
  {
    if c :| c in line {
      assert line == {c};
      WeightSplit(m, other, c);
    } else {
      assert other - line == other;
    }
  }

  /** Whatever dominates a matching weighs at least half as much. */
  lemma {:induction false} DominatingWeighsHalf(m: Scores, chosen: set<Cell>, other: set<Cell>)
    requires forall g :: g in chosen ==> m.At(g) >= 0.0
    requires IsMatching(other)
    requires forall c :: c in other ==> Dominated(m, chosen, c)
    ensures Weight(m, other) <= 2.0 * Weight(m, chosen)
    decreases |chosen|
  {
    if chosen == {} {
      assert other == {};
    } else {
      var g :| g in chosen;
      var blocked := set c | c in other && Conflict(g, c) && m.At(g) >= m.At(c);
      WeightBlocked(m, other, g, blocked);
      forall c | c in other - blocked
        ensures Dominated(m, chosen - {g}, c)
      {
        var h :| h in chosen && Conflict(h, c) && m.At(h) >= m.At(c);
        assert h in chosen - {g};
      }
      DominatingWeighsHalf(m, chosen - {g}, other - blocked);
      WeightSplit(m, chosen, g);
    }
  }

  /** Greedy is at least half as good as any matching of cells at or above the threshold.
      No cell of the chosen matching may score below zero, which a non-negative threshold ensures. */
  lemma GreedyHalfOptimal(m: Scores, threshold: real, chosen: set<Cell>, other: set<Cell>)
    requires GreedyMatching(m, threshold, chosen)
    requires threshold >= 0.0 || forall c: Cell :: m.Has(c) ==> m.At(c) >= 0.0
    requires Within(m, other) && IsMatching(other)
    requires forall c :: c in other ==> m.At(c) >= threshold
    ensures Weight(m, other) <= 2.0 * Weight(m, chosen)
  {
    forall g | g in chosen ensures m.At(g) >= 0.0 { assert m.Has(g); }
    DominatingWeighsHalf(m, chosen, other);
  }

  /** Maximality: nothing at or above the threshold can be added to the greedy matching. */
  lemma GreedyMaximal(m: Scores, threshold: real, chosen: set<Cell>, c: Cell)
    requires GreedyMatching(m, threshold, chosen)
    requires m.Has(c) && m.At(c) >= threshold && c !in chosen
    ensures !IsMatching(chosen + {c})
  {}

  ghost predicate NoTies(m: Scores) {
    forall c: Cell, d: Cell :: m.Has(c) && m.Has(d) && m.At(c) == m.At(d) ==> c == d
  }

  /** When no two cells score the same, the greedy outcome is unique, whatever the sort does. */
  lemma {:induction false} GreedyUnique(m: Scores, threshold: real, a: set<Cell>, b: set<Cell>)
    requires GreedyMatching(m, threshold, a) && GreedyMatching(m, threshold, b)
    requires NoTies(m)
    ensures a == b
  {
    if a != b {
      var diff := (a - b) + (b - a);
      var c := Heaviest(m, diff);
      if c in a { HeavierDifference(m, threshold, a, b, c); } else { HeavierDifference(m, threshold, b, a, c); }
    }
  }

  lemma {:induction false} Heaviest(m: Scores, s: set<Cell>) returns (top: Cell)
    requires s != {}
    ensures top in s && forall c :: c in s ==> m.At(c) <= m.At(top)
    decreases |s|
  {
    var first :| first in s;
    if s - {first} != {} {
      var t := Heaviest(m, s - {first});
      top := if m.At(t) > m.At(first) then t else first;
      forall c | c in s ensures m.At(c) <= m.At(top) {
        if c != first { assert c in s - {first}; }
      }
    } else {
      top := first;
      assert s == {top};
    }
  }

  /** A cell on which two greedy outcomes differ always comes with a heavier one. */
  lemma HeavierDifference(m: Scores, threshold: real, a: set<Cell>, b: set<Cell>, c: Cell)
    requires GreedyMatching(m, threshold, a) && GreedyMatching(m, threshold, b)
    requires NoTies(m)
    requires c in a && c !in b
    ensures exists d :: d in (a - b) + (b - a) && m.At(d) > m.At(c)
  {
    assert m.Has(c);
    assert Dominated(m, b, c);
    var g :| g in b && Conflict(g, c) && m.At(g) >= m.At(c);
    assert m.Has(g) && g != c;
    assert g !in a;
    assert g in (a - b) + (b - a) && m.At(g) > m.At(c);
  }

  /** The factor two is attained: with these scores greedy takes 1.0 where 2.0 was possible. */
  lemma FactorTwoIsTight()
    ensures var m: Scores := Matrix(2, 2, [[1.0, 1.0], [1.0, 0.0]]);
            GreedyMatching(m, 0.5, {(0, 0)}) && IsMatching({(0, 1), (1, 0)})
            && Weight(m, {(0, 1), (1, 0)}) == 2.0 * Weight(m, {(0, 0)})
  {
    var m: Scores := Matrix(2, 2, [[1.0, 1.0], [1.0, 0.0]]);
    var g: set<Cell>, o: set<Cell> := {(0, 0)}, {(0, 1), (1, 0)};
    assert m.At((0, 0)) == 1.0 && m.At((0, 1)) == 1.0 && m.At((1, 0)) == 1.0 && m.At((1, 1)) == 0.0;
    WeightSplit(m, g, (0, 0));
    WeightSplit(m, o, (0, 1));
    WeightSplit(m, o - {(0, 1)}, (1, 0));
    assert g - {(0, 0)} == {} && o - {(0, 1)} - {(1, 0)} == {};
    forall c: Cell | m.Has(c) && m.At(c) >= 0.5
      ensures Dominated(m, g, c)
    {
      assert c == (0, 0) || c == (0, 1) || c == (1, 0) || c == (1, 1);
      assert (0, 0) in g && Conflict((0, 0), c) && m.At((0, 0)) >= m.At(c);
    }
  }
}
