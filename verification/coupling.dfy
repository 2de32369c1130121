/** The coupling-matrix builders of `kurapy/coupling.py`. Each turns the
    distance table of a lattice into an `N x N` matrix whose diagonal is then
    cleared (no self-coupling). */
module Coupling {
  import opened Base
  import opened Phase
  import opened Lattice

  type Matrix = seq<seq<real>>

  ghost predicate Symmetric(k: Matrix)
  {
    forall a, b | 0 <= a < |k| && 0 <= b < |k| && b < |k[a]| && a < |k[b]| :: k[a][b] == k[b][a]
  }

  /** `np.fill_diagonal(K, 0)`. */
  function FillDiagonal(k: Matrix): (r: Matrix)
    ensures |r| == |k| && forall a | 0 <= a < |k| :: |r[a]| == |k[a]|
    ensures forall a, b | 0 <= a < |k| && 0 <= b < |k[a]| ::
      r[a][b] == if a == b then 0.0 else k[a][b]
  {
    seq(|k|, a requires 0 <= a < |k| =>
      seq(|k[a]|, b requires 0 <= b < |k[a]| => if a == b then 0.0 else k[a][b]))
  }

  /** What a valid lattice's fields guarantee: the table's kind follows the
      metric, its shape is `N x N`, and it is symmetric. */
  lemma ValidLattice(lattice: Lattice)
    requires lattice.Valid()
    ensures lattice.metric == Some(Cartesian) ==>
      lattice.distances.AxisTable? && IsTable(lattice.distances.axes, lattice.n) &&
      forall a, b | 0 <= a < lattice.n && 0 <= b < lattice.n ::
        lattice.distances.axes[a][b] == lattice.distances.axes[b][a]
    ensures lattice.metric == Some(Euclidean) ==>
      lattice.distances.NormTable? && IsTable(lattice.distances.sq, lattice.n) &&
      forall a, b | 0 <= a < lattice.n && 0 <= b < lattice.n ::
        lattice.distances.sq[a][b] == lattice.distances.sq[b][a]
  {
    CartesianMetricLaws(lattice.size, true);
    CartesianMetricLaws(lattice.size, false);
    EuclideanMetricLaws(lattice.size, true);
    EuclideanMetricLaws(lattice.size, false);
  }

  /** `constant(lattice)`: all-to-all coupling, one off the diagonal. */
  function Constant(lattice: Lattice): (k: Matrix)
    reads lattice
    ensures IsTable(k, lattice.n)
    ensures forall a, b | 0 <= a < lattice.n && 0 <= b < lattice.n ::
      k[a][b] == if a == b then 0.0 else 1.0
  {
    FillDiagonal(seq(lattice.n, a => seq(lattice.n, b => 1.0)))
  }

  /** `distances < 1.01 / size` in lattice units: the sum of the two axis
      distances below 1.01, or the euclidean distance below 1.01 (its square
      below 1.01 squared). */
  function Near(d: Distances, a: nat, b: nat): (r: bool)
    requires d.AxisTable? ==> a < |d.axes| && b < |d.axes[a]|
    requires d.NormTable? ==> a < |d.sq| && b < |d.sq[a]|
    ensures d.Unset? ==> !r
    ensures d.AxisTable? ==> (r <==> d.axes[a][b].x + d.axes[a][b].y <= 1)
    ensures d.NormTable? ==> (r <==> d.sq[a][b] <= 1)
  {
    match d
    case Unset => false
    case AxisTable(t) => ((t[a][b].x + t[a][b].y) as real) < 1.01
    case NormTable(t) => (t[a][b] as real) < 1.01 * 1.01
  }

  /** `neighbour(lattice)`: one where the distance is below the threshold,
      then the diagonal cleared. The threshold `1.01 / lattice.size` is
      computed first, so a lattice of size 0 raises whatever its metric; a
      lattice whose metric is unset raises next. */
  function Neighbour(lattice: Lattice): (r: Result<Matrix>)
    reads lattice
    requires lattice.Valid()
    ensures lattice.size == 0 <==> r == Failure(ZeroDivision)
    ensures lattice.size > 0 && lattice.metric == None <==> r == Failure(MetricMismatch)
    ensures r.Success? ==> IsTable(r.value, lattice.n)
    ensures r.Success? ==> forall a, b | 0 <= a < lattice.n && 0 <= b < lattice.n ::
      r.value[a][b] == if a != b && Near(lattice.distances, a, b) then 1.0 else 0.0
  {
    ValidLattice(lattice);
    if lattice.size == 0 then
      Failure(ZeroDivision)
    else if lattice.metric == Some(Cartesian) || lattice.metric == Some(Euclidean) then
      var n, d := lattice.n, lattice.distances;
      Success(FillDiagonal(seq(n, a requires 0 <= a < n =>
        seq(n, b requires 0 <= b < n => if Near(d, a, b) then 1.0 else 0.0))))
    else
      Failure(MetricMismatch)
  }

  /** `np.cos(2 * np.pi * n * d)` for an axis distance `d` given in lattice
      units (the source's `d` is `dist / size`); the harmonic `n` is any
      number. The zeroth harmonic and the zero distance both give `cos 0`. */
  function Harmonic(trig: Trig, n: real, dist: int, size: nat): (r: real)
    requires size > 0
    ensures n == 0.0 || dist == 0 ==> r == Cos(trig, 0.0)
  {
    Cos(trig, P * n * ((dist as real) / (size as real)))
  }

  /** The `cosine` kernel of one pair: the harmonics of the two axis
      distances added; the zeroth harmonic couples every pair by `2 cos 0`. */
  function CosineEntry(trig: Trig, n: real, d: AxisDist, size: nat): (r: real)
    requires size > 0
    ensures n == 0.0 ==> r == 2.0 * Cos(trig, 0.0)
  {
    Harmonic(trig, n, d.x, size) + Harmonic(trig, n, d.y, size)
  }

  /** The `cosine2` kernel of one pair, the mean of the harmonics `n` and
      `n + 1` on each axis: it is the mean of the `cosine` kernels of the
      two harmonics. */
  function Cosine2Entry(trig: Trig, n: real, d: AxisDist, size: nat): (r: real)
    requires size > 0
    ensures r == 0.5 * (CosineEntry(trig, n, d, size) + CosineEntry(trig, n + 1.0, d, size))
  {
    0.5 * (Harmonic(trig, n, d.x, size) + Harmonic(trig, n + 1.0, d.x, size)) +
    0.5 * (Harmonic(trig, n, d.y, size) + Harmonic(trig, n + 1.0, d.y, size))
  }

  /** `cosine(lattice, n)`: the sum of the `n`-th spatial harmonics of the
      two axis distances; only a cartesian lattice is accepted. */
  function Cosine(lattice: Lattice, trig: Trig, n: real): (r: Result<Matrix>)
    reads lattice
    requires lattice.Valid()
    ensures lattice.metric != Some(Cartesian) <==> r == Failure(MetricMismatch)
    ensures r.Success? ==> IsTable(r.value, lattice.n)
    ensures r.Success? ==> forall a, b | 0 <= a < lattice.n && 0 <= b < lattice.n ::
      r.value[a][b] == if a == b then 0.0
                       else CosineEntry(trig, n, lattice.distances.axes[a][b], lattice.size)
  {
    ValidLattice(lattice);
    if lattice.metric == Some(Cartesian) then
      var size, t := lattice.size, lattice.distances.axes;
      Success(FillDiagonal(seq(size * size, a requires 0 <= a < size * size =>
        seq(size * size, b requires 0 <= b < size * size =>
          SiteBounds(size, a);
          CosineEntry(trig, n, t[a][b], size)))))
    else
      Failure(MetricMismatch)
  }

  /** `cosine2(lattice, n)`: each axis term is the mean of the `n`-th and
      `(n + 1)`-th harmonics; only a cartesian lattice is accepted. */
  function Cosine2(lattice: Lattice, trig: Trig, n: real): (r: Result<Matrix>)
    reads lattice
    requires lattice.Valid()
    ensures lattice.metric != Some(Cartesian) <==> r == Failure(MetricMismatch)
    ensures r.Success? ==> IsTable(r.value, lattice.n)
    ensures r.Success? ==> forall a, b | 0 <= a < lattice.n && 0 <= b < lattice.n ::
      r.value[a][b] == if a == b then 0.0
                       else Cosine2Entry(trig, n, lattice.distances.axes[a][b], lattice.size)
  {
    ValidLattice(lattice);
    if lattice.metric == Some(Cartesian) then
      var size, t := lattice.size, lattice.distances.axes;
      Success(FillDiagonal(seq(size * size, a requires 0 <= a < size * size =>
        seq(size * size, b requires 0 <= b < size * size =>
          SiteBounds(size, a);
          Cosine2Entry(trig, n, t[a][b], size)))))
    else
      Failure(MetricMismatch)
  }

  /** Every builder yields a symmetric matrix with a zero diagonal, because
      the distance table is symmetric. */
  lemma {:induction false} BuildersSymmetric(lattice: Lattice, trig: Trig, n: real)
    requires lattice.Valid()
    ensures Symmetric(Constant(lattice))
    ensures Neighbour(lattice).Success? ==> Symmetric(Neighbour(lattice).value)
    ensures Cosine(lattice, trig, n).Success? ==> Symmetric(Cosine(lattice, trig, n).value)
    ensures Cosine2(lattice, trig, n).Success? ==> Symmetric(Cosine2(lattice, trig, n).value)
    ensures forall a | 0 <= a < lattice.n ::
      Constant(lattice)[a][a] == 0.0 &&
      (Neighbour(lattice).Success? ==> Neighbour(lattice).value[a][a] == 0.0) &&
      (Cosine(lattice, trig, n).Success? ==> Cosine(lattice, trig, n).value[a][a] == 0.0) &&
      (Cosine2(lattice, trig, n).Success? ==> Cosine2(lattice, trig, n).value[a][a] == 0.0)
  {
    ValidLattice(lattice);
  }

  /** Where both succeed, `cosine2(lattice, n)` is the mean of
      `cosine(lattice, n)` and `cosine(lattice, n + 1)`. */
  lemma {:induction false} Cosine2IsMeanOfCosines(lattice: Lattice, trig: Trig, n: real)
    requires lattice.Valid()
    ensures Cosine2(lattice, trig, n).Success? <==> Cosine(lattice, trig, n).Success?
    ensures Cosine2(lattice, trig, n).Success? ==>
      forall a, b | 0 <= a < lattice.n && 0 <= b < lattice.n ::
        Cosine2(lattice, trig, n).value[a][b] ==
          0.5 * (Cosine(lattice, trig, n).value[a][b] + Cosine(lattice, trig, n + 1.0).value[a][b])
  {
  }

  // ---------------------------------------------------------------------
  // `neighbour` on a periodic lattice couples exactly the four adjacent sites.

  /** The sites one step right, left, down and up of `a`, with wrap-around. */
  function FourNeighbours(size: nat, a: nat): set<int>
    requires size > 0
  {
    var x, y := a % size, a / size;
    {Flat(size, y, Succ(x, size)), Flat(size, y, Pred(x, size)),
     Flat(size, Succ(y, size), x), Flat(size, Pred(y, size), x)}
  }

  /** Along one periodic axis of length at least 3, two coordinates are one
      step apart (minimum image 1) exactly when one is the other's successor
      or predecessor modulo the length, and zero apart exactly when equal. */
  lemma AxisStep(u: int, v: int, size: int)
    requires 0 <= u < size && 0 <= v < size && size >= 3
    ensures MinImage(v - u, size) == 0 <==> v == u
    ensures MinImage(v - u, size) == 1 <==> (v == Succ(u, size) || v == Pred(u, size))
    ensures MinImage(v - u, size) >= 0
  {
  }

  /** Two axis values of a periodic table sum to one exactly when the sites
      are distinct and the sum of their axis distances is below 1.01. */
  lemma NearIsStep(size: nat, a: nat, b: nat)
    requires a < size * size && b < size * size && size >= 3
    ensures var e := AxisEntry(size, a, b, true);
      (a != b && ((e.x + e.y) as real) < 1.01) <==> b in FourNeighbours(size, a)
    ensures var q := NormEntry(size, a, b, true);
      (a != b && (q as real) < 1.01 * 1.01) <==> b in FourNeighbours(size, a)
  {
    AxisNearIsStep(size, a, b);
    NormNearIsStep(size, a, b);
  }

  lemma AxisNearIsStep(size: nat, a: nat, b: nat)
    requires a < size * size && b < size * size && size >= 3
    ensures var e := AxisEntry(size, a, b, true);
      (a != b && ((e.x + e.y) as real) < 1.01) <==> b in FourNeighbours(size, a)
  {
    SiteBounds(size, a);
    SiteBounds(size, b);
    AxisStep(a % size, b % size, size);
    AxisStep(a / size, b / size, size);
    NeighbourCoordinates(size, a, b);
  }

  lemma NormNearIsStep(size: nat, a: nat, b: nat)
    requires a < size * size && b < size * size && size >= 3
    ensures var q := NormEntry(size, a, b, true);
      (a != b && (q as real) < 1.01 * 1.01) <==> b in FourNeighbours(size, a)
  {
    SiteBounds(size, a);
    SiteBounds(size, b);
    AxisStep(a % size, b % size, size);
    AxisStep(a / size, b / size, size);
    NeighbourCoordinates(size, a, b);
    SmallSquares(MinImage(DX(size, a, b), size), MinImage(DY(size, a, b), size));
  }

  /** Two sites are equal exactly when their coordinates are, and `b` is one
      of the four neighbours of `a` exactly when it shares one coordinate and
      is one periodic step away along the other. */
  lemma NeighbourCoordinates(size: nat, a: nat, b: nat)
    requires a < size * size && b < size * size && size >= 3
    ensures a == b <==> a % size == b % size && a / size == b / size
    ensures b in FourNeighbours(size, a) <==>
      (b / size == a / size && (b % size == Succ(a % size, size) || b % size == Pred(a % size, size))) ||
      (b % size == a % size && (b / size == Succ(a / size, size) || b / size == Pred(a / size, size)))
  {
    SiteBounds(size, a);
    SiteBounds(size, b);
    var xa, ya, xb, yb := a % size, a / size, b % size, b / size;
    DivModBounds(a, size, size);
    DivModBounds(b, size, size);
    assert a == Flat(size, ya, xa) && b == Flat(size, yb, xb);
    RowMajorIndex(size, size, ya, Succ(xa, size));
    RowMajorIndex(size, size, ya, Pred(xa, size));
    RowMajorIndex(size, size, Succ(ya, size), xa);
    RowMajorIndex(size, size, Pred(ya, size), xa);
  }

  /** For non-negative integers, the square norm is below 1.01 squared exactly
      when the sum is at most one. */
  lemma SmallSquares(x: int, y: int)
    requires x >= 0 && y >= 0
    ensures ((Sq(x) + Sq(y)) as real) < 1.01 * 1.01 <==> x + y <= 1
  {
    if x >= 1 && y >= 1 {
      assert Sq(x) >= 1 && Sq(y) >= 1 by {
        SquareMonotone(1, x);
        SquareMonotone(1, y);
      }
    } else if x >= 2 {
      SquareMonotone(2, x);
    } else if y >= 2 {
      SquareMonotone(2, y);
    }
  }

  lemma FourNeighboursDistinct(size: nat, a: nat)
    requires a < size * size && size >= 3
    ensures |FourNeighbours(size, a)| == 4
    ensures forall b | b in FourNeighbours(size, a) :: 0 <= b < size * size
  {
    SiteBounds(size, a);
    var x, y := a % size, a / size;
    var r, l := Flat(size, y, Succ(x, size)), Flat(size, y, Pred(x, size));
    var u, d := Flat(size, Succ(y, size), x), Flat(size, Pred(y, size), x);
    RowMajorIndex(size, size, y, Succ(x, size));
    RowMajorIndex(size, size, y, Pred(x, size));
    RowMajorIndex(size, size, Succ(y, size), x);
    RowMajorIndex(size, size, Pred(y, size), x);
    assert r != l && r != u && r != d && l != u && l != d && u != d;
    assert FourNeighbours(size, a) == {r, l, u, d};
    assert |{r, l, u, d}| == 4 by {
      assert {r, l, u, d} == {r} + {l} + {u} + {d};
      assert |{r} + {l}| == 2;
      assert |{r} + {l} + {u}| == 3;
    }
  }

  /** On a periodic lattice of side at least 3, under either metric, the
      `neighbour` matrix has a one exactly at the four lattice-adjacent
      sites of each row. */
  lemma {:induction false} NeighbourIsAdjacency(lattice: Lattice)
    requires lattice.Valid() && lattice.size >= 3
    requires lattice.metric.Some?
    requires lattice.distances == DistanceTable(lattice.size, lattice.metric.value, true)
    ensures Neighbour(lattice).Success?
    ensures forall a, b | 0 <= a < lattice.n && 0 <= b < lattice.n ::
      Neighbour(lattice).value[a][b] ==
        if b in FourNeighbours(lattice.size, a) then 1.0 else 0.0
  {
    var size, n := lattice.size, lattice.n;
    forall a, b | 0 <= a < n && 0 <= b < n
      ensures Neighbour(lattice).value[a][b] == if b in FourNeighbours(size, a) then 1.0 else 0.0
    {
      NearIsStep(size, a, b);
    }
  }

  /** `np.sum(row)`. */
  function RowSum(row: seq<real>): real
  {
    if row == [] then 0.0 else RowSum(row[..|row| - 1]) + row[|row| - 1]
  }

  /** A row holding one exactly at the indices of `s` sums to the size of `s`. */
  lemma {:induction false} IndicatorRowSum(row: seq<real>, s: set<int>)
    requires forall b | b in s :: 0 <= b < |row|
    requires forall b | 0 <= b < |row| :: row[b] == if b in s then 1.0 else 0.0
    ensures RowSum(row) == |s| as real
  {
    if row != [] {
      var k := |row| - 1;
      IndicatorRowSum(row[..k], s - {k});
      assert RowSum(row) == RowSum(row[..k]) + row[k];
      if k in s {
        assert |s - {k}| == |s| - 1;
      } else {
        assert s - {k} == s;
      }
    } else {
      assert forall b :: b !in s;
      assert s == {};
    }
  }

  /** Each row of `neighbour` on a periodic lattice of side at least 3 sums
      to 4: every site is coupled to its four immediate neighbours only. */
  lemma {:induction false} NeighbourRowSum(lattice: Lattice)
    requires lattice.Valid() && lattice.size >= 3
    requires lattice.metric.Some?
    requires lattice.distances == DistanceTable(lattice.size, lattice.metric.value, true)
    ensures Neighbour(lattice).Success?
    ensures forall a | 0 <= a < lattice.n :: RowSum(Neighbour(lattice).value[a]) == 4.0
  {
    NeighbourIsAdjacency(lattice);
    var k := Neighbour(lattice).value;
    forall a | 0 <= a < lattice.n
      ensures RowSum(k[a]) == 4.0
    {
      FourNeighboursDistinct(lattice.size, a);
      IndicatorRowSum(k[a], FourNeighbours(lattice.size, a));
    }
  }
}
