/** The oscillator lattice of `kurapy/lattice.py`: `size * size` sites on a
    square grid and the table of pairwise distances under a chosen metric.

    Distances are kept in lattice units, that is the source's value (which is
    normalised by dividing every position by `size`) multiplied by `size`.
    Cartesian tables hold the two per-axis distances; Euclidean tables hold
    the SQUARE of the distance, since the square root is monotone and taking
    the minimum over periodic images commutes with it. */
module Lattice {
  import opened Base

  datatype Metric = Cartesian | Euclidean

  /** Per-axis distances of one pair of sites, in lattice units. */
  datatype AxisDist = AxisDist(x: int, y: int)

  /** The `distances` field: unset (`None`), an `N x N x 2` cartesian table
      or an `N x N` euclidean table of squared distances. */
  datatype Distances =
    | Unset
    | AxisTable(axes: seq<seq<AxisDist>>)
    | NormTable(sq: seq<seq<int>>)

  datatype Site = Site(x: int, y: int)

  /** `str.lower` on ASCII letters. */
  function LowerChar(ch: char): char
  {
    if 'A' <= ch <= 'Z' then (ch as int + 32) as char else ch
  }

  function Lower(s: string): (r: string)
    ensures |r| == |s|
    ensures forall i | 0 <= i < |s| :: r[i] == LowerChar(s[i])
  {
    seq(|s|, i requires 0 <= i < |s| => LowerChar(s[i]))
  }

  /** The metric named by `name` after lower-casing, if it is one of the two
      known metrics. */
  function ParseMetric(name: string): (r: Option<Metric>)
    ensures r == Some(Cartesian) <==> Lower(name) == "cartesian"
    ensures r == Some(Euclidean) <==> Lower(name) == "euclidean"
  {
    var m := Lower(name);
    if m == "cartesian" then Some(Cartesian)
    else if m == "euclidean" then Some(Euclidean)
    else None
  }

  /** Lower-casing first does not change which metric a name selects. */
  lemma {:induction false} ParseMetricIgnoresCase(name: string)
    ensures ParseMetric(Lower(name)) == ParseMetric(name)
  {
    assert Lower(Lower(name)) == Lower(name);
  }

  /** `positions`: site `k` sits at column `k % size` and row `k / size`. */
  function Positions(size: nat): (p: seq<Site>)
    ensures |p| == size * size
    ensures forall k | 0 <= k < |p| :: p[k] == Site(k % size, k / size)
  {
    seq(size * size, k requires 0 <= k < size * size => Site(k % size, k / size))
  }

  /** Every cell of the `size x size` grid appears in `positions` exactly
      once: positions are in range, cell `(x, y)` is at index `y * size + x`,
      and no two indices share a cell. */
  lemma {:induction false} PositionsEnumerateGrid(size: nat)
    ensures forall k | 0 <= k < size * size ::
      0 <= Positions(size)[k].x < size && 0 <= Positions(size)[k].y < size
    ensures forall x, y | 0 <= x < size && 0 <= y < size ::
      0 <= y * size + x < size * size && Positions(size)[y * size + x] == Site(x, y)
    ensures forall k1, k2 | 0 <= k1 < size * size && 0 <= k2 < size * size ::
      Positions(size)[k1] == Positions(size)[k2] ==> k1 == k2
  {
    forall k | 0 <= k < size * size
      ensures 0 <= Positions(size)[k].x < size && 0 <= Positions(size)[k].y < size
    {
      PositionAt(size, k);
    }
    forall x, y | 0 <= x < size && 0 <= y < size
      ensures 0 <= y * size + x < size * size && Positions(size)[y * size + x] == Site(x, y)
    {
      CellAt(size, x, y);
    }
    forall k1, k2 | 0 <= k1 < size * size && 0 <= k2 < size * size &&
                    Positions(size)[k1] == Positions(size)[k2]
      ensures k1 == k2
    {
      PositionAt(size, k1);
      PositionAt(size, k2);
    }
  }

  /** Index `k` holds a cell of the grid from which `k` is recovered. */
  lemma PositionAt(size: nat, k: nat)
    requires k < size * size
    ensures 0 <= Positions(size)[k].x < size && 0 <= Positions(size)[k].y < size
    ensures k == Positions(size)[k].y * size + Positions(size)[k].x
  {
    DivModBounds(k, size, size);
  }

  /** Cell `(x, y)` is held at index `y * size + x`. */
  lemma CellAt(size: nat, x: nat, y: nat)
    requires x < size && y < size
    ensures 0 <= y * size + x < size * size && Positions(size)[y * size + x] == Site(x, y)
  {
    RowMajorIndex(size, size, y, x);
  }

  /** The shortest distance along one periodic axis of length `size` for an
      offset `d`: the offset itself or the wrap-around the other way. */
  function MinImage(d: int, size: int): int
  {
    Min(Abs(d), size - Abs(d))
  }

  /** Offsets from site `a` to site `b` (`pos[b] - pos[a]`), in lattice units. */
  function DX(size: nat, a: nat, b: nat): int
    requires size > 0
  {
    b % size - a % size
  }

  function DY(size: nat, a: nat, b: nat): int
    requires size > 0
  {
    b / size - a / size
  }

  /** The closed forms of the two tables. */
  function AxisEntry(size: nat, a: nat, b: nat, periodic: bool): AxisDist
    requires size > 0
  {
    var dx, dy := DX(size, a, b), DY(size, a, b);
    if periodic then AxisDist(MinImage(dx, size), MinImage(dy, size))
    else AxisDist(Abs(dx), Abs(dy))
  }

  function NormEntry(size: nat, a: nat, b: nat, periodic: bool): int
    requires size > 0
  {
    var dx, dy := DX(size, a, b), DY(size, a, b);
    if periodic then Sq(MinImage(dx, size)) + Sq(MinImage(dy, size))
    else Sq(dx) + Sq(dy)
  }

  /** The table `set_distances` stores: per-axis distances under the
      cartesian metric, squared norms under the euclidean one, `N x N`
      either way. */
  function DistanceTable(size: nat, m: Metric, periodic: bool): (r: Distances)
    ensures m == Cartesian <==> r.AxisTable?
    ensures m == Euclidean <==> r.NormTable?
    ensures r.AxisTable? ==> IsTable(r.axes, size * size)
    ensures r.NormTable? ==> IsTable(r.sq, size * size)
  {
    var n := size * size;
    match m
    case Cartesian =>
      AxisTable(seq(n, a requires 0 <= a < n =>
        seq(n, b requires 0 <= b < n => AxisEntry(size, a, b, periodic))))
    case Euclidean =>
      NormTable(seq(n, a requires 0 <= a < n =>
        seq(n, b requires 0 <= b < n => NormEntry(size, a, b, periodic))))
  }

  lemma SiteBounds(size: nat, a: nat)
    requires a < size * size
    ensures size > 0 && 0 <= a % size < size && 0 <= a / size < size
  {
    DivModBounds(a, size, size);
  }

  /** One pair's entries do not depend on the order of the pair and are
      non-negative. */
  lemma EntrySymmetric(size: nat, a: nat, b: nat, periodic: bool)
    requires size > 0
    ensures AxisEntry(size, a, b, periodic) == AxisEntry(size, b, a, periodic)
    ensures NormEntry(size, a, b, periodic) == NormEntry(size, b, a, periodic)
    ensures NormEntry(size, a, b, periodic) >= 0
  {
    var dx, dy := DX(size, a, b), DY(size, a, b);
    OffsetsAntisymmetric(size, a, b);
    OffsetLaws(dx, size);
    OffsetLaws(dy, size);
  }

  lemma AxisEntryNonNegative(size: nat, a: nat, b: nat, periodic: bool)
    requires a < size * size && b < size * size
    ensures AxisEntry(size, a, b, periodic).x >= 0 && AxisEntry(size, a, b, periodic).y >= 0
  {
    SiteBounds(size, a);
    SiteBounds(size, b);
    MinImageRange(DX(size, a, b), size);
    MinImageRange(DY(size, a, b), size);
  }

  lemma OffsetsAntisymmetric(size: nat, a: nat, b: nat)
    requires size > 0
    ensures DX(size, b, a) == -DX(size, a, b) && DY(size, b, a) == -DY(size, a, b)
  {
  }

  /** What the entries use of one axis offset: it and its minimum image have
      the same squares and absolute values as their negations. */
  lemma OffsetLaws(d: int, size: int)
    ensures Abs(-d) == Abs(d) && MinImage(-d, size) == MinImage(d, size)
    ensures Sq(-d) == Sq(d) && Sq(d) >= 0 && Sq(MinImage(d, size)) >= 0
  {
    SqLaws(d);
    SqLaws(MinImage(d, size));
  }

  lemma SqLaws(x: int)
    ensures Sq(-x) == Sq(x) && Sq(x) >= 0
  {
  }

  /** Cartesian distances are symmetric, zero on the diagonal and
      non-negative. */
  lemma {:induction false} CartesianMetricLaws(size: nat, periodic: bool)
    ensures var t := DistanceTable(size, Cartesian, periodic).axes;
      IsTable(t, size * size) &&
      (forall a, b | 0 <= a < size * size && 0 <= b < size * size ::
        t[a][b] == t[b][a] && t[a][b].x >= 0 && t[a][b].y >= 0) &&
      (forall a | 0 <= a < size * size :: t[a][a] == AxisDist(0, 0))
  {
    var n := size * size;
    forall a, b | 0 <= a < n && 0 <= b < n
      ensures AxisEntry(size, a, b, periodic) == AxisEntry(size, b, a, periodic)
      ensures AxisEntry(size, a, b, periodic).x >= 0 && AxisEntry(size, a, b, periodic).y >= 0
    {
      SiteBounds(size, a);
      EntrySymmetric(size, a, b, periodic);
      AxisEntryNonNegative(size, a, b, periodic);
    }
  }

  /** Euclidean distances are symmetric, zero on the diagonal and
      non-negative. */
  lemma {:induction false} EuclideanMetricLaws(size: nat, periodic: bool)
    ensures var t := DistanceTable(size, Euclidean, periodic).sq;
      IsTable(t, size * size) &&
      (forall a, b | 0 <= a < size * size && 0 <= b < size * size ::
        t[a][b] == t[b][a] && t[a][b] >= 0) &&
      (forall a | 0 <= a < size * size :: t[a][a] == 0)
  {
    var n := size * size;
    forall a, b | 0 <= a < n && 0 <= b < n
      ensures NormEntry(size, a, b, periodic) == NormEntry(size, b, a, periodic)
      ensures NormEntry(size, a, b, periodic) >= 0
    {
      SiteBounds(size, a);
      EntrySymmetric(size, a, b, periodic);
    }
  }

  /** For an offset between two sites of an axis of length `size`, the
      minimum image lies in `[0, size / 2]`. */
  lemma MinImageRange(d: int, size: int)
    requires Abs(d) < size
    ensures 0 <= MinImage(d, size) && 2 * MinImage(d, size) <= size
  {
  }

  /** On a periodic lattice each cartesian axis distance is at most half the
      side (`[0, 1/2]` once normalised), and the euclidean distance at most
      `sqrt(2) / 2` of it (squared: `2 * d^2 <= size^2`). */
  lemma {:induction false} PeriodicDistanceBounds(size: nat, m: Metric)
    ensures m == Cartesian ==>
      var t := DistanceTable(size, m, true).axes;
      forall a, b | 0 <= a < size * size && 0 <= b < size * size ::
        2 * t[a][b].x <= size && 2 * t[a][b].y <= size
    ensures m == Euclidean ==>
      var t := DistanceTable(size, m, true).sq;
      forall a, b | 0 <= a < size * size && 0 <= b < size * size ::
        2 * t[a][b] <= size * size
  {
    var n := size * size;
    forall a, b | 0 <= a < n && 0 <= b < n
      ensures 2 * AxisEntry(size, a, b, true).x <= size && 2 * AxisEntry(size, a, b, true).y <= size
      ensures 2 * NormEntry(size, a, b, true) <= size * size
    {
      SiteBounds(size, a);
      SiteBounds(size, b);
      var mx, my := MinImage(DX(size, a, b), size), MinImage(DY(size, a, b), size);
      MinImageRange(DX(size, a, b), size);
      MinImageRange(DY(size, a, b), size);
      HalfSquare(mx, size);
      HalfSquare(my, size);
    }
  }

  lemma HalfSquare(m: nat, size: nat)
    requires 2 * m <= size
    ensures 4 * Sq(m) <= size * size
  {
    SquareMonotone(2 * m, size);
  }

  // ---------------------------------------------------------------------
  // The nested image loops of `set_distances`, entry by entry.

  /** Loop position `s` (0..8) visits the shift `(s / 3 - 1, s % 3 - 1)`:
      `i` is the outer loop variable and `j` the inner one. */
  function ShiftI(s: int): int { s / 3 - 1 }
  function ShiftJ(s: int): int { s % 3 - 1 }

  /** A cartesian entry after the first `s` loop positions: each visited
      non-zero shift replaces every axis value `v` by `min(v, |v + shift|)`,
      starting from the plain absolute offsets. */
  function AxisAfter(size: nat, a: nat, b: nat, s: nat): AxisDist
    requires size > 0 && s <= 9
  {
    if s == 0 then AxisEntry(size, a, b, false)
    else
      var d := AxisAfter(size, a, b, s - 1);
      var i, j := ShiftI(s - 1), ShiftJ(s - 1);
      if i == 0 && j == 0 then d
      else Refined(d, i, j, size)
  }

  /** One pair's axis values after comparing with the image shifted by
      `(i, j)` periods: `np.minimum(dmin, abs(dmin + np.array([i, j])))`. */
  function Refined(d: AxisDist, i: int, j: int, size: nat): AxisDist
  {
    AxisDist(Min(d.x, Abs(d.x + i * size)), Min(d.y, Abs(d.y + j * size)))
  }

  /** The squared euclidean norm of the offset moved by the shift visited at
      loop position `s`. */
  function Candidate(size: nat, a: nat, b: nat, s: int): int
    requires size > 0
  {
    ShiftedNorm(size, a, b, ShiftI(s), ShiftJ(s))
  }

  function ShiftedNorm(size: nat, a: nat, b: nat, i: int, j: int): int
    requires size > 0
  {
    Sq(DX(size, a, b) + i * size) + Sq(DY(size, a, b) + j * size)
  }

  /** A euclidean entry after the first `s` loop positions: the minimum of the
      unshifted norm and the norms of the visited non-zero shifts. */
  function NormAfter(size: nat, a: nat, b: nat, s: nat): int
    requires size > 0 && s <= 9
  {
    if s == 0 then NormEntry(size, a, b, false)
    else
      var d := NormAfter(size, a, b, s - 1);
      if ShiftI(s - 1) == 0 && ShiftJ(s - 1) == 0 then d
      else Min(d, Candidate(size, a, b, s - 1))
  }

  lemma KeepsImage(m: int, i: int, size: int)
    requires 0 <= m && 2 * m <= size && -1 <= i <= 1
    ensures Min(m, Abs(m + i * size)) == m
  {
    if i == -1 {
      assert m + i * size == m - size;
    } else if i == 1 {
      assert m + i * size == m + size;
    } else {
      assert m + i * size == m;
    }
  }

  /** The cartesian refinement settles after its first shift `(-1, -1)` on
      the minimum image of each axis, and the remaining shifts keep it. */
  lemma {:induction false} AxisAfterSettles(size: nat, a: nat, b: nat, s: nat)
    requires a < size * size && b < size * size && 1 <= s <= 9
    ensures AxisAfter(size, a, b, s) == AxisEntry(size, a, b, true)
  {
    SiteBounds(size, a);
    SiteBounds(size, b);
    var dx, dy := DX(size, a, b), DY(size, a, b);
    MinImageRange(dx, size);
    MinImageRange(dy, size);
    if s == 1 {
      var d := AxisAfter(size, a, b, 0);
      assert ShiftI(0) == -1 && ShiftJ(0) == -1;
      assert d.x + (-1) * size == Abs(dx) - size;
      assert d.y + (-1) * size == Abs(dy) - size;
    } else {
      AxisAfterSettles(size, a, b, s - 1);
      var e := AxisEntry(size, a, b, true);
      assert -1 <= ShiftI(s - 1) <= 1 && -1 <= ShiftJ(s - 1) <= 1;
      KeepsImage(e.x, ShiftI(s - 1), size);
      KeepsImage(e.y, ShiftJ(s - 1), size);
    }
  }

  /** The image of an offset under a shift of one period is never shorter
      than the minimum image. */
  lemma ShiftedAtLeastImage(d: int, i: int, size: int)
    requires Abs(d) < size && -1 <= i <= 1
    ensures Abs(d + i * size) >= MinImage(d, size)
  {
    if i == -1 {
      assert d + i * size == d - size;
    } else if i == 1 {
      assert d + i * size == d + size;
    } else {
      assert d + i * size == d;
    }
  }

  lemma SqAbs(u: int)
    ensures Sq(u) == Sq(Abs(u)) && Sq(u) >= 0
  {
  }

  lemma SqAtLeast(u: int, m: nat)
    requires Abs(u) >= m
    ensures Sq(u) >= Sq(m)
  {
    SqAbs(u);
    SquareMonotone(m, Abs(u));
  }

  /** Every shifted candidate is at least the norm of the per-axis minimum
      images. */
  lemma CandidateAtLeast(size: nat, a: nat, b: nat, s: int)
    requires a < size * size && b < size * size && 0 <= s < 9
    ensures Candidate(size, a, b, s) >= NormEntry(size, a, b, true)
  {
    SiteBounds(size, a);
    SiteBounds(size, b);
    var dx, dy := DX(size, a, b), DY(size, a, b);
    MinImageRange(dx, size);
    MinImageRange(dy, size);
    ShiftedAtLeastImage(dx, ShiftI(s), size);
    ShiftedAtLeastImage(dy, ShiftJ(s), size);
    SqAtLeast(dx + ShiftI(s) * size, MinImage(dx, size));
    SqAtLeast(dy + ShiftJ(s) * size, MinImage(dy, size));
  }

  lemma {:induction false} NormAfterAtLeast(size: nat, a: nat, b: nat, s: nat)
    requires a < size * size && b < size * size && s <= 9
    ensures NormAfter(size, a, b, s) >= NormEntry(size, a, b, true)
  {
    SiteBounds(size, a);
    if s == 0 {
      CandidateAtLeast(size, a, b, 4);
      assert ShiftI(4) == 0 && ShiftJ(4) == 0;
      assert Candidate(size, a, b, 4) == NormEntry(size, a, b, false);
    } else {
      NormAfterAtLeast(size, a, b, s - 1);
      CandidateAtLeast(size, a, b, s - 1);
    }
  }

  lemma {:induction false} NormAfterAtMost(size: nat, a: nat, b: nat, s: nat, t: nat)
    requires a < size * size && b < size * size && t < s <= 9
    ensures NormAfter(size, a, b, s) <= Candidate(size, a, b, t)
  {
    SiteBounds(size, a);
    if t == s - 1 {
      if ShiftI(t) == 0 && ShiftJ(t) == 0 {
        assert t == 4;
        NormAfterAtMostBase(size, a, b, s - 1);
      }
    } else {
      NormAfterAtMost(size, a, b, s - 1, t);
    }
  }

  lemma {:induction false} NormAfterAtMostBase(size: nat, a: nat, b: nat, s: nat)
    requires a < size * size && b < size * size && s <= 9
    ensures NormAfter(size, a, b, s) <= Candidate(size, a, b, 4)
  {
    SiteBounds(size, a);
    assert ShiftI(4) == 0 && ShiftJ(4) == 0;
    if s > 0 {
      NormAfterAtMostBase(size, a, b, s - 1);
    }
  }

  /** The shift that takes an offset to its minimum image. */
  function ImageShift(d: int, size: int): int
  {
    if Abs(d) <= size - Abs(d) then 0 else if d > 0 then -1 else 1
  }

  lemma ImageShiftReaches(d: int, size: int)
    requires Abs(d) < size
    ensures -1 <= ImageShift(d, size) <= 1
    ensures Abs(d + ImageShift(d, size) * size) == MinImage(d, size)
  {
    var i := ImageShift(d, size);
    if i == -1 {
      assert d + i * size == d - size;
    } else if i == 1 {
      assert d + i * size == d + size;
    } else {
      assert d + i * size == d;
    }
  }

  /** The minimum over the nine periodic images of the euclidean norm is the
      norm of the per-axis minimum images. */
  lemma {:induction false} NormAfterSettles(size: nat, a: nat, b: nat)
    requires a < size * size && b < size * size
    ensures NormAfter(size, a, b, 9) == NormEntry(size, a, b, true)
  {
    SiteBounds(size, a);
    SiteBounds(size, b);
    var dx, dy := DX(size, a, b), DY(size, a, b);
    var i, j := ImageShift(dx, size), ImageShift(dy, size);
    ImageShiftReaches(dx, size);
    ImageShiftReaches(dy, size);
    var t := 3 * (i + 1) + (j + 1);
    DivModCompose(j + 1, i + 1, 3);
    assert ShiftI(t) == i && ShiftJ(t) == j;
    SqAbs(dx + i * size);
    SqAbs(dy + j * size);
    assert Candidate(size, a, b, t) == NormEntry(size, a, b, true);
    NormAfterAtMost(size, a, b, 9, t);
    NormAfterAtLeast(size, a, b, 9);
  }

  // ---------------------------------------------------------------------
  // Whole-table operations, as numpy evaluates them.

  /** `abs(rep_pos - transpose(rep_pos))`. */
  function BaseAxes(size: nat): (t: seq<seq<AxisDist>>)
    ensures IsTable(t, size * size)
    ensures forall a, b | 0 <= a < size * size && 0 <= b < size * size ::
      t[a][b] == AxisAfter(size, a, b, 0)
  {
    match DistanceTable(size, Cartesian, false)
    case AxisTable(t) => t
  }

  /** `np.linalg.norm(rep_pos_norm, axis=2)`, squared. */
  function BaseNorms(size: nat): (t: seq<seq<int>>)
    ensures IsTable(t, size * size)
    ensures forall a, b | 0 <= a < size * size && 0 <= b < size * size ::
      t[a][b] == NormAfter(size, a, b, 0)
  {
    match DistanceTable(size, Euclidean, false)
    case NormTable(t) => t
  }

  /** `np.minimum(dmin, abs(dmin + np.array([i, j])))`. */
  function RefineAxes(d: seq<seq<AxisDist>>, i: int, j: int, size: nat): (r: seq<seq<AxisDist>>)
    ensures |r| == |d| && forall a | 0 <= a < |d| :: |r[a]| == |d[a]|
    ensures forall a, b | 0 <= a < |d| && 0 <= b < |d[a]| :: r[a][b] == Refined(d[a][b], i, j, size)
  {
    seq(|d|, a requires 0 <= a < |d| =>
      seq(|d[a]|, b requires 0 <= b < |d[a]| => Refined(d[a][b], i, j, size)))
  }

  /** `np.minimum(dmin, np.linalg.norm(rep_pos_norm + np.array([i, j]), axis=2))`,
      squared. */
  function RefineNorms(d: seq<seq<int>>, i: int, j: int, size: nat): (r: seq<seq<int>>)
    requires size > 0 && IsTable(d, size * size)
    ensures IsTable(r, size * size)
    ensures forall a, b | 0 <= a < size * size && 0 <= b < size * size ::
      r[a][b] == Min(d[a][b], ShiftedNorm(size, a, b, i, j))
  {
    seq(size * size, a requires 0 <= a < size * size =>
      seq(size * size, b requires 0 <= b < size * size =>
        Min(d[a][b], ShiftedNorm(size, a, b, i, j))))
  }

  class Lattice {
    const size: nat
    const n: nat
    const positions: seq<Site>
    var metric: Option<Metric>
    var distances: Distances

    /** The fields agree with the size, and the distance table is the one
        `set_distances` computes for the recorded metric. */
    ghost predicate Valid()
      reads this
    {
      n == size * size && positions == Positions(size) &&
      match metric
      case None => distances == Unset
      case Some(m) =>
        distances == DistanceTable(size, m, true) || distances == DistanceTable(size, m, false)
    }

    /** `Lattice(size)`: `size * size` sites enumerated row by row, metric and
        distances unset. */
    constructor (size: nat)
      ensures Valid()
      ensures this.size == size && n == size * size && positions == Positions(size)
      ensures metric == None && distances == Unset
    {
      this.size := size;
      n := size * size;
      positions := Positions(size);
      metric := None;
      distances := Unset;
    }

    /** `set_distances(metric, periodic)`. An unknown metric name raises and
        changes nothing; a known one sets both fields, the distances being the
        per-pair minimum over the periodic images (or the plain offsets when
        `periodic` is false). Since the new state depends only on the
        arguments, repeating the call gives the same state. */
    method SetDistances(name: string, periodic: bool) returns (r: Outcome)
      requires Valid()
      modifies this
      ensures Valid()
      ensures ParseMetric(name) == None ==>
        r == Fail(InvalidMetric) && metric == old(metric) && distances == old(distances)
      ensures ParseMetric(name) != None ==>
        r == Pass && metric == ParseMetric(name) &&
        distances == DistanceTable(size, ParseMetric(name).value, periodic)
    {
      var m := ParseMetric(name);
      if m != None {
        if m == Some(Euclidean) {
          var dmin := EuclideanDistances(periodic);
          metric := m;
          distances := NormTable(dmin);
        } else {
          var dmin := CartesianDistances(periodic);
          metric := m;
          distances := AxisTable(dmin);
        }
        r := Pass;
      } else {
        r := Fail(InvalidMetric);
      }
    }

    /** The euclidean branch of `set_distances`: the unshifted norms, then the
        elementwise minimum with each of the eight shifted images. */
    method EuclideanDistances(periodic: bool) returns (dmin: seq<seq<int>>)
      requires Valid()
      ensures NormTable(dmin) == DistanceTable(size, Euclidean, periodic)
    {
      dmin := BaseNorms(size);
      if periodic && size > 0 {
        for i := -1 to 2
          invariant IsTable(dmin, n)
          invariant forall a, b | 0 <= a < n && 0 <= b < n ::
            dmin[a][b] == NormAfter(size, a, b, 3 * (i + 1))
        {
          for j := -1 to 2
            invariant IsTable(dmin, n)
            invariant forall a, b | 0 <= a < n && 0 <= b < n ::
              dmin[a][b] == NormAfter(size, a, b, 3 * (i + 1) + (j + 1))
          {
            ghost var s := 3 * (i + 1) + (j + 1);
            assert ShiftI(s) == i && ShiftJ(s) == j;
            if i != 0 || j != 0 {
              dmin := RefineNorms(dmin, i, j, size);
            }
          }
        }
        forall a, b | 0 <= a < n && 0 <= b < n
          ensures dmin[a][b] == NormEntry(size, a, b, true)
        {
          NormAfterSettles(size, a, b);
        }
      }
      match DistanceTable(size, Euclidean, periodic)
      case NormTable(t) =>
        TableExt(dmin, t);
    }

    /** The cartesian branch of `set_distances`: the absolute offsets, refined
        in place by each of the eight shifted images in loop order. */
    method CartesianDistances(periodic: bool) returns (dmin: seq<seq<AxisDist>>)
      requires Valid()
      ensures AxisTable(dmin) == DistanceTable(size, Cartesian, periodic)
    {
      dmin := BaseAxes(size);
      if periodic && size > 0 {
        for i := -1 to 2
          invariant IsTable(dmin, n)
          invariant forall a, b | 0 <= a < n && 0 <= b < n ::
            dmin[a][b] == AxisAfter(size, a, b, 3 * (i + 1))
        {
          for j := -1 to 2
            invariant IsTable(dmin, n)
            invariant forall a, b | 0 <= a < n && 0 <= b < n ::
              dmin[a][b] == AxisAfter(size, a, b, 3 * (i + 1) + (j + 1))
          {
            ghost var s := 3 * (i + 1) + (j + 1);
            assert ShiftI(s) == i && ShiftJ(s) == j;
            if i != 0 || j != 0 {
              dmin := RefineAxes(dmin, i, j, size);
            }
          }
        }
        forall a, b | 0 <= a < n && 0 <= b < n
          ensures dmin[a][b] == AxisEntry(size, a, b, true)
        {
          AxisAfterSettles(size, a, b, 9);
        }
      }
      match DistanceTable(size, Cartesian, periodic)
      case AxisTable(t) =>
        TableExt(dmin, t);
    }
  }
}
