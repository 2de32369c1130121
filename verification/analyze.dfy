/** The analysis kernels of `kurapy/analyze.py`: reshaping phase rows into
    square grids and back, the global and the local order parameter, the
    wrap-aware discrete curvature and the phase-gradient velocity field.
    A stack is a sequence of frames, each a `rows x cols` grid indexed
    `[row][column]`, as numpy's `(frames, rows, cols)` arrays are. */
module Analyze {
  import opened Base
  import opened Phase

  type Frames = seq<seq<real>>

  type Stack<T> = seq<seq<seq<T>>>

  type Mask = seq<seq<bool>>

  ghost predicate IsGrid<T>(g: seq<seq<T>>, rows: nat, cols: nat)
  {
    |g| == rows && forall i | 0 <= i < rows :: |g[i]| == cols
  }

  /** Every frame is a `rows x cols` grid (numpy arrays are rectangular). */
  ghost predicate Shaped<T>(s: Stack<T>, rows: nat, cols: nat)
  {
    forall f | 0 <= f < |s| :: IsGrid(s[f], rows, cols)
  }

  /** Two stacks of the same shape with the same entries are equal. */
  lemma StackExt<T>(x: Stack<T>, y: Stack<T>, rows: nat, cols: nat)
    requires |x| == |y| && Shaped(x, rows, cols) && Shaped(y, rows, cols)
    requires forall f, i, j | 0 <= f < |x| && 0 <= i < rows && 0 <= j < cols :: x[f][i][j] == y[f][i][j]
    ensures x == y
  {
    forall f | 0 <= f < |x|
      ensures x[f] == y[f]
    {
      TableExt(x[f], y[f]);
    }
  }

  // ---------------------------------------------------------------------
  // shape_matrix and shape_linear

  /** `shape_matrix(phi)`: frames of `n` phases become `dd x dd` grids, with
      `dd = int(np.sqrt(n))`, by a row-major `reshape` followed by a
      transpose of the two grid axes, so that `phi[f][j * dd + i]` lands at
      `[f][i][j]`. The `reshape` raises when it cannot keep the number of
      elements, that is when there is a frame and `n` is not a perfect
      square. */
  function ShapeMatrix(phi: Frames, n: nat): (r: Result<Stack<real>>)
    requires forall f | 0 <= f < |phi| :: |phi[f]| == n
    ensures r.Failure? <==> |phi| > 0 && Square(FloorSqrt(n)) != n
    ensures r.Failure? ==> r.error == ShapeMismatch
    ensures r.Success? ==> |r.value| == |phi| && Shaped(r.value, FloorSqrt(n), FloorSqrt(n))
    ensures r.Success? ==>
      forall f, i, j | 0 <= f < |phi| && 0 <= i < FloorSqrt(n) && 0 <= j < FloorSqrt(n) ::
        0 <= Flat(FloorSqrt(n), j, i) < n && r.value[f][i][j] == phi[f][Flat(FloorSqrt(n), j, i)]
  {
    var dd := FloorSqrt(n);
    if |phi| == 0 then Success([])
    else if Square(dd) != n then Failure(ShapeMismatch)
    else
      SquareIsProduct(dd);
      RowMajorAll(dd, dd);
      Success(seq(|phi|, f requires 0 <= f < |phi| =>
        seq(dd, i requires 0 <= i < dd =>
          seq(dd, j requires 0 <= j < dd => phi[f][Flat(dd, j, i)]))))
  }

  /** `shape_linear(phimat)`: each grid is transposed and read out row by
      row, so entry `k` of frame `f` is `phimat[f][k % rows][k / rows]`;
      equivalently cell `(i, j)` goes to index `j * rows + i`. */
  function ShapeLinear(m: Stack<real>, rows: nat, cols: nat): (r: Frames)
    requires Shaped(m, rows, cols)
    ensures |r| == |m| && forall f | 0 <= f < |m| :: |r[f]| == rows * cols
    ensures forall f, i, j | 0 <= f < |m| && 0 <= i < rows && 0 <= j < cols ::
      0 <= Flat(rows, j, i) < rows * cols && r[f][Flat(rows, j, i)] == m[f][i][j]
  {
    RowMajorAll(rows, cols);
    seq(|m|, f requires 0 <= f < |m| =>
      seq(rows * cols, k requires 0 <= k < rows * cols =>
        DivModBounds(k, rows, cols);
        m[f][k % rows][k / rows]))
  }

  /** `shape_linear` undoes `shape_matrix` on frames of a square length. */
  lemma {:induction false} LinearOfMatrix(phi: Frames, l: nat)
    requires forall f | 0 <= f < |phi| :: |phi[f]| == Square(l)
    ensures FloorSqrt(Square(l)) == l && ShapeMatrix(phi, Square(l)).Success?
    ensures ShapeLinear(ShapeMatrix(phi, Square(l)).value, l, l) == phi
  {
    FloorSqrtOfSquare(l);
    SquareIsProduct(l);
    var m := ShapeMatrix(phi, Square(l)).value;
    var back := ShapeLinear(m, l, l);
    forall f, k | 0 <= f < |phi| && 0 <= k < |phi[f]|
      ensures back[f][k] == phi[f][k]
    {
      DivModBounds(k, l, l);
      var i, j := k % l, k / l;
      assert Flat(l, j, i) == k;
      assert back[f][Flat(l, j, i)] == m[f][i][j];
    }
    TableExt(back, phi);
  }

  /** `shape_matrix` undoes `shape_linear` on square grids. */
  lemma {:induction false} MatrixOfLinear(m: Stack<real>, l: nat)
    requires Shaped(m, l, l)
    ensures Square(l) == l * l
    ensures ShapeMatrix(ShapeLinear(m, l, l), Square(l)) == Success(m)
  {
    FloorSqrtOfSquare(l);
    SquareIsProduct(l);
    var lin := ShapeLinear(m, l, l);
    var r := ShapeMatrix(lin, Square(l));
    if |m| > 0 {
      var back := r.value;
      forall f, i, j | 0 <= f < |m| && 0 <= i < l && 0 <= j < l
        ensures back[f][i][j] == m[f][i][j]
      {
        assert back[f][i][j] == lin[f][Flat(l, j, i)];
      }
      StackExt(back, m, l, l);
    }
  }

  // ---------------------------------------------------------------------
  // The order parameters

  /** `np.exp(1j * row)`. */
  function Phasors(trig: Trig, row: seq<real>): (ns: seq<Complex>)
    ensures |ns| == |row| && forall a | 0 <= a < |row| :: ns[a] == Cis(trig, row[a])
  {
    seq(|row|, a requires 0 <= a < |row| => Cis(trig, row[a]))
  }

  /** `np.angle(z) % (2 * np.pi)`. */
  function Direction(trig: Trig, z: Complex): (r: real)
    ensures 0.0 <= r < P
  {
    Wrap(Angle(trig, z))
  }

  /** `global_op(phi)`: the mean phasor of each frame, `np.sum(np.exp(1j *
      phi), axis=1) / len(phi[0])`, gives the order parameter `R` (its
      modulus) and the collective phase `PSI` (its angle in `[0, P)`);
      reading `phi[0]` from an array without frames raises. */
  function GlobalOp(trig: Trig, phi: Frames, n: nat): (r: Result<(seq<real>, seq<real>)>)
    requires n > 0 && forall f | 0 <= f < |phi| :: |phi[f]| == n
    ensures r.Failure? <==> |phi| == 0
    ensures r.Failure? ==> r.error == EmptyInput
    ensures r.Success? ==> |r.value.0| == |phi| && |r.value.1| == |phi|
    ensures r.Success? ==> forall f | 0 <= f < |phi| ::
      r.value.0[f] == Modulus(trig, Mean(Phasors(trig, phi[f]))) &&
      r.value.1[f] == Direction(trig, Mean(Phasors(trig, phi[f]))) &&
      0.0 <= r.value.1[f] < P
  {
    if |phi| == 0 then Failure(EmptyInput)
    else
      var z := seq(|phi|, f requires 0 <= f < |phi| =>
        CScale(1.0 / (n as real), CSum(Phasors(trig, phi[f]))));
      Success((seq(|phi|, f requires 0 <= f < |phi| => Modulus(trig, z[f])),
               seq(|phi|, f requires 0 <= f < |phi| => Direction(trig, z[f]))))
  }

  /** A frame whose oscillators all sit at `theta` has `R = 1` and `PSI =
      theta` modulo a turn, given that `np.exp(1j * theta)` has modulus 1 and
      angle `theta` up to whole turns. */
  lemma GlobalOpInPhase(trig: Trig, phi: Frames, n: nat, f: nat, theta: real)
    requires n > 0 && forall g | 0 <= g < |phi| :: |phi[g]| == n
    requires f < |phi| && forall a | 0 <= a < n :: phi[f][a] == theta
    requires Modulus(trig, Cis(trig, theta)) == 1.0
    requires Wrap(Angle(trig, Cis(trig, theta))) == Wrap(theta)
    ensures GlobalOp(trig, phi, n).Success?
    ensures GlobalOp(trig, phi, n).value.0[f] == 1.0
    ensures GlobalOp(trig, phi, n).value.1[f] == Wrap(theta)
  {
    MeanOfCopies(Phasors(trig, phi[f]), Cis(trig, theta));
  }

  /** The source index `np.roll` by one place brings to position `i` of a
      periodic axis of length `n`: `(i - shift) % n`, written as a branch
      (`RollFromIsMod`). */
  function RollFrom(i: int, shift: int, n: int): (r: int)
    ensures 0 <= i < n ==> 0 <= r < n
  {
    if shift == 1 then Pred(i, n) else Succ(i, n)
  }

  lemma RollFromIsMod(i: int, shift: int, n: int)
    requires 0 <= i < n && (shift == 1 || shift == -1)
    ensures RollFrom(i, shift, n) == (i - shift) % n
  {
    PeriodicStep(i, n);
  }

  /** Entry `(i, j)` of a grid rolled by `shift` along `axis` (1 for the
      rows, 2 for the columns). */
  function Rolled<T>(g: seq<seq<T>>, rows: nat, cols: nat, axis: int, shift: int, i: nat, j: nat): T
    requires IsGrid(g, rows, cols) && i < rows && j < cols
  {
    if axis == 1 then g[RollFrom(i, shift, rows)][j] else g[i][RollFrom(j, shift, cols)]
  }

  /** `np.roll(a, shift, axis)` on a stack. */
  function Roll<T>(a: Stack<T>, rows: nat, cols: nat, axis: int, shift: int): (r: Stack<T>)
    requires Shaped(a, rows, cols)
    ensures |r| == |a| && Shaped(r, rows, cols)
    ensures forall f, i, j | 0 <= f < |a| && 0 <= i < rows && 0 <= j < cols ::
      r[f][i][j] == Rolled(a[f], rows, cols, axis, shift, i, j)
  {
    seq(|a|, f requires 0 <= f < |a| =>
      seq(rows, i requires 0 <= i < rows =>
        seq(cols, j requires 0 <= j < cols => Rolled(a[f], rows, cols, axis, shift, i, j))))
  }

  /** `np.exp(1j * phimat)`. */
  function CisStack(trig: Trig, m: Stack<real>, rows: nat, cols: nat): (c: Stack<Complex>)
    requires Shaped(m, rows, cols)
    ensures |c| == |m| && Shaped(c, rows, cols)
    ensures forall f, i, j | 0 <= f < |m| && 0 <= i < rows && 0 <= j < cols ::
      c[f][i][j] == Cis(trig, m[f][i][j])
  {
    seq(|m|, f requires 0 <= f < |m| =>
      seq(rows, i requires 0 <= i < rows =>
        seq(cols, j requires 0 <= j < cols => Cis(trig, m[f][i][j]))))
  }

  /** The five phasors `local_op` averages at `(i, j)`: the cell itself, the
      cell below and the cell above (periodically), the cell to the right
      and the cell to the left. */
  function Stencil(trig: Trig, g: seq<seq<real>>, rows: nat, cols: nat, i: nat, j: nat): (ns: seq<Complex>)
    requires IsGrid(g, rows, cols) && i < rows && j < cols
    ensures |ns| == 5
  {
    [Cis(trig, g[i][j]), Cis(trig, g[Succ(i, rows)][j]), Cis(trig, g[Pred(i, rows)][j]),
     Cis(trig, g[i][Succ(j, cols)]), Cis(trig, g[i][Pred(j, cols)])]
  }

  /** The mean of the cell and the four rolled copies at `(i, j)`. */
  function LocalMean(c: Complex, u: Complex, d: Complex, l: Complex, r: Complex): Complex
  {
    Mean([c, u, d, l, r])
  }

  /** The mean of the five phasors at every cell,
      `np.mean([cmat, push_u, push_d, push_l, push_r], axis=0)`. */
  function LocalMeans(trig: Trig, m: Stack<real>, rows: nat, cols: nat): (z: Stack<Complex>)
    requires Shaped(m, rows, cols)
    ensures |z| == |m| && Shaped(z, rows, cols)
    ensures forall f, i, j | 0 <= f < |m| && 0 <= i < rows && 0 <= j < cols ::
      z[f][i][j] == Mean(Stencil(trig, m[f], rows, cols, i, j))
  {
    var cmat := CisStack(trig, m, rows, cols);
    seq(|m|, f requires 0 <= f < |m| =>
      seq(rows, i requires 0 <= i < rows =>
        seq(cols, j requires 0 <= j < cols => PushMean(cmat[f], rows, cols, i, j))))
  }

  /** The mean at `(i, j)` of `cmat` and of `push_u`, `push_d`, `push_l` and
      `push_r`, its rolls by `-1` and `1` along the rows and the columns. */
  function PushMean(c: seq<seq<Complex>>, rows: nat, cols: nat, i: nat, j: nat): Complex
    requires IsGrid(c, rows, cols) && i < rows && j < cols
  {
    LocalMean(c[i][j], Rolled(c, rows, cols, 1, -1, i, j), Rolled(c, rows, cols, 1, 1, i, j),
              Rolled(c, rows, cols, 2, -1, i, j), Rolled(c, rows, cols, 2, 1, i, j))
  }

  /** `np.abs(z)` at every cell. */
  function ModulusStack(trig: Trig, z: Stack<Complex>, rows: nat, cols: nat): (r: Stack<real>)
    requires Shaped(z, rows, cols)
    ensures |r| == |z| && Shaped(r, rows, cols)
    ensures forall f, i, j | 0 <= f < |z| && 0 <= i < rows && 0 <= j < cols ::
      r[f][i][j] == Modulus(trig, z[f][i][j])
  {
    seq(|z|, f requires 0 <= f < |z| =>
      seq(rows, i requires 0 <= i < rows =>
        seq(cols, j requires 0 <= j < cols => Modulus(trig, z[f][i][j]))))
  }

  /** `np.angle(z) % (2 * np.pi)` at every cell. */
  function DirectionStack(trig: Trig, z: Stack<Complex>, rows: nat, cols: nat): (r: Stack<real>)
    requires Shaped(z, rows, cols)
    ensures |r| == |z| && Shaped(r, rows, cols)
    ensures forall f, i, j | 0 <= f < |z| && 0 <= i < rows && 0 <= j < cols ::
      r[f][i][j] == Direction(trig, z[f][i][j])
  {
    seq(|z|, f requires 0 <= f < |z| =>
      seq(rows, i requires 0 <= i < rows =>
        seq(cols, j requires 0 <= j < cols => Direction(trig, z[f][i][j]))))
  }

  /** `local_op(phimat)`: at every cell the mean of the phasors of the cell
      and of its four periodic neighbours gives the local order parameter
      (its modulus) and the local phase (its angle in `[0, P)`). */
  function LocalOp(trig: Trig, m: Stack<real>, rows: nat, cols: nat): (r: (Stack<real>, Stack<real>))
    requires Shaped(m, rows, cols)
    ensures |r.0| == |m| && |r.1| == |m| && Shaped(r.0, rows, cols) && Shaped(r.1, rows, cols)
    ensures forall f, i, j | 0 <= f < |m| && 0 <= i < rows && 0 <= j < cols ::
      r.0[f][i][j] == Modulus(trig, Mean(Stencil(trig, m[f], rows, cols, i, j))) &&
      r.1[f][i][j] == Direction(trig, Mean(Stencil(trig, m[f], rows, cols, i, j)))
  {
    var z := LocalMeans(trig, m, rows, cols);
    (ModulusStack(trig, z, rows, cols), DirectionStack(trig, z, rows, cols))
  }

  /** Where a cell and its four neighbours are in phase at `theta`, the
      local order parameter is 1 and the local phase is `theta` modulo a
      turn, given that `np.exp(1j * theta)` has modulus 1 and angle `theta`
      up to whole turns. */
  lemma LocalOpInPhase(trig: Trig, m: Stack<real>, rows: nat, cols: nat, f: nat, i: nat, j: nat, theta: real)
    requires Shaped(m, rows, cols) && f < |m| && i < rows && j < cols
    requires forall e | 0 <= e < 5 :: Stencil(trig, m[f], rows, cols, i, j)[e] == Cis(trig, theta)
    requires Modulus(trig, Cis(trig, theta)) == 1.0
    requires Wrap(Angle(trig, Cis(trig, theta))) == Wrap(theta)
    ensures LocalOp(trig, m, rows, cols).0[f][i][j] == 1.0
    ensures LocalOp(trig, m, rows, cols).1[f][i][j] == Wrap(theta)
  {
    MeanOfCopies(Stencil(trig, m[f], rows, cols, i, j), Cis(trig, theta));
  }

  // ---------------------------------------------------------------------
  // Element-wise arithmetic on stacks

  function Zeros(frames: nat, rows: nat, cols: nat): (z: Stack<real>)
    ensures |z| == frames && Shaped(z, rows, cols)
    ensures forall f, i, j | 0 <= f < frames && 0 <= i < rows && 0 <= j < cols :: z[f][i][j] == 0.0
  {
    seq(frames, f => seq(rows, i => seq(cols, j => 0.0)))
  }

  function Sub(a: Stack<real>, b: Stack<real>, rows: nat, cols: nat): (r: Stack<real>)
    requires |a| == |b| && Shaped(a, rows, cols) && Shaped(b, rows, cols)
    ensures |r| == |a| && Shaped(r, rows, cols)
    ensures forall f, i, j | 0 <= f < |a| && 0 <= i < rows && 0 <= j < cols ::
      r[f][i][j] == a[f][i][j] - b[f][i][j]
  {
    seq(|a|, f requires 0 <= f < |a| =>
      seq(rows, i requires 0 <= i < rows =>
        seq(cols, j requires 0 <= j < cols => a[f][i][j] - b[f][i][j])))
  }

  function Sum(a: Stack<real>, b: Stack<real>, rows: nat, cols: nat): (r: Stack<real>)
    requires |a| == |b| && Shaped(a, rows, cols) && Shaped(b, rows, cols)
    ensures |r| == |a| && Shaped(r, rows, cols)
    ensures forall f, i, j | 0 <= f < |a| && 0 <= i < rows && 0 <= j < cols ::
      r[f][i][j] == a[f][i][j] + b[f][i][j]
  {
    seq(|a|, f requires 0 <= f < |a| =>
      seq(rows, i requires 0 <= i < rows =>
        seq(cols, j requires 0 <= j < cols => a[f][i][j] + b[f][i][j])))
  }

  function AbsStack(a: Stack<real>, rows: nat, cols: nat): (r: Stack<real>)
    requires Shaped(a, rows, cols)
    ensures |r| == |a| && Shaped(r, rows, cols)
    ensures forall f, i, j | 0 <= f < |a| && 0 <= i < rows && 0 <= j < cols ::
      r[f][i][j] == RealAbs(a[f][i][j])
  {
    seq(|a|, f requires 0 <= f < |a| =>
      seq(rows, i requires 0 <= i < rows =>
        seq(cols, j requires 0 <= j < cols => RealAbs(a[f][i][j]))))
  }

  function Quotient(a: Stack<real>, d: Positive, rows: nat, cols: nat): (r: Stack<real>)
    requires Shaped(a, rows, cols)
    ensures |r| == |a| && Shaped(r, rows, cols)
    ensures forall f, i, j | 0 <= f < |a| && 0 <= i < rows && 0 <= j < cols ::
      r[f][i][j] == a[f][i][j] / d
  {
    seq(|a|, f requires 0 <= f < |a| =>
      seq(rows, i requires 0 <= i < rows =>
        seq(cols, j requires 0 <= j < cols => a[f][i][j] / d)))
  }

  // ---------------------------------------------------------------------
  // curvature

  /** `np.amin(np.abs(dphi), axis=0)` for the candidates `pp - P`, `pp`,
      `pp + P`. */
  function Nearest(pp: real): (r: real)
    ensures r == RealAbs(pp - P) || r == RealAbs(pp) || r == RealAbs(pp + P)
    ensures r <= RealAbs(pp - P) && r <= RealAbs(pp) && r <= RealAbs(pp + P)
  {
    var below, at, above := RealAbs(pp - P), RealAbs(pp), RealAbs(pp + P);
    if below <= at && below <= above then below
    else if at <= above then at
    else above
  }

  /** `np.sum(dphi, axis=0)` after `dphi[c1 != c2] = 0`, which keeps a
      candidate among `pp - P`, `pp` and `pp + P` only when its magnitude is
      the least one. Exactly one candidate is kept, except at half a turn
      either way, where two tie and cancel. */
  function Selected(pp: real): (r: real)
    ensures RealAbs(pp) == Pi() ==> r == 0.0
    ensures RealAbs(pp) != Pi() ==> (r == pp - P || r == pp || r == pp + P) && RealAbs(r) == Nearest(pp)
  {
    var least := Nearest(pp);
    (if RealAbs(pp - P) == least then pp - P else 0.0) +
    (if RealAbs(pp) == least then pp else 0.0) +
    (if RealAbs(pp + P) == least then pp + P else 0.0)
  }

  /** For a difference of two phases in `[0, P)` the selection is the
      difference brought into `(-Pi, Pi)` by a whole turn, the correction
      `gradient` makes, except at exactly half a turn, where the two tied
      candidates cancel. */
  lemma SelectedIsCentral(pp: real)
    requires 0.0 - P < pp < P
    ensures RealAbs(pp) != Pi() ==> Selected(pp) == WrapCentral(pp) && -Pi() < Selected(pp) < Pi()
    ensures RealAbs(pp) == Pi() ==> Selected(pp) == 0.0
  {
    if pp < -Pi() {
      assert Nearest(pp) == pp + P;
    } else if pp == -Pi() {
      assert Nearest(pp) == Pi();
    } else if pp < Pi() {
      assert Nearest(pp) == RealAbs(pp);
    } else if pp == Pi() {
      assert Nearest(pp) == Pi();
    } else {
      assert Nearest(pp) == P - pp;
    }
  }

  /** `dl` at `(i, j)` for axis `ax`: the selected difference to the phase
      `np.roll(., -1, ax)` brings, plus the one to the phase `np.roll(., 1,
      ax)` brings. */
  function AxisTurn(g: seq<seq<real>>, rows: nat, cols: nat, ax: int, i: nat, j: nat): real
    requires IsGrid(g, rows, cols) && i < rows && j < cols
  {
    Selected(Rolled(g, rows, cols, ax, -1, i, j) - g[i][j]) +
    Selected(Rolled(g, rows, cols, ax, 1, i, j) - g[i][j])
  }

  /** `curvature` at `(i, j)`: `(|dl| for the rows + |dl| for the columns) /
      (4 * np.pi)`; `4 * np.pi` is `2 P` exactly in doubles. */
  function CurvatureAt(g: seq<seq<real>>, rows: nat, cols: nat, i: nat, j: nat): (r: real)
    requires IsGrid(g, rows, cols) && i < rows && j < cols
    ensures 0.0 <= r
    ensures r == 0.0 <==> AxisTurn(g, rows, cols, 1, i, j) == 0.0 && AxisTurn(g, rows, cols, 2, i, j) == 0.0
  {
    (RealAbs(AxisTurn(g, rows, cols, 1, i, j)) + RealAbs(AxisTurn(g, rows, cols, 2, i, j))) / (2.0 * P)
  }

  /** `curvature(phimat)`: the curvature of every cell of every frame; it
      has the shape of the input and is never negative. */
  function CurvatureField(m: Stack<real>, rows: nat, cols: nat): (c: Stack<real>)
    requires Shaped(m, rows, cols)
    ensures |c| == |m| && Shaped(c, rows, cols)
    ensures forall f, i, j | 0 <= f < |m| && 0 <= i < rows && 0 <= j < cols :: 0.0 <= c[f][i][j]
    ensures forall f, i, j | 0 <= f < |m| && 0 <= i < rows && 0 <= j < cols ::
      c[f][i][j] == CurvatureAt(m[f], rows, cols, i, j)
  {
    seq(|m|, f requires 0 <= f < |m| =>
      seq(rows, i requires 0 <= i < rows =>
        seq(cols, j requires 0 <= j < cols => CurvatureAt(m[f], rows, cols, i, j))))
  }

  /** `dl` after the pushes `0 <= q <= 2` of axis `ax`. */
  function TurnSoFar(g: seq<seq<real>>, rows: nat, cols: nat, ax: int, q: int, i: nat, j: nat): real
    requires IsGrid(g, rows, cols) && i < rows && j < cols
  {
    if q <= 0 then 0.0
    else if q == 1 then Selected(Rolled(g, rows, cols, ax, -1, i, j) - g[i][j])
    else AxisTurn(g, rows, cols, ax, i, j)
  }

  /** `laplace` after the axes `1 <= ax < 3` before `ax`. */
  function LaplaceSoFar(g: seq<seq<real>>, rows: nat, cols: nat, ax: int, i: nat, j: nat): real
    requires IsGrid(g, rows, cols) && i < rows && j < cols
  {
    if ax <= 1 then 0.0
    else if ax == 2 then RealAbs(AxisTurn(g, rows, cols, 1, i, j))
    else RealAbs(AxisTurn(g, rows, cols, 1, i, j)) + RealAbs(AxisTurn(g, rows, cols, 2, i, j))
  }

  /** The selection at every cell of a stack of differences. */
  function SelectStack(pp: Stack<real>, rows: nat, cols: nat): (r: Stack<real>)
    requires Shaped(pp, rows, cols)
    ensures |r| == |pp| && Shaped(r, rows, cols)
    ensures forall f, i, j | 0 <= f < |pp| && 0 <= i < rows && 0 <= j < cols ::
      r[f][i][j] == Selected(pp[f][i][j])
  {
    seq(|pp|, f requires 0 <= f < |pp| =>
      seq(rows, i requires 0 <= i < rows =>
        seq(cols, j requires 0 <= j < cols => Selected(pp[f][i][j]))))
  }

  /** `dl` for one axis: the loop over `[push_b, push_f]`. */
  method AxisTurns(phimat: Stack<real>, rows: nat, cols: nat, ax: int) returns (dl: Stack<real>)
    requires Shaped(phimat, rows, cols)
    ensures |dl| == |phimat| && Shaped(dl, rows, cols)
    ensures forall f, i, j | 0 <= f < |phimat| && 0 <= i < rows && 0 <= j < cols ::
      dl[f][i][j] == AxisTurn(phimat[f], rows, cols, ax, i, j)
  {
    dl := Zeros(|phimat|, rows, cols);
    for q := 0 to 2
      invariant |dl| == |phimat| && Shaped(dl, rows, cols)
      invariant forall f, i, j | 0 <= f < |phimat| && 0 <= i < rows && 0 <= j < cols ::
        dl[f][i][j] == TurnSoFar(phimat[f], rows, cols, ax, q, i, j)
    {
      dl := AddPush(phimat, rows, cols, ax, q, dl);
    }
  }

  /** One pass of the loop over the pushes: `push_b` (`np.roll(., -1, ax)`)
      for `q == 0`, `push_f` (`np.roll(., 1, ax)`) for `q == 1`. */
  method AddPush(phimat: Stack<real>, rows: nat, cols: nat, ax: int, q: int, dl: Stack<real>)
    returns (next: Stack<real>)
    requires Shaped(phimat, rows, cols) && 0 <= q < 2
    requires |dl| == |phimat| && Shaped(dl, rows, cols)
    requires forall f, i, j | 0 <= f < |phimat| && 0 <= i < rows && 0 <= j < cols ::
      dl[f][i][j] == TurnSoFar(phimat[f], rows, cols, ax, q, i, j)
    ensures |next| == |phimat| && Shaped(next, rows, cols)
    ensures forall f, i, j | 0 <= f < |phimat| && 0 <= i < rows && 0 <= j < cols ::
      next[f][i][j] == TurnSoFar(phimat[f], rows, cols, ax, q + 1, i, j)
  {
    var shift := if q == 0 then -1 else 1;
    var push := Roll(phimat, rows, cols, ax, shift);
    var pp := Sub(push, phimat, rows, cols);
    next := Sum(dl, SelectStack(pp, rows, cols), rows, cols);
  }

  /** `curvature(phimat)`: for each axis `dl` gathers the selected
      differences to the two rolled copies and `laplace` gathers `|dl|`;
      the result is `laplace / (4 * np.pi)`. */
  method Curvature(phimat: Stack<real>, rows: nat, cols: nat) returns (curv: Stack<real>)
    requires Shaped(phimat, rows, cols)
    ensures curv == CurvatureField(phimat, rows, cols)
  {
    var laplace := Zeros(|phimat|, rows, cols);
    for ax := 1 to 3
      invariant |laplace| == |phimat| && Shaped(laplace, rows, cols)
      invariant forall f, i, j | 0 <= f < |phimat| && 0 <= i < rows && 0 <= j < cols ::
        laplace[f][i][j] == LaplaceSoFar(phimat[f], rows, cols, ax, i, j)
    {
      var dl := AxisTurns(phimat, rows, cols, ax);
      laplace := Sum(laplace, AbsStack(dl, rows, cols), rows, cols);
    }
    curv := Quotient(laplace, 2.0 * P, rows, cols);
    StackExt(curv, CurvatureField(phimat, rows, cols), rows, cols);
  }

  /** Phases of a grid within one turn, `[0, P)`. */
  ghost predicate InTurn(g: seq<seq<real>>, rows: nat, cols: nat)
    requires IsGrid(g, rows, cols)
  {
    forall i, j | 0 <= i < rows && 0 <= j < cols :: 0.0 <= g[i][j] < P
  }

  /** A uniform field has no curvature anywhere. */
  lemma FlatCurvature(g: seq<seq<real>>, rows: nat, cols: nat, theta: real, i: nat, j: nat)
    requires IsGrid(g, rows, cols) && i < rows && j < cols
    requires forall a, b | 0 <= a < rows && 0 <= b < cols :: g[a][b] == theta
    ensures CurvatureAt(g, rows, cols, i, j) == 0.0
  {
    assert Nearest(0.0) == 0.0;
    assert Selected(0.0) == 0.0;
  }

  /** The curvature of phases within one turn lies in `[0, 1]`: each
      selected difference is at most half a turn. */
  lemma CurvatureBounds(g: seq<seq<real>>, rows: nat, cols: nat, i: nat, j: nat)
    requires IsGrid(g, rows, cols) && i < rows && j < cols && InTurn(g, rows, cols)
    ensures 0.0 <= CurvatureAt(g, rows, cols, i, j) <= 1.0
  {
    AxisTurnBound(g, rows, cols, 1, i, j);
    AxisTurnBound(g, rows, cols, 2, i, j);
    var s := RealAbs(AxisTurn(g, rows, cols, 1, i, j)) + RealAbs(AxisTurn(g, rows, cols, 2, i, j));
    assert 0.0 <= s <= 2.0 * P;
    assert s / (2.0 * P) <= 1.0;
  }

  /** `|dl|` for phases within one turn is at most a turn. */
  lemma AxisTurnBound(g: seq<seq<real>>, rows: nat, cols: nat, ax: int, i: nat, j: nat)
    requires IsGrid(g, rows, cols) && i < rows && j < cols && InTurn(g, rows, cols)
    ensures RealAbs(AxisTurn(g, rows, cols, ax, i, j)) <= P
  {
    SelectedIsCentral(Rolled(g, rows, cols, ax, -1, i, j) - g[i][j]);
    SelectedIsCentral(Rolled(g, rows, cols, ax, 1, i, j) - g[i][j]);
  }

  // ---------------------------------------------------------------------
  // gradient

  /** The velocity component of `gradient` along `axis` at `(i, j)`: the
      phase `np.roll(., 1, axis)` brings minus the one `np.roll(., -1,
      axis)` brings, corrected into `[-Pi, Pi]` and halved (the distance
      `2h` between the two samples). */
  function Velocity(g: seq<seq<real>>, rows: nat, cols: nat, axis: int, i: nat, j: nat): (v: real)
    requires IsGrid(g, rows, cols) && i < rows && j < cols
    ensures var d := Rolled(g, rows, cols, axis, 1, i, j) - Rolled(g, rows, cols, axis, -1, i, j);
      (2.0 * v == d || 2.0 * v == d - P || 2.0 * v == d + P) &&
      (-Pi() <= d <= Pi() ==> 2.0 * v == d) &&
      (-3.0 * Pi() <= d <= 3.0 * Pi() ==> -Pi() / 2.0 <= v <= Pi() / 2.0)
  {
    WrapCentral(Rolled(g, rows, cols, axis, 1, i, j) - Rolled(g, rows, cols, axis, -1, i, j)) / 2.0
  }

  /** For phases within one turn each velocity component is at most a
      quarter turn either way, and twice it is the raw central difference
      up to one whole turn. */
  lemma VelocityRange(g: seq<seq<real>>, rows: nat, cols: nat, axis: int, i: nat, j: nat)
    requires IsGrid(g, rows, cols) && i < rows && j < cols && InTurn(g, rows, cols)
    ensures -Pi() / 2.0 <= Velocity(g, rows, cols, axis, i, j) <= Pi() / 2.0
    ensures var d := Rolled(g, rows, cols, axis, 1, i, j) - Rolled(g, rows, cols, axis, -1, i, j);
      var v := 2.0 * Velocity(g, rows, cols, axis, i, j);
      v == d || v == d - P || v == d + P
  {
    WrapCentralRange(Rolled(g, rows, cols, axis, 1, i, j) - Rolled(g, rows, cols, axis, -1, i, j));
  }

  /** `laplace > 0.05` on one frame. */
  function Threshold(c: seq<seq<real>>, rows: nat, cols: nat): (b: Mask)
    requires IsGrid(c, rows, cols)
    ensures IsGrid(b, rows, cols)
    ensures forall i, j | 0 <= i < rows && 0 <= j < cols :: b[i][j] == (c[i][j] > 0.05)
  {
    seq(rows, i requires 0 <= i < rows => seq(cols, j requires 0 <= j < cols => c[i][j] > 0.05))
  }

  /** `cv2.morphologyEx(b, cv2.MORPH_CLOSE, np.ones((3, 3)))`, taken as a
      parameter. */
  function Close(close: Mask -> Mask, b: Mask): Mask
  {
    close(b)
  }

  ghost predicate Covers(big: Mask, small: Mask, rows: nat, cols: nat)
    requires IsGrid(big, rows, cols) && IsGrid(small, rows, cols)
  {
    forall i, j | 0 <= i < rows && 0 <= j < cols :: small[i][j] ==> big[i][j]
  }

  /** What the model assumes of the closing: it keeps the shape of the
      frame and every set cell (a closing is extensive). */
  ghost predicate Extensive(close: Mask -> Mask, rows: nat, cols: nat)
  {
    forall b: Mask | IsGrid(b, rows, cols) ::
      IsGrid(Close(close, b), rows, cols) && Covers(Close(close, b), b, rows, cols)
  }

  /** The spiral-core mask of frame `f`: the closing of the cells whose
      curvature exceeds 0.05. */
  function Core(close: Mask -> Mask, m: Stack<real>, rows: nat, cols: nat, f: nat): (b: Mask)
    requires Shaped(m, rows, cols) && f < |m| && Extensive(close, rows, cols)
    ensures IsGrid(b, rows, cols)
  {
    Close(close, Threshold(CurvatureField(m, rows, cols)[f], rows, cols))
  }

  /** A cell whose curvature exceeds 0.05 lies in the core mask. */
  lemma CoreCoversCurved(close: Mask -> Mask, m: Stack<real>, rows: nat, cols: nat, f: nat, i: nat, j: nat)
    requires Shaped(m, rows, cols) && f < |m| && Extensive(close, rows, cols)
    requires i < rows && j < cols && CurvatureAt(m[f], rows, cols, i, j) > 0.05
    ensures Core(close, m, rows, cols, f)[i][j]
  {
    var t := Threshold(CurvatureField(m, rows, cols)[f], rows, cols);
    assert t[i][j];
    assert Covers(Close(close, t), t, rows, cols);
  }

  /** A velocity component of frame `f` after the core exclusion. */
  function Masked(close: Mask -> Mask, m: Stack<real>, rows: nat, cols: nat, f: nat, axis: int, i: nat, j: nat): real
    requires Shaped(m, rows, cols) && f < |m| && Extensive(close, rows, cols)
    requires i < rows && j < cols
  {
    if Core(close, m, rows, cols, f)[i][j] then 0.0 else Velocity(m[f], rows, cols, axis, i, j)
  }

  /** The velocity field before the core exclusion: the rolled difference
      along `axis`, corrected by a turn where it exceeds `np.pi` either way,
      then halved. */
  function RawVelocity(pc: Stack<real>, rows: nat, cols: nat, axis: int): (v: Stack<real>)
    requires Shaped(pc, rows, cols)
    ensures |v| == |pc| && Shaped(v, rows, cols)
    ensures forall f, i, j | 0 <= f < |pc| && 0 <= i < rows && 0 <= j < cols ::
      v[f][i][j] == Velocity(pc[f], rows, cols, axis, i, j)
  {
    var d := Sub(Roll(pc, rows, cols, axis, 1), Roll(pc, rows, cols, axis, -1), rows, cols);
    seq(|pc|, f requires 0 <= f < |pc| =>
      seq(rows, i requires 0 <= i < rows =>
        seq(cols, j requires 0 <= j < cols => WrapCentral(d[f][i][j]) / 2.0)))
  }

  /** `v[morphed] = 0` on one frame. */
  function ZeroWhere(v: seq<seq<real>>, mask: Mask, rows: nat, cols: nat): (r: seq<seq<real>>)
    requires IsGrid(v, rows, cols) && IsGrid(mask, rows, cols)
    ensures IsGrid(r, rows, cols)
    ensures forall i, j | 0 <= i < rows && 0 <= j < cols :: r[i][j] == if mask[i][j] then 0.0 else v[i][j]
  {
    seq(rows, i requires 0 <= i < rows =>
      seq(cols, j requires 0 <= j < cols => if mask[i][j] then 0.0 else v[i][j]))
  }

  /** The component `v` along `axis` is masked in the frames before `f` and
      untouched in the others. */
  ghost predicate MaskedUpTo(close: Mask -> Mask, pc: Stack<real>, rows: nat, cols: nat, axis: int,
                             v: Stack<real>, f: nat)
    requires Shaped(pc, rows, cols) && Extensive(close, rows, cols)
    requires |v| == |pc| && Shaped(v, rows, cols)
  {
    (forall g, i, j | f <= g < |pc| && 0 <= i < rows && 0 <= j < cols ::
       v[g][i][j] == Velocity(pc[g], rows, cols, axis, i, j)) &&
    (forall g, i, j | 0 <= g < f && g < |pc| && 0 <= i < rows && 0 <= j < cols ::
       v[g][i][j] == Masked(close, pc, rows, cols, g, axis, i, j))
  }

  /** `v[f][morphed] = 0` for the core mask `morphed` of frame `f`. */
  method MaskFrame(close: Mask -> Mask, pc: Stack<real>, rows: nat, cols: nat, axis: int,
                   v: Stack<real>, f: nat, morphed: Mask) returns (w: Stack<real>)
    requires Shaped(pc, rows, cols) && Extensive(close, rows, cols) && f < |pc|
    requires |v| == |pc| && Shaped(v, rows, cols) && MaskedUpTo(close, pc, rows, cols, axis, v, f)
    requires morphed == Core(close, pc, rows, cols, f)
    ensures |w| == |pc| && Shaped(w, rows, cols) && MaskedUpTo(close, pc, rows, cols, axis, w, f + 1)
  {
    w := v[f := ZeroWhere(v[f], morphed, rows, cols)];
  }

  /** `gradient(phimat)`: the phase-gradient velocity field `(vx, vy)`,
      zeroed frame by frame on the closed mask of cells of curvature above
      0.05, so that the field vanishes wherever the curvature exceeds 0.05. */
  method Gradient(phimat: Stack<real>, rows: nat, cols: nat, close: Mask -> Mask)
    returns (vx: Stack<real>, vy: Stack<real>)
    requires Shaped(phimat, rows, cols) && Extensive(close, rows, cols)
    ensures |vx| == |phimat| && |vy| == |phimat| && Shaped(vx, rows, cols) && Shaped(vy, rows, cols)
    ensures forall f, i, j | 0 <= f < |phimat| && 0 <= i < rows && 0 <= j < cols ::
      vx[f][i][j] == Masked(close, phimat, rows, cols, f, 2, i, j) &&
      vy[f][i][j] == Masked(close, phimat, rows, cols, f, 1, i, j)
    ensures forall f, i, j | 0 <= f < |phimat| && 0 <= i < rows && 0 <= j < cols ::
      CurvatureAt(phimat[f], rows, cols, i, j) > 0.05 ==> vx[f][i][j] == 0.0 && vy[f][i][j] == 0.0
  {
    var pc := phimat;
    vx := RawVelocity(pc, rows, cols, 2);
    vy := RawVelocity(pc, rows, cols, 1);
    var laplace := Curvature(pc, rows, cols);
    for f := 0 to |pc|
      invariant |vx| == |pc| && Shaped(vx, rows, cols) && MaskedUpTo(close, pc, rows, cols, 2, vx, f)
      invariant |vy| == |pc| && Shaped(vy, rows, cols) && MaskedUpTo(close, pc, rows, cols, 1, vy, f)
    {
      var morphed := Close(close, Threshold(laplace[f], rows, cols));
      vx := MaskFrame(close, pc, rows, cols, 2, vx, f, morphed);
      vy := MaskFrame(close, pc, rows, cols, 1, vy, f, morphed);
    }
    forall f, i, j | 0 <= f < |phimat| && 0 <= i < rows && 0 <= j < cols &&
      CurvatureAt(phimat[f], rows, cols, i, j) > 0.05
      ensures vx[f][i][j] == 0.0 && vy[f][i][j] == 0.0
    {
      CoreCoversCurved(close, phimat, rows, cols, f, i, j);
    }
  }
}
