/** The Kuramoto integrator of `kurapy/model.py`: a model holds natural
    frequencies, a coupling matrix, a phase shift, a noise level and an
    optional control mask, and `evolve` fills a trajectory of phase vectors
    row by row with forward Euler or RK4, wrapping every new row into
    `[0, 2 pi)` and then, when a mask is given, overriding the controlled
    sites. */
module Model {
  import opened Base
  import opened Phase

  type Vector = seq<real>
  type Grid = seq<seq<real>>

  /** The random stream: `draws(call, site)` is the standard-normal draw that
      the `call`-th evaluation of the derivative uses at `site`. */
  type Draws = (nat, nat) -> real

  function Draw(draws: Draws, call: nat, site: nat): real { draws(call, site) }

  datatype Method = ForwardEuler | RK4

  /** `method in self._methods`: the two names, compared exactly. */
  function ParseMethod(name: string): (r: Option<Method>)
    ensures r == Some(ForwardEuler) <==> name == "forward_euler"
    ensures r == Some(RK4) <==> name == "rk4"
    ensures r == None <==> name != "forward_euler" && name != "rk4"
  {
    if name == "forward_euler" then Some(ForwardEuler)
    else if name == "rk4" then Some(RK4)
    else None
  }

  /** The fields `Model.__init__` stores; none of them changes afterwards. */
  datatype Model = Model(freq: Vector, coupling: Grid, shift: real, noise: real,
                         control: Option<Grid>)
  {
    /** `len(freq)`. */
    function N(): nat { |freq| }

    /** `int(np.sqrt(N))`, the side of the square grid. */
    function L(): (l: nat)
      ensures Square(l) <= |freq| < Square(l + 1)
    {
      FloorSqrt(|freq|)
    }

    /** The shapes the source's array operations need: an `N x N` coupling
        matrix and, when a control mask is given, an `L x L` mask over a
        perfect-square number of oscillators. */
    ghost predicate WellFormed()
    {
      IsTable(coupling, |freq|) &&
      (control.Some? ==> |freq| == Square(L()) && IsTable(control.value, L()))
    }
  }

  /** A model of `l * l` oscillators has side `l`. */
  lemma {:induction false} SideOfSquare(m: Model, l: nat)
    requires m.N() == Square(l)
    ensures m.L() == l
  {
    FloorSqrtOfSquare(l);
  }

  // ---------------------------------------------------------------------
  // The derivative.

  /** No site `j < upto` acts on site `i` at `phi`: each term of its column
      sum has a zero coupling or a zero sine. */
  ghost predicate ColumnQuiet(m: Model, trig: Trig, phi: Vector, i: nat, upto: nat)
    requires IsTable(m.coupling, m.N()) && |phi| == m.N() && i < m.N() && upto <= m.N()
  {
    forall j | 0 <= j < upto :: m.coupling[j][i] == 0.0 || Sin(trig, phi[j] - phi[i] + m.shift) == 0.0
  }

  /** The sum over `j < upto` of `K[j][i] * sin(phi[j] - phi[i] + shift)`:
      column `i` of the weighted sine matrix, summed along `axis=0`. It
      vanishes when no site acts on site `i`. */
  function Interaction(m: Model, trig: Trig, phi: Vector, i: nat, upto: nat): (r: real)
    requires IsTable(m.coupling, m.N()) && |phi| == m.N() && i < m.N() && upto <= m.N()
    ensures ColumnQuiet(m, trig, phi, i, upto) ==> r == 0.0
    decreases upto
  {
    if upto == 0 then 0.0
    else
      Interaction(m, trig, phi, i, upto - 1) +
      m.coupling[upto - 1][i] * Sin(trig, phi[upto - 1] - phi[i] + m.shift)
  }

  /** The standard-normal draws of one call of the derivative. */
  function Noise(draws: Draws, call: nat, n: nat): (z: Vector)
    ensures |z| == n
  {
    seq(n, i requires 0 <= i < n => Draw(draws, call, i))
  }

  /** A normal draw `z` of scale `noise * pi`; without noise it vanishes. */
  function NoiseKick(noise: real, z: real): (r: real)
    ensures noise == 0.0 ==> r == 0.0
  {
    noise * Pi() * z
  }

  /** The inner `dpdt` at site `i`: natural frequency, plus the interaction
      divided by `N`, plus a normal draw of scale `noise * pi`. A site that
      no site acts on moves at its natural frequency when there is no
      noise. */
  function Rate(m: Model, trig: Trig, phi: Vector, z: Vector, i: nat): (r: real)
    requires IsTable(m.coupling, m.N()) && |phi| == m.N() && |z| == m.N() && i < m.N()
    ensures m.noise == 0.0 && ColumnQuiet(m, trig, phi, i, m.N()) ==> r == m.freq[i]
  {
    m.freq[i] + Interaction(m, trig, phi, i, m.N()) / (m.N() as real) + NoiseKick(m.noise, z[i])
  }

  /** The inner `dpdt`, site by site. */
  function Dpdt(m: Model, trig: Trig, phi: Vector, z: Vector): (r: Vector)
    requires IsTable(m.coupling, m.N()) && |phi| == m.N() && |z| == m.N()
    ensures |r| == m.N()
  {
    seq(m.N(), i requires 0 <= i < m.N() => Rate(m, trig, phi, z, i))
  }

  /** No pair interacts at `phi`: each term of every column sum has a zero
      coupling or a zero sine. */
  ghost predicate Quiet(m: Model, trig: Trig, phi: Vector)
    requires IsTable(m.coupling, m.N())
  {
    |phi| == m.N() &&
    forall i, j | 0 <= i < m.N() && 0 <= j < m.N() ::
      m.coupling[j][i] == 0.0 || Sin(trig, phi[j] - phi[i] + m.shift) == 0.0
  }

  lemma {:induction false} InteractionVanishes(m: Model, trig: Trig, phi: Vector, i: nat, upto: nat)
    requires IsTable(m.coupling, m.N()) && Quiet(m, trig, phi) && i < m.N() && upto <= m.N()
    ensures Interaction(m, trig, phi, i, upto) == 0.0
    decreases upto
  {
    if upto > 0 {
      InteractionVanishes(m, trig, phi, i, upto - 1);
      assert m.coupling[upto - 1][i] == 0.0 || Sin(trig, phi[upto - 1] - phi[i] + m.shift) == 0.0;
    }
  }

  /** Without interaction and without noise a site moves at its natural
      frequency. */
  lemma {:induction false} RateIsFrequency(m: Model, trig: Trig, phi: Vector, z: Vector, i: nat)
    requires IsTable(m.coupling, m.N()) && Quiet(m, trig, phi) && |z| == m.N() && i < m.N()
    requires m.noise == 0.0
    ensures Rate(m, trig, phi, z, i) == m.freq[i]
  {
    InteractionVanishes(m, trig, phi, i, m.N());
  }

  /** Without interaction and without noise the derivative is exactly the
      vector of natural frequencies. */
  lemma {:induction false} DpdtIsFrequency(m: Model, trig: Trig, phi: Vector, z: Vector)
    requires IsTable(m.coupling, m.N()) && Quiet(m, trig, phi) && |z| == m.N()
    requires m.noise == 0.0
    ensures Dpdt(m, trig, phi, z) == m.freq
  {
    forall i | 0 <= i < m.N()
      ensures Dpdt(m, trig, phi, z)[i] == m.freq[i]
    {
      RateIsFrequency(m, trig, phi, z, i);
    }
  }

  /** A zero coupling matrix makes every phase vector quiet. */
  lemma UncoupledIsQuiet(m: Model, trig: Trig, phi: Vector)
    requires IsTable(m.coupling, m.N()) && |phi| == m.N()
    requires forall a, b | 0 <= a < m.N() && 0 <= b < m.N() :: m.coupling[a][b] == 0.0
    ensures Quiet(m, trig, phi)
  {
  }

  ghost predicate Uniform(v: Vector, x: real)
  {
    forall a | 0 <= a < |v| :: v[a] == x
  }

  /** With no phase shift, a vector of equal phases is quiet once `sin 0 = 0`. */
  lemma InPhaseIsQuiet(m: Model, trig: Trig, phi: Vector, x: real)
    requires IsTable(m.coupling, m.N()) && |phi| == m.N() && Uniform(phi, x)
    requires m.shift == 0.0 && Sin(trig, 0.0) == 0.0
    ensures Quiet(m, trig, phi)
  {
    forall i, j | 0 <= i < m.N() && 0 <= j < m.N()
      ensures Sin(trig, phi[j] - phi[i] + m.shift) == 0.0
    {
      assert phi[j] - phi[i] + m.shift == 0.0;
    }
  }

  // ---------------------------------------------------------------------
  // The two stepping schemes.

  /** `x + a * y`. */
  function Axpy(x: Vector, a: real, y: Vector): (r: Vector)
    requires |x| == |y|
    ensures |r| == |x|
  {
    seq(|x|, i requires 0 <= i < |x| => x[i] + a * y[i])
  }

  /** `k1 + 2 * k2 + 2 * k3 + k4`. */
  function Combine(k1: Vector, k2: Vector, k3: Vector, k4: Vector): (r: Vector)
    requires |k2| == |k1| && |k3| == |k1| && |k4| == |k1|
    ensures |r| == |k1|
  {
    seq(|k1|, i requires 0 <= i < |k1| => k1[i] + 2.0 * k2[i] + 2.0 * k3[i] + k4[i])
  }

  /** `x % (2 * np.pi)` on every entry. */
  function WrapAll(x: Vector): (r: Vector)
    ensures |r| == |x| && forall i | 0 <= i < |x| :: 0.0 <= r[i] < P
  {
    seq(|x|, i requires 0 <= i < |x| => Wrap(x[i]))
  }

  /** One forward-Euler step from row `i`; it uses the `i`-th draws. */
  function EulerStep(m: Model, trig: Trig, draws: Draws, dt: real, row: Vector, i: nat): (r: Vector)
    requires IsTable(m.coupling, m.N()) && |row| == m.N()
    ensures |r| == m.N() && forall a | 0 <= a < |r| :: 0.0 <= r[a] < P
  {
    WrapAll(Axpy(row, dt, Dpdt(m, trig, row, Noise(draws, i, m.N()))))
  }

  /** One classical RK4 step from row `i`; its four stages use the draws of
      calls `4i` to `4i + 3`. */
  function RK4Step(m: Model, trig: Trig, draws: Draws, dt: real, row: Vector, i: nat): (r: Vector)
    requires IsTable(m.coupling, m.N()) && |row| == m.N()
    ensures |r| == m.N() && forall a | 0 <= a < |r| :: 0.0 <= r[a] < P
  {
    var n := m.N();
    var k1 := Dpdt(m, trig, row, Noise(draws, 4 * i, n));
    var k2 := Dpdt(m, trig, Axpy(row, 0.5 * dt, k1), Noise(draws, 4 * i + 1, n));
    var k3 := Dpdt(m, trig, Axpy(row, 0.5 * dt, k2), Noise(draws, 4 * i + 2, n));
    var k4 := Dpdt(m, trig, Axpy(row, dt, k3), Noise(draws, 4 * i + 3, n));
    RK4Update(row, dt, k1, k2, k3, k4)
  }

  /** `(phis[i] + dt / 6 * (k1 + 2 * k2 + 2 * k3 + k4)) % (2 * np.pi)`. */
  function RK4Update(row: Vector, dt: real, k1: Vector, k2: Vector, k3: Vector, k4: Vector): (r: Vector)
    requires |k1| == |row| && |k2| == |row| && |k3| == |row| && |k4| == |row|
    ensures |r| == |row| && forall a | 0 <= a < |r| :: 0.0 <= r[a] < P
  {
    WrapAll(Axpy(row, dt / 6.0, Combine(k1, k2, k3, k4)))
  }

  /** Four equal stages give the Euler update. */
  lemma {:induction false} RK4UpdateEqualStages(row: Vector, dt: real, f: Vector)
    requires |f| == |row|
    ensures RK4Update(row, dt, f, f, f, f) == WrapAll(Axpy(row, dt, f))
  {
    forall a | 0 <= a < |row|
      ensures Axpy(row, dt / 6.0, Combine(f, f, f, f))[a] == Axpy(row, dt, f)[a]
    {
      SixEqualStages(dt, f[a]);
    }
  }

  // ---------------------------------------------------------------------
  // Control.

  datatype Cell = Cell(row: int, col: int)

  /** The four periodic neighbours of a cell, in the source's order: left,
      right, up, down. The wrap-around at the border is written as a branch;
      `LocsArePeriodic` shows it is the source's `% L`. */
  function Locs(size: nat, s: Cell): (locs: seq<Cell>)
    requires size > 0
    ensures |locs| == 4
    ensures 0 <= s.row < size && 0 <= s.col < size ==>
      forall q | 0 <= q < 4 :: 0 <= locs[q].row < size && 0 <= locs[q].col < size
  {
    [Cell(s.row, Pred(s.col, size)), Cell(s.row, Succ(s.col, size)),
     Cell(Pred(s.row, size), s.col), Cell(Succ(s.row, size), s.col)]
  }

  /** The neighbours of a cell of the grid are the cells one step away
      modulo the side, as `(row, (col - 1) % L)` and so on. */
  lemma LocsArePeriodic(size: nat, s: Cell)
    requires 0 <= s.row < size && 0 <= s.col < size
    ensures Locs(size, s) ==
      [Cell(s.row, (s.col - 1) % size), Cell(s.row, (s.col + 1) % size),
       Cell((s.row - 1) % size, s.col), Cell((s.row + 1) % size, s.col)]
  {
    PeriodicStep(s.col, size);
    PeriodicStep(s.row, size);
  }

  /** `np.reshape(phi, (L, L))`: cell `(r, c)` holds `phi[r * L + c]`. */
  function Reshape(phi: Vector, size: nat): (g: Grid)
    requires |phi| == Square(size)
    ensures IsTable(g, size)
    ensures forall r, c | 0 <= r < size && 0 <= c < size ::
      Flat(size, r, c) < |phi| && g[r][c] == phi[Flat(size, r, c)]
  {
    SquareIsProduct(size);
    RowMajorAll(size, size);
    seq(size, r requires 0 <= r < size =>
      seq(size, c requires 0 <= c < size => phi[Flat(size, r, c)]))
  }

  /** `np.reshape(grid, N)`: the rows one after another. */
  function Flatten(g: Grid): Vector
  {
    if g == [] then [] else Flatten(g[..|g| - 1]) + g[|g| - 1]
  }

  /** Cell `(r, c)` of a table of width `w` lands at `r * w + c` once
      flattened. */
  lemma {:induction false} FlattenIndex(g: Grid, w: nat)
    requires forall r | 0 <= r < |g| :: |g[r]| == w
    ensures |Flatten(g)| == |g| * w
    ensures forall r, c | 0 <= r < |g| && 0 <= c < w ::
      Flat(w, r, c) < |Flatten(g)| && Flatten(g)[Flat(w, r, c)] == g[r][c]
    decreases |g|
  {
    if g != [] {
      var n := |g| - 1;
      var pre := g[..n];
      FlattenIndex(pre, w);
      assert |Flatten(g)| == n * w + w;
      forall r, c | 0 <= r < |g| && 0 <= c < w
        ensures Flat(w, r, c) < |Flatten(g)| && Flatten(g)[Flat(w, r, c)] == g[r][c]
      {
        if r < n {
          RowMajorIndex(w, n, r, c);
          assert pre[r] == g[r];
        } else {
          assert Flat(w, r, c) == n * w + c;
        }
      }
    }
  }

  /** Flattening a square table and reshaping it back gives the table. */
  lemma {:induction false} ReshapeFlatten(g: Grid, size: nat)
    requires IsTable(g, size)
    ensures |Flatten(g)| == Square(size) && Reshape(Flatten(g), size) == g
  {
    FlattenIndex(g, size);
    SquareIsProduct(size);
    TableExt(Reshape(Flatten(g), size), g);
  }

  /** Reshaping a vector into a square table and flattening it back gives
      the vector. */
  lemma {:induction false} FlattenReshape(phi: Vector, size: nat)
    requires |phi| == Square(size)
    ensures Flatten(Reshape(phi, size)) == phi
  {
    var g := Reshape(phi, size);
    FlattenIndex(g, size);
    SquareIsProduct(size);
    forall k | 0 <= k < |phi|
      ensures Flatten(g)[k] == phi[k]
    {
      DivModBounds(k, size, size);
      assert k == Flat(size, k / size, k % size);
    }
  }

  /** A table whose entries are all in `[0, P)` flattens to such a vector. */
  lemma {:induction false} FlattenWrapped(g: Grid)
    requires forall r, c | 0 <= r < |g| && 0 <= c < |g[r]| :: 0.0 <= g[r][c] < P
    ensures forall k | 0 <= k < |Flatten(g)| :: 0.0 <= Flatten(g)[k] < P
    decreases |g|
  {
    if g != [] {
      var n := |g| - 1;
      FlattenWrapped(g[..n]);
      assert forall r | 0 <= r < n :: g[..n][r] == g[r];
    }
  }

  /** `sites` lists the nonzero cells of `mask` before row-major index
      `k`, each once, in row-major order. */
  ghost predicate SitesBelow(mask: Grid, size: nat, k: nat, sites: seq<Cell>)
    requires IsTable(mask, size)
  {
    (forall q | 0 <= q < |sites| ::
       0 <= sites[q].row < size && 0 <= sites[q].col < size && Flat(size, sites[q].row, sites[q].col) < k &&
       mask[sites[q].row][sites[q].col] != 0.0) &&
    (forall r, c | 0 <= r < size && 0 <= c < size && Flat(size, r, c) < k ::
       mask[r][c] != 0.0 ==> Cell(r, c) in sites) &&
    (forall p, q | 0 <= p < q < |sites| ::
       Flat(size, sites[p].row, sites[p].col) < Flat(size, sites[q].row, sites[q].col))
  }

  /** The cell at row-major index `k`. */
  function CellOfIndex(size: nat, k: nat): (s: Cell)
    requires k < Square(size)
    ensures 0 <= s.row < size && 0 <= s.col < size && Flat(size, s.row, s.col) == k
    ensures forall r, c | 0 <= r < size && 0 <= c < size && Flat(size, r, c) == k :: r == s.row && c == s.col
  {
    SquareIsProduct(size);
    DivModBounds(k, size, size);
    var s := Cell(k / size, k % size);
    forall r, c | 0 <= r < size && 0 <= c < size && Flat(size, r, c) == k
      ensures r == s.row && c == s.col
    {
      RowMajorIndex(size, size, r, c);
    }
    s
  }

  /** Looking at one more cell extends the list by that cell when it is
      nonzero. */
  lemma AppendSite(mask: Grid, size: nat, k: nat, prev: seq<Cell>)
    requires IsTable(mask, size) && 0 < k <= Square(size) && SitesBelow(mask, size, k - 1, prev)
    ensures var s := CellOfIndex(size, k - 1);
      SitesBelow(mask, size, k, if mask[s.row][s.col] != 0.0 then prev + [s] else prev)
  {
  }

  /** `np.argwhere(control != 0)`, restricted to the cells before row-major
      index `k`. */
  function ArgWhereBelow(mask: Grid, size: nat, k: nat): (sites: seq<Cell>)
    requires IsTable(mask, size) && k <= Square(size)
    ensures SitesBelow(mask, size, k, sites)
    decreases k
  {
    if k == 0 then []
    else
      var prev := ArgWhereBelow(mask, size, k - 1);
      var s := CellOfIndex(size, k - 1);
      AppendSite(mask, size, k, prev);
      if mask[s.row][s.col] != 0.0 then prev + [s] else prev
  }

  /** `np.argwhere(control != 0)`: the controlled cells, each once, in
      row-major order. */
  function ArgWhere(mask: Grid, size: nat): (sites: seq<Cell>)
    requires IsTable(mask, size)
    ensures forall s | s in sites :: 0 <= s.row < size && 0 <= s.col < size
    ensures forall r, c | 0 <= r < size && 0 <= c < size ::
      Cell(r, c) in sites <==> mask[r][c] != 0.0
    ensures forall p, q | 0 <= p < q < |sites| ::
      Flat(size, sites[p].row, sites[p].col) < Flat(size, sites[q].row, sites[q].col)
  {
    var sites := ArgWhereBelow(mask, size, Square(size));
    SquareIsProduct(size);
    forall r, c | 0 <= r < size && 0 <= c < size
      ensures Flat(size, r, c) < Square(size)
    {
      RowMajorIndex(size, size, r, c);
    }
    sites
  }

  /** The phasors `exp(1j * phi)` of the uncontrolled cells among `locs`, in
      order. */
  function FreePhasors(trig: Trig, mask: Grid, grid: Grid, size: nat, locs: seq<Cell>): (ns: seq<Complex>)
    requires IsTable(mask, size) && IsTable(grid, size)
    requires forall q | 0 <= q < |locs| :: 0 <= locs[q].row < size && 0 <= locs[q].col < size
    ensures |ns| <= |locs|
  {
    if locs == [] then []
    else
      var prev := FreePhasors(trig, mask, grid, size, locs[..|locs| - 1]);
      var s := locs[|locs| - 1];
      if mask[s.row][s.col] == 0.0 then prev + [Cis(trig, grid[s.row][s.col])] else prev
  }

  /** The offset `control[site] * np.pi` of a cell of control strength
      `strength`. */
  function ControlOffset(strength: real): real
  {
    strength * Pi()
  }

  /** What `apply_control` writes into a controlled cell: the angle of the
      mean phasor of its uncontrolled neighbours (of `[0]` when there is
      none), plus the cell's control strength times pi. */
  function ControlledValue(trig: Trig, mask: Grid, grid: Grid, size: nat, s: Cell): (r: real)
    requires size > 0 && IsTable(mask, size) && IsTable(grid, size)
    requires 0 <= s.row < size && 0 <= s.col < size
    ensures FreePhasors(trig, mask, grid, size, Locs(size, s)) == [] ==>
      r == Angle(trig, Complex(0.0, 0.0)) + ControlOffset(mask[s.row][s.col])
  {
    Angle(trig, PaddedMean(FreePhasors(trig, mask, grid, size, Locs(size, s)))) + ControlOffset(mask[s.row][s.col])
  }

  /** `ns.append(0)` when `ns` is empty, then `np.mean(ns, axis=0)`: the
      mean of the phasors, or `0` when there is none. */
  function PaddedMean(ns: seq<Complex>): (z: Complex)
    ensures ns == [] ==> z == Complex(0.0, 0.0)
    ensures ns != [] ==> z == Mean(ns)
  {
    MeanOfCopies([Complex(0.0, 0.0)], Complex(0.0, 0.0));
    Mean(if ns == [] then [Complex(0.0, 0.0)] else ns)
  }

  /** The grid `apply_control` flattens: every controlled cell takes its
      controlled value, computed from the grid as it was before any update,
      and every cell is wrapped. */
  function ControlGrid(trig: Trig, mask: Grid, grid: Grid, size: nat): (g: Grid)
    requires IsTable(mask, size) && IsTable(grid, size)
    ensures IsTable(g, size)
    ensures forall r, c | 0 <= r < size && 0 <= c < size :: 0.0 <= g[r][c] < P
  {
    seq(size, r requires 0 <= r < size =>
      seq(size, c requires 0 <= c < size =>
        Wrap(if mask[r][c] != 0.0 then ControlledValue(trig, mask, grid, size, Cell(r, c)) else grid[r][c])))
  }

  lemma ControlGridAt(trig: Trig, mask: Grid, grid: Grid, size: nat, r: nat, c: nat)
    requires IsTable(mask, size) && IsTable(grid, size) && r < size && c < size
    ensures ControlGrid(trig, mask, grid, size)[r][c] ==
      Wrap(if mask[r][c] != 0.0 then ControlledValue(trig, mask, grid, size, Cell(r, c)) else grid[r][c])
  {
  }

  /** `apply_control` as a function of the phase vector. */
  function ControlStep(m: Model, trig: Trig, phi: Vector): (r: Vector)
    requires m.WellFormed() && m.control.Some? && |phi| == m.N()
    ensures |r| == m.N() && forall k | 0 <= k < |r| :: 0.0 <= r[k] < P
  {
    var size := m.L();
    var g := ControlGrid(trig, m.control.value, Reshape(phi, size), size);
    ReshapeFlatten(g, size);
    FlattenWrapped(g);
    Flatten(g)
  }

  /** `apply_control`: reshape the row into the grid, override the
      controlled cells, wrap and flatten. */
  method ApplyControl(m: Model, trig: Trig, phi: Vector) returns (out: Vector)
    requires m.WellFormed() && m.control.Some? && |phi| == m.N()
    ensures out == ControlStep(m, trig, phi)
  {
    var size := m.L();
    var phimat := Reshape(phi, size);
    var rows := ControlRows(trig, m.control.value, phimat, size);
    out := Flatten(rows);
  }

  /** The loop of `apply_control`: it visits the controlled cells in
      row-major order, computes each one's value from the unmodified grid,
      and writes it into a copy, which it then wraps row by row. */
  method ControlRows(trig: Trig, mask: Grid, phimat: Grid, size: nat) returns (rows: Grid)
    requires IsTable(mask, size) && IsTable(phimat, size)
    ensures rows == ControlGrid(trig, mask, phimat, size)
  {
    var newmat := new real[size, size]((r: nat, c: nat) requires r < size && c < size => phimat[r][c]);
    ControlSites(trig, mask, phimat, size, newmat);
    rows := WrapTable(newmat);
    forall r, c | 0 <= r < size && 0 <= c < size
      ensures rows[r][c] == ControlGrid(trig, mask, phimat, size)[r][c]
    {
      ControlGridAt(trig, mask, phimat, size, r, c);
    }
    TableExt(rows, ControlGrid(trig, mask, phimat, size));
  }

  /** The loop over `np.argwhere(control != 0)`: each controlled cell of
      the copy `newmat` gets its value from the unmodified grid. */
  method ControlSites(trig: Trig, mask: Grid, phimat: Grid, size: nat, newmat: array2<real>)
    requires IsTable(mask, size) && IsTable(phimat, size)
    requires newmat.Length0 == size && newmat.Length1 == size
    requires forall r, c | 0 <= r < size && 0 <= c < size :: newmat[r, c] == phimat[r][c]
    modifies newmat
    ensures forall r, c | 0 <= r < size && 0 <= c < size ::
      newmat[r, c] == if mask[r][c] != 0.0 then ControlledValue(trig, mask, phimat, size, Cell(r, c))
                      else phimat[r][c]
  {
    var sites := ArgWhere(mask, size);
    for k := 0 to |sites|
      invariant forall r, c | 0 <= r < size && 0 <= c < size ::
        newmat[r, c] == if Cell(r, c) in sites[..k]
                        then ControlledValue(trig, mask, phimat, size, Cell(r, c))
                        else phimat[r][c]
    {
      var s := sites[k];
      newmat[s.row, s.col] := ControlCell(trig, mask, phimat, size, s);
      PrefixExtend(sites, k);
    }
    assert sites[..|sites|] == sites;
  }

  /** The prefix of length `k + 1` extends the prefix of length `k`. */
  lemma PrefixExtend<T>(xs: seq<T>, k: nat)
    requires k < |xs|
    ensures xs[..k + 1] == xs[..k] + [xs[k]]
  {
  }

  /** The value of one controlled cell: the phasors of its free neighbours,
      gathered in the order left, right, up, down, then their mean's angle
      (the angle of `0` when there is none) plus the control offset. */
  method ControlCell(trig: Trig, mask: Grid, phimat: Grid, size: nat, s: Cell) returns (v: real)
    requires size > 0 && IsTable(mask, size) && IsTable(phimat, size)
    requires 0 <= s.row < size && 0 <= s.col < size
    ensures v == ControlledValue(trig, mask, phimat, size, s)
  {
    var locs := Locs(size, s);
    var ns: seq<Complex> := [];
    for q := 0 to 4
      invariant ns == FreePhasors(trig, mask, phimat, size, locs[..q])
    {
      var loc := locs[q];
      assert locs[..q + 1][..q] == locs[..q];
      if mask[loc.row][loc.col] == 0.0 {
        ns := ns + [Cis(trig, phimat[loc.row][loc.col])];
      }
    }
    assert locs[..4] == locs;
    assert ns == FreePhasors(trig, mask, phimat, size, locs);
    if ns == [] {
      ns := [Complex(0.0, 0.0)];
    }
    v := Angle(trig, Mean(ns)) + ControlOffset(mask[s.row][s.col]);
  }

  /** `new_phimat % (2 * np.pi)`, read out row by row. */
  method WrapTable(a: array2<real>) returns (rows: Grid)
    ensures |rows| == a.Length0
    ensures forall r | 0 <= r < a.Length0 :: |rows[r]| == a.Length1
    ensures forall r, c | 0 <= r < a.Length0 && 0 <= c < a.Length1 :: rows[r][c] == Wrap(a[r, c])
  {
    rows := [];
    for r := 0 to a.Length0
      invariant |rows| == r
      invariant forall p | 0 <= p < r :: |rows[p]| == a.Length1
      invariant forall p, c | 0 <= p < r && 0 <= c < a.Length1 :: rows[p][c] == Wrap(a[p, c])
    {
      var row: Vector := [];
      for c := 0 to a.Length1
        invariant |row| == c && forall e | 0 <= e < c :: row[e] == Wrap(a[r, e])
      {
        row := row + [Wrap(a[r, c])];
      }
      rows := rows + [row];
    }
  }

  lemma {:induction false} NoFreePhasors(trig: Trig, mask: Grid, grid: Grid, size: nat, locs: seq<Cell>)
    requires IsTable(mask, size) && IsTable(grid, size)
    requires forall q | 0 <= q < |locs| :: 0 <= locs[q].row < size && 0 <= locs[q].col < size
    requires forall q | 0 <= q < |locs| :: mask[locs[q].row][locs[q].col] != 0.0
    ensures FreePhasors(trig, mask, grid, size, locs) == []
  {
    if locs != [] {
      NoFreePhasors(trig, mask, grid, size, locs[..|locs| - 1]);
    }
  }

  lemma {:induction false} AlignedPhasors(trig: Trig, mask: Grid, grid: Grid, size: nat,
                                          locs: seq<Cell>, theta: real)
    requires IsTable(mask, size) && IsTable(grid, size)
    requires forall q | 0 <= q < |locs| :: 0 <= locs[q].row < size && 0 <= locs[q].col < size
    requires forall q | 0 <= q < |locs| ::
      mask[locs[q].row][locs[q].col] == 0.0 ==> grid[locs[q].row][locs[q].col] == theta
    ensures forall e | 0 <= e < |FreePhasors(trig, mask, grid, size, locs)| ::
      FreePhasors(trig, mask, grid, size, locs)[e] == Cis(trig, theta)
    ensures (exists q | 0 <= q < |locs| :: mask[locs[q].row][locs[q].col] == 0.0) ==>
      |FreePhasors(trig, mask, grid, size, locs)| > 0
  {
    if locs != [] {
      var k := |locs| - 1;
      AlignedPhasors(trig, mask, grid, size, locs[..k], theta);
      if exists q | 0 <= q < |locs| :: mask[locs[q].row][locs[q].col] == 0.0 {
        var q :| 0 <= q < |locs| && mask[locs[q].row][locs[q].col] == 0.0;
        if q < k {
          assert locs[..k][q] == locs[q];
        }
      }
    }
  }

  /** Equal representatives stay equal after adding the same amount. */
  lemma WrapCongruent(a: real, b: real, y: real)
    requires Wrap(a) == Wrap(b)
    ensures Wrap(a + y) == Wrap(b + y)
  {
    WrapAddLeft(a, y);
    WrapAddLeft(b, y);
  }

  /** Reshaped, a controlled row is the control grid of the reshaped
      input. */
  lemma {:induction false} ControlStepGrid(m: Model, trig: Trig, phi: Vector)
    requires m.WellFormed() && m.control.Some? && |phi| == m.N()
    ensures Reshape(ControlStep(m, trig, phi), m.L())
         == ControlGrid(trig, m.control.value, Reshape(phi, m.L()), m.L())
  {
    ReshapeFlatten(ControlGrid(trig, m.control.value, Reshape(phi, m.L()), m.L()), m.L());
  }

  /** `apply_control` leaves every uncontrolled cell at its value modulo the
      period; a row that was already wrapped keeps those cells unchanged. */
  lemma {:induction false} ControlKeepsFreeSites(m: Model, trig: Trig, phi: Vector)
    requires m.WellFormed() && m.control.Some? && |phi| == m.N()
    ensures forall r, c | 0 <= r < m.L() && 0 <= c < m.L() && m.control.value[r][c] == 0.0 ::
      Reshape(ControlStep(m, trig, phi), m.L())[r][c] == Wrap(Reshape(phi, m.L())[r][c])
    ensures forall r, c | 0 <= r < m.L() && 0 <= c < m.L() && m.control.value[r][c] == 0.0 ::
      0.0 <= Reshape(phi, m.L())[r][c] < P ==>
      Reshape(ControlStep(m, trig, phi), m.L())[r][c] == Reshape(phi, m.L())[r][c]
  {
    var size := m.L();
    var grid := Reshape(phi, size);
    ControlStepGrid(m, trig, phi);
    forall r, c | 0 <= r < size && 0 <= c < size && 0.0 <= grid[r][c] < P
      ensures Wrap(grid[r][c]) == grid[r][c]
    {
      WrapFixed(grid[r][c]);
    }
  }

  /** All four neighbours of cell `(r, c)` are controlled. */
  ghost predicate Enclosed(mask: Grid, size: nat, r: nat, c: nat)
    requires IsTable(mask, size) && r < size && c < size
  {
    forall q | 0 <= q < 4 :: var t := Locs(size, Cell(r, c))[q]; mask[t.row][t.col] != 0.0
  }

  /** Cell `(r, c)` has at least one free neighbour, and every free
      neighbour holds the phase `theta`. */
  ghost predicate AlignedAround(mask: Grid, grid: Grid, size: nat, r: nat, c: nat, theta: real)
    requires IsTable(mask, size) && IsTable(grid, size) && r < size && c < size
  {
    (forall q | 0 <= q < 4 ::
      var t := Locs(size, Cell(r, c))[q]; mask[t.row][t.col] == 0.0 ==> grid[t.row][t.col] == theta) &&
    (exists q | 0 <= q < 4 :: var t := Locs(size, Cell(r, c))[q]; mask[t.row][t.col] == 0.0)
  }

  /** A controlled cell none of whose four neighbours is free falls back to
      the angle of zero, so it ends at its control strength times pi, wrapped
      (given `np.angle(0) = 0`). */
  lemma {:induction false} ControlFallback(m: Model, trig: Trig, phi: Vector, r: nat, c: nat)
    requires m.WellFormed() && m.control.Some? && |phi| == m.N()
    requires r < m.L() && c < m.L() && m.control.value[r][c] != 0.0
    requires Enclosed(m.control.value, m.L(), r, c)
    requires Angle(trig, Complex(0.0, 0.0)) == 0.0
    ensures Reshape(ControlStep(m, trig, phi), m.L())[r][c] == Wrap(ControlOffset(m.control.value[r][c]))
  {
    ControlledCell(m, trig, phi, r, c);
    FallbackValue(trig, m.control.value, Reshape(phi, m.L()), m.L(), r, c);
  }

  /** A controlled cell of the result holds its controlled value, wrapped. */
  lemma {:induction false} ControlledCell(m: Model, trig: Trig, phi: Vector, r: nat, c: nat)
    requires m.WellFormed() && m.control.Some? && |phi| == m.N()
    requires r < m.L() && c < m.L() && m.control.value[r][c] != 0.0
    ensures Reshape(ControlStep(m, trig, phi), m.L())[r][c]
         == Wrap(ControlledValue(trig, m.control.value, Reshape(phi, m.L()), m.L(), Cell(r, c)))
  {
    ControlStepGrid(m, trig, phi);
    ControlGridAt(trig, m.control.value, Reshape(phi, m.L()), m.L(), r, c);
  }

  lemma {:induction false} FallbackValue(trig: Trig, mask: Grid, grid: Grid, size: nat, r: nat, c: nat)
    requires IsTable(mask, size) && IsTable(grid, size) && r < size && c < size
    requires Enclosed(mask, size, r, c)
    requires Angle(trig, Complex(0.0, 0.0)) == 0.0
    ensures ControlledValue(trig, mask, grid, size, Cell(r, c)) == ControlOffset(mask[r][c])
  {
    var locs := Locs(size, Cell(r, c));
    NoFreePhasors(trig, mask, grid, size, locs);
    var zero := Complex(0.0, 0.0);
    MeanOfCopies([zero], zero);
  }

  /** Where a controlled cell of strength `strength` ends when its free
      neighbours agree on `theta`: `(theta + strength * np.pi) % (2 * np.pi)`. */
  function AlignedTarget(theta: real, strength: real): (r: real)
    ensures 0.0 <= r < P
  {
    Wrap(theta + ControlOffset(strength))
  }

  /** A controlled cell whose free neighbours (at least one) all hold the
      phase `theta` ends at `theta` plus its control strength times pi,
      wrapped (given that `np.angle(exp(1j * theta))` is `theta` up to whole
      turns). */
  lemma {:induction false} ControlAligned(m: Model, trig: Trig, phi: Vector, r: nat, c: nat, theta: real)
    requires m.WellFormed() && m.control.Some? && |phi| == m.N()
    requires r < m.L() && c < m.L() && m.control.value[r][c] != 0.0
    requires AlignedAround(m.control.value, Reshape(phi, m.L()), m.L(), r, c, theta)
    requires Wrap(Angle(trig, Cis(trig, theta))) == Wrap(theta)
    ensures Reshape(ControlStep(m, trig, phi), m.L())[r][c] == AlignedTarget(theta, m.control.value[r][c])
  {
    ControlledCell(m, trig, phi, r, c);
    AlignedValue(trig, m.control.value, Reshape(phi, m.L()), m.L(), r, c, theta);
  }

  lemma {:induction false} AlignedValue(trig: Trig, mask: Grid, grid: Grid, size: nat, r: nat, c: nat, theta: real)
    requires IsTable(mask, size) && IsTable(grid, size) && r < size && c < size
    requires AlignedAround(mask, grid, size, r, c, theta)
    requires Wrap(Angle(trig, Cis(trig, theta))) == Wrap(theta)
    ensures Wrap(ControlledValue(trig, mask, grid, size, Cell(r, c))) == AlignedTarget(theta, mask[r][c])
  {
    var locs := Locs(size, Cell(r, c));
    AlignedPhasors(trig, mask, grid, size, locs, theta);
    var ns := FreePhasors(trig, mask, grid, size, locs);
    MeanOfCopies(ns, Cis(trig, theta));
    WrapCongruent(Angle(trig, Cis(trig, theta)), theta, ControlOffset(mask[r][c]));
  }

  // ---------------------------------------------------------------------
  // The trajectory.

  /** One row of the trajectory from the previous one: a step of the chosen
      scheme, then control when a mask is given. */
  function Step(m: Model, trig: Trig, meth: Method, draws: Draws, dt: real, row: Vector, i: nat): (r: Vector)
    requires m.WellFormed() && |row| == m.N()
    ensures |r| == m.N() && forall a | 0 <= a < |r| :: 0.0 <= r[a] < P
  {
    var next := if meth == ForwardEuler then EulerStep(m, trig, draws, dt, row, i)
                else RK4Step(m, trig, draws, dt, row, i);
    if m.control.Some? then ControlStep(m, trig, next) else next
  }

  /** Row `j` of the trajectory: `phi0`, then `j` steps. */
  function Row(m: Model, trig: Trig, meth: Method, draws: Draws, dt: real, phi0: Vector, j: nat): (r: Vector)
    requires m.WellFormed() && |phi0| == m.N()
    ensures |r| == m.N()
    ensures j >= 1 ==> forall a | 0 <= a < |r| :: 0.0 <= r[a] < P
    decreases j
  {
    if j == 0 then phi0
    else Step(m, trig, meth, draws, dt, Row(m, trig, meth, draws, dt, phi0, j - 1), j - 1)
  }

  lemma RowSucc(m: Model, trig: Trig, meth: Method, draws: Draws, dt: real, phi0: Vector, i: nat)
    requires m.WellFormed() && |phi0| == m.N()
    ensures Row(m, trig, meth, draws, dt, phi0, i + 1)
         == Step(m, trig, meth, draws, dt, Row(m, trig, meth, draws, dt, phi0, i), i)
  {
  }

  /** The `len` rows `evolve` returns. */
  function Trajectory(m: Model, trig: Trig, meth: Method, draws: Draws, dt: real, phi0: Vector, len: nat)
    : (rows: seq<Vector>)
    requires m.WellFormed() && |phi0| == m.N()
    ensures |rows| == len && (len > 0 ==> rows[0] == phi0)
    ensures forall j | 0 <= j < len :: |rows[j]| == m.N()
    ensures forall j, a | 1 <= j < len && 0 <= a < m.N() :: 0.0 <= rows[j][a] < P
  {
    seq(len, j requires 0 <= j < len => Row(m, trig, meth, draws, dt, phi0, j))
  }

  /** `Model.evolve`: the method name is checked first, then the time grid
      must have a second sample to give `dt = t[1] - t[0]`, then the noise
      scale must not be negative; the rows are filled in order. */
  method Evolve(m: Model, trig: Trig, draws: Draws, t: seq<real>, phi0: Vector, name: string)
    returns (r: Result<seq<Vector>>)
    requires m.WellFormed() && |phi0| == m.N()
    ensures ParseMethod(name).None? ==> r == Failure(InvalidMethod)
    ensures ParseMethod(name).Some? && |t| < 2 ==> r == Failure(TimeGridTooShort)
    ensures ParseMethod(name).Some? && |t| >= 2 && m.noise < 0.0 ==> r == Failure(NegativeNoiseScale)
    ensures ParseMethod(name).Some? && |t| >= 2 && m.noise >= 0.0 ==>
      r == Success(Trajectory(m, trig, ParseMethod(name).value, draws, t[1] - t[0], phi0, |t|))
  {
    var meth := ParseMethod(name);
    if meth.None? {
      return Failure(InvalidMethod);
    }
    if |t| < 2 {
      return Failure(TimeGridTooShort);
    }
    var dt := t[1] - t[0];
    var phis := new Vector[|t|](_ => seq(|phi0|, _ => 0.0));
    phis[0] := phi0;
    if m.noise < 0.0 {
      return Failure(NegativeNoiseScale);
    }
    FillRows(m, trig, meth.value, draws, dt, phi0, phis);
    r := Success(phis[..]);
  }

  /** The loop of `evolve`: row `i + 1` from row `i`, for every row after
      the first. */
  method FillRows(m: Model, trig: Trig, meth: Method, draws: Draws, dt: real, phi0: Vector,
                  phis: array<Vector>)
    requires m.WellFormed() && |phi0| == m.N() && phis.Length >= 1 && phis[0] == phi0
    modifies phis
    ensures phis[..] == Trajectory(m, trig, meth, draws, dt, phi0, phis.Length)
  {
    for i := 0 to phis.Length - 1
      invariant forall j | 0 <= j <= i :: phis[j] == Row(m, trig, meth, draws, dt, phi0, j)
    {
      var next := NextRow(m, trig, meth, draws, dt, phis[i], i);
      RowSucc(m, trig, meth, draws, dt, phi0, i);
      phis[i + 1] := next;
    }
    assert phis[..] == Trajectory(m, trig, meth, draws, dt, phi0, phis.Length);
  }

  /** One pass of the `evolve` loop: the scheme's update wrapped into
      `[0, 2 pi)`, then `apply_control` when a mask is given. */
  method NextRow(m: Model, trig: Trig, meth: Method, draws: Draws, dt: real, row: Vector, i: nat)
    returns (next: Vector)
    requires m.WellFormed() && |row| == m.N()
    ensures next == Step(m, trig, meth, draws, dt, row, i)
  {
    next := if meth == ForwardEuler then EulerStep(m, trig, draws, dt, row, i)
            else RK4Step(m, trig, draws, dt, row, i);
    if m.control.Some? {
      next := ApplyControl(m, trig, next);
    }
  }

  // ---------------------------------------------------------------------
  // Free rotation.

  lemma {:induction false} EulerDrift(m: Model, trig: Trig, draws: Draws, dt: real, row: Vector, i: nat)
    requires IsTable(m.coupling, m.N()) && |row| == m.N() && m.noise == 0.0
    requires Quiet(m, trig, row)
    ensures EulerStep(m, trig, draws, dt, row, i) == WrapAll(Axpy(row, dt, m.freq))
  {
    DpdtIsFrequency(m, trig, row, Noise(draws, i, m.N()));
  }

  lemma {:induction false} RK4Drift(m: Model, trig: Trig, draws: Draws, dt: real, row: Vector, i: nat)
    requires IsTable(m.coupling, m.N()) && |row| == m.N() && m.noise == 0.0
    requires Quiet(m, trig, row)
    requires Quiet(m, trig, Axpy(row, 0.5 * dt, m.freq)) && Quiet(m, trig, Axpy(row, dt, m.freq))
    ensures RK4Step(m, trig, draws, dt, row, i) == WrapAll(Axpy(row, dt, m.freq))
  {
    var n, f := m.N(), m.freq;
    DpdtIsFrequency(m, trig, row, Noise(draws, 4 * i, n));
    DpdtIsFrequency(m, trig, Axpy(row, 0.5 * dt, f), Noise(draws, 4 * i + 1, n));
    DpdtIsFrequency(m, trig, Axpy(row, 0.5 * dt, f), Noise(draws, 4 * i + 2, n));
    DpdtIsFrequency(m, trig, Axpy(row, dt, f), Noise(draws, 4 * i + 3, n));
    RK4UpdateEqualStages(row, dt, f);
  }

  lemma SixEqualStages(dt: real, x: real)
    ensures dt / 6.0 * (x + 2.0 * x + 2.0 * x + x) == dt * x
  {
  }

  /** Without noise or control, and where nothing interacts along a step,
      both schemes advance every phase by `dt` times its natural frequency. */
  lemma {:induction false} StepIsDrift(m: Model, trig: Trig, meth: Method, draws: Draws, dt: real,
                                       row: Vector, i: nat)
    requires m.WellFormed() && |row| == m.N() && m.control.None? && m.noise == 0.0
    requires Quiet(m, trig, row)
    requires Quiet(m, trig, Axpy(row, 0.5 * dt, m.freq)) && Quiet(m, trig, Axpy(row, dt, m.freq))
    ensures Step(m, trig, meth, draws, dt, row, i) == WrapAll(Axpy(row, dt, m.freq))
  {
    if meth == ForwardEuler {
      EulerDrift(m, trig, draws, dt, row, i);
    } else {
      RK4Drift(m, trig, draws, dt, row, i);
    }
  }

  /** `j` equal increments `d`, added one step at a time. */
  function Increments(j: nat, d: real): real
  {
    if j == 0 then 0.0 else Increments(j - 1, d) + d
  }

  lemma {:induction false} IncrementsProduct(j: nat, d: real)
    ensures Increments(j, d) == (j as real) * d
  {
    if j > 0 {
      IncrementsProduct(j - 1, d);
      assert ((j - 1) as real) * d + d == (j as real) * d;
    }
  }

  /** `x` advanced by `j` equal increments `d`, wrapped. */
  function Advanced(x: real, j: nat, d: real): real
  {
    Wrap(x + Increments(j, d))
  }

  /** One drift step of one phase carries the closed form from row `j - 1`
      to row `j`. */
  lemma DriftPoint(x0: real, d: real, prev: real, j: nat)
    requires j >= 1
    requires j == 1 ==> prev == x0
    requires j > 1 ==> prev == Advanced(x0, j - 1, d)
    ensures Wrap(prev + d) == Advanced(x0, j, d)
  {
    assert Increments(j, d) == Increments(j - 1, d) + d;
    if j > 1 {
      var start := x0 + Increments(j - 1, d);
      WrapAddLeft(start, d);
      WrapEqualArguments(start + d, x0 + Increments(j, d));
    } else {
      WrapEqualArguments(prev + d, x0 + Increments(j, d));
    }
  }

  lemma WrapEqualArguments(u: real, v: real)
    requires u == v
    ensures Wrap(u) == Wrap(v)
  {
  }

  function Scale(c: real, x: Vector): (r: Vector)
    ensures |r| == |x| && forall i | 0 <= i < |x| :: r[i] == c * x[i]
  {
    seq(|x|, i requires 0 <= i < |x| => c * x[i])
  }

  function Add(x: Vector, y: Vector): (r: Vector)
    requires |x| == |y|
    ensures |r| == |x|
  {
    seq(|x|, i requires 0 <= i < |x| => x[i] + y[i])
  }

  lemma AxpyIsAdd(x: Vector, a: real, y: Vector)
    requires |x| == |y|
    ensures Axpy(x, a, y) == Add(x, Scale(a, y))
  {
  }

  /** Free rotation: each row is the previous one advanced by the
      increments `d` and wrapped. */
  function Drift(phi0: Vector, d: Vector, j: nat): (r: Vector)
    requires |phi0| == |d|
    ensures |r| == |d|
    decreases j
  {
    if j == 0 then phi0 else WrapAll(Add(Drift(phi0, d, j - 1), d))
  }

  lemma {:induction false} DriftSteps(phi0: Vector, d: Vector, j: nat)
    requires |phi0| == |d| && j >= 1
    ensures forall a | 0 <= a < |d| :: Drift(phi0, d, j)[a] == Advanced(phi0[a], j, d[a])
    decreases j
  {
    var prev := Drift(phi0, d, j - 1);
    if j > 1 {
      DriftSteps(phi0, d, j - 1);
    }
    forall a | 0 <= a < |d|
      ensures Drift(phi0, d, j)[a] == Advanced(phi0[a], j, d[a])
    {
      DriftPoint(phi0[a], d[a], prev[a], j);
    }
  }

  /** A uniform start under uniform increments drifts uniformly. */
  lemma {:induction false} DriftUniform(phi0: Vector, d: Vector, theta: real, delta: real, j: nat)
    requires |phi0| == |d| && Uniform(phi0, theta) && Uniform(d, delta) && j >= 1
    ensures Uniform(Drift(phi0, d, j), Advanced(theta, j, delta))
  {
    DriftSteps(phi0, d, j);
  }

  lemma ScaleUniform(c: real, x: Vector, w: real)
    requires Uniform(x, w)
    ensures Uniform(Scale(c, x), c * w)
  {
  }

  lemma UncoupledStep(m: Model, trig: Trig, meth: Method, draws: Draws, dt: real, row: Vector, i: nat)
    requires m.WellFormed() && |row| == m.N() && m.control.None? && m.noise == 0.0
    requires forall a, b | 0 <= a < m.N() && 0 <= b < m.N() :: m.coupling[a][b] == 0.0
    ensures Step(m, trig, meth, draws, dt, row, i) == WrapAll(Axpy(row, dt, m.freq))
  {
    UncoupledIsQuiet(m, trig, row);
    UncoupledIsQuiet(m, trig, Axpy(row, 0.5 * dt, m.freq));
    UncoupledIsQuiet(m, trig, Axpy(row, dt, m.freq));
    StepIsDrift(m, trig, meth, draws, dt, row, i);
  }

  /** With a zero coupling matrix, no noise and no control, every row of
      either scheme is the free rotation by `dt * freq`. */
  lemma {:induction false} UncoupledRows(m: Model, trig: Trig, meth: Method, draws: Draws, dt: real,
                                         phi0: Vector, j: nat)
    requires m.WellFormed() && |phi0| == m.N() && m.control.None? && m.noise == 0.0
    requires forall a, b | 0 <= a < m.N() && 0 <= b < m.N() :: m.coupling[a][b] == 0.0
    ensures Row(m, trig, meth, draws, dt, phi0, j) == Drift(phi0, Scale(dt, m.freq), j)
    decreases j, 1
  {
    if j > 0 {
      UncoupledRowStep(m, trig, meth, draws, dt, phi0, j - 1);
    }
  }

  /** The inductive step of `UncoupledRows`: row `i` is the free rotation
      of `phi0`, and so is row `i + 1`. */
  lemma {:induction false} UncoupledRowStep(m: Model, trig: Trig, meth: Method, draws: Draws, dt: real,
                                            phi0: Vector, i: nat)
    requires m.WellFormed() && |phi0| == m.N() && m.control.None? && m.noise == 0.0
    requires forall a, b | 0 <= a < m.N() && 0 <= b < m.N() :: m.coupling[a][b] == 0.0
    ensures Row(m, trig, meth, draws, dt, phi0, i + 1) == Drift(phi0, Scale(dt, m.freq), i + 1)
    decreases i + 1, 0
  {
    UncoupledRows(m, trig, meth, draws, dt, phi0, i);
    var prev := Row(m, trig, meth, draws, dt, phi0, i);
    var d := Scale(dt, m.freq);
    RowSucc(m, trig, meth, draws, dt, phi0, i);
    UncoupledStep(m, trig, meth, draws, dt, prev, i);
    AxpyIsAdd(prev, dt, m.freq);
    assert Drift(phi0, d, i + 1) == WrapAll(Add(Drift(phi0, d, i), d));
  }

  /** With a zero coupling matrix, no noise and no control, row `j >= 1` of
      either scheme is the free rotation `(phi0 + j * dt * freq) % 2 pi`. */
  lemma {:induction false} UncoupledDrift(m: Model, trig: Trig, meth: Method, draws: Draws, dt: real,
                                          phi0: Vector, j: nat)
    requires m.WellFormed() && |phi0| == m.N() && m.control.None? && m.noise == 0.0
    requires forall a, b | 0 <= a < m.N() && 0 <= b < m.N() :: m.coupling[a][b] == 0.0
    requires j >= 1
    ensures Row(m, trig, meth, draws, dt, phi0, j) == FreeRotation(phi0, dt, m.freq, j)
  {
    UncoupledRows(m, trig, meth, draws, dt, phi0, j);
    ScaledDriftClosedForm(phi0, dt, m.freq, j);
  }

  /** One phase `x` rotated freely at frequency `f` for `j` steps of `dt`. */
  function RotatedPhase(x: real, j: nat, dt: real, f: real): real
  {
    Wrap(x + (j as real) * (dt * f))
  }

  /** The closed form of free rotation: `(phi0 + j * dt * f) % (2 * np.pi)`. */
  function FreeRotation(phi0: Vector, dt: real, f: Vector, j: nat): (r: Vector)
    requires |phi0| == |f|
    ensures |r| == |f|
  {
    seq(|f|, a requires 0 <= a < |f| => RotatedPhase(phi0[a], j, dt, f[a]))
  }

  /** Stepwise free rotation by `dt * f` agrees with the closed form. */
  lemma {:induction false} ScaledDriftClosedForm(phi0: Vector, dt: real, f: Vector, j: nat)
    requires |phi0| == |f| && j >= 1
    ensures Drift(phi0, Scale(dt, f), j) == FreeRotation(phi0, dt, f, j)
  {
    var d := Scale(dt, f);
    DriftSteps(phi0, d, j);
    forall a | 0 <= a < |f|
      ensures Drift(phi0, d, j)[a] == FreeRotation(phi0, dt, f, j)[a]
    {
      AdvancedIsRotated(phi0[a], j, d[a], dt, f[a]);
    }
  }

  /** `j` increments of `dt * f` are the free rotation at frequency `f`. */
  lemma {:induction false} AdvancedIsRotated(x: real, j: nat, d: real, dt: real, f: real)
    requires d == dt * f
    ensures Advanced(x, j, d) == RotatedPhase(x, j, dt, f)
  {
    IncrementsProduct(j, d);
    WrapEqualArguments(x + Increments(j, d), x + (j as real) * (dt * f));
  }

  /** One step from a row in phase at `x` under a shared frequency is pure drift. */
  lemma SynchronyStep(m: Model, trig: Trig, meth: Method, draws: Draws, dt: real,
                      row: Vector, x: real, omega: real, i: nat)
    requires m.WellFormed() && |row| == m.N() && m.control.None? && m.noise == 0.0
    requires m.shift == 0.0 && Sin(trig, 0.0) == 0.0
    requires Uniform(row, x) && Uniform(m.freq, omega)
    ensures Step(m, trig, meth, draws, dt, row, i) == WrapAll(Axpy(row, dt, m.freq))
  {
    InPhaseIsQuiet(m, trig, row, x);
    AxpyUniform(row, x, 0.5 * dt, m.freq, omega);
    AxpyUniform(row, x, dt, m.freq, omega);
    InPhaseIsQuiet(m, trig, Axpy(row, 0.5 * dt, m.freq), x + 0.5 * dt * omega);
    InPhaseIsQuiet(m, trig, Axpy(row, dt, m.freq), x + dt * omega);
    StepIsDrift(m, trig, meth, draws, dt, row, i);
  }

  lemma AxpyUniform(v: Vector, x: real, c: real, f: Vector, w: real)
    requires |v| == |f| && Uniform(v, x) && Uniform(f, w)
    ensures Uniform(Axpy(v, c, f), x + c * w)
  {
  }

  /** Oscillators that start in phase under one shared frequency follow the
      free rotation when there is no phase shift, no noise and no control
      (given `sin 0 = 0`). */
  lemma {:induction false} SynchronyRows(m: Model, trig: Trig, meth: Method, draws: Draws, dt: real,
                                         phi0: Vector, theta: real, omega: real, j: nat)
    requires m.WellFormed() && |phi0| == m.N() && m.control.None? && m.noise == 0.0
    requires m.shift == 0.0 && Sin(trig, 0.0) == 0.0
    requires Uniform(phi0, theta) && Uniform(m.freq, omega)
    ensures Row(m, trig, meth, draws, dt, phi0, j) == Drift(phi0, Scale(dt, m.freq), j)
    decreases j
  {
    if j > 0 {
      var prev := Row(m, trig, meth, draws, dt, phi0, j - 1);
      SynchronyRows(m, trig, meth, draws, dt, phi0, theta, omega, j - 1);
      if j > 1 {
        ScaleUniform(dt, m.freq, omega);
        DriftUniform(phi0, Scale(dt, m.freq), theta, dt * omega, j - 1);
        SynchronyStep(m, trig, meth, draws, dt, prev, Advanced(theta, j - 1, dt * omega), omega, j - 1);
      } else {
        SynchronyStep(m, trig, meth, draws, dt, prev, theta, omega, j - 1);
      }
      AxpyIsAdd(prev, dt, m.freq);
    }
  }

  /** Oscillators that start in phase and share one natural frequency stay
      in phase when there is no phase shift, no noise and no control: row
      `j >= 1` of either scheme holds `(theta + j * dt * omega) % 2 pi`
      everywhere (given `sin 0 = 0`). */
  lemma {:induction false} SynchronyPersists(m: Model, trig: Trig, meth: Method, draws: Draws, dt: real,
                                             phi0: Vector, theta: real, omega: real, j: nat)
    requires m.WellFormed() && |phi0| == m.N() && m.control.None? && m.noise == 0.0
    requires m.shift == 0.0 && Sin(trig, 0.0) == 0.0
    requires Uniform(phi0, theta) && Uniform(m.freq, omega)
    requires j >= 1
    ensures Uniform(Row(m, trig, meth, draws, dt, phi0, j), RotatedPhase(theta, j, dt, omega))
  {
    SynchronyRows(m, trig, meth, draws, dt, phi0, theta, omega, j);
    ScaleUniform(dt, m.freq, omega);
    DriftUniform(phi0, Scale(dt, m.freq), theta, dt * omega, j);
    AdvancedIsRotated(theta, j, dt * omega, dt, omega);
  }
}
