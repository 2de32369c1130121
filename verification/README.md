# kurapy core in Dafny

kurapy simulates Kuramoto oscillators on a square lattice of `size x size`
sites. This project models its core in Dafny:

- **the lattice** (`kurapy/lattice.py`), in `lattice.dfy`: a `Lattice`
  class whose `SetDistances` method fills the pairwise distance table under
  the cartesian or the euclidean metric, with or without periodic images,
  through the source's loops over the nine image shifts;
- **the coupling builders** (`kurapy/coupling.py`), in `coupling.dfy`:
  `constant`, `neighbour`, `cosine` and `cosine2`, with their metric checks;
- **the integrator** (`kurapy/model.py`), in `model.dfy`:
  - the fields of `Model`;
  - the derivative `dpdt`;
  - the forward-Euler and RK4 loops of `evolve`, with its error cases;
  - `apply_control`, which overrides controlled sites with the mean phase
    of their free neighbours, shifted by the control strength times pi;
- **the analysis kernels** (`kurapy/analyze.py`), in `analyze.dfy`:
  - `shape_matrix` and `shape_linear`;
  - the global and the local order parameter;
  - the wrap-aware `curvature`;
  - the velocity field of `gradient`.

Two modules are shared. `base.dfy` holds the error values, integer square
roots, periodic index steps and row-major index arithmetic. `phase.dfy`
holds the period `P` (the double nearest to `2 pi`), `x % (2 * np.pi)` as
`Wrap`, complex phasors and means, and the transcendental functions.

The transcendental functions are `np.sin`, `np.cos`, `np.angle` and the
complex `np.abs`. They are parameters (`Phase.Trig`). A property of them
that a lemma needs, such as `|exp(1j theta)| == 1`, appears as a hypothesis
of that lemma.

The random stream of `np.random.normal` is also a parameter
(`Model.Draws`). Draw `call` is the one the `call`-th derivative evaluation
uses.

Stateful code is modelled imperatively:

- `Lattice` is a class.
- `evolve` fills an array of rows in a loop.
- `apply_control` walks the controlled sites, updating a copied
  `array2<real>` in place.
- `curvature` loops over the axes and the two pushes.
- `gradient` loops over the frames.

Each method is proved against a specification function of its inputs
(`DistanceTable`, `Trajectory`, `ControlGrid`, `CurvatureField`, `Masked`).
The properties are proved about those functions.

## Model

| member | source | states |
|---|---|---|
| Lattice.Lattice.constructor | kurapy/lattice.py:5-14 | `N = size ** 2`, the positions enumerate the grid, and metric and distances start unset |
| Lattice.Positions | kurapy/lattice.py:10-11 | position `k` of the `meshgrid`/`vstack` enumeration is `(k % size, k // size)`, and there are `size * size` of them |
| Lattice.PositionsEnumerateGrid | kurapy/lattice.py:10-11 | the positions are exactly the grid cells, each once: every cell `(x, y)` sits at index `y * size + x` and no two indices share a cell |
| Lattice.Lower | kurapy/lattice.py:17 | `metric.lower()` maps each character, keeping the length |
| Lattice.ParseMetric | kurapy/lattice.py:17-18 | the metric is accepted iff its lower-cased name is `cartesian` or `euclidean` |
| Lattice.ParseMetricIgnoresCase | kurapy/lattice.py:17-18 | lower-casing first does not change which metric is chosen |
| Lattice.Lattice.SetDistances | kurapy/lattice.py:16-46 | an unknown metric raises ValueError and leaves the lattice unchanged; a known one stores that metric and its distance table and keeps the lattice valid |
| Lattice.Lattice.EuclideanDistances | kurapy/lattice.py:22-32 | the loop over the nine image shifts, taking elementwise minima of norms, yields the euclidean distance table (squared, in lattice units) |
| Lattice.Lattice.CartesianDistances | kurapy/lattice.py:34-43 | the loop over the nine image shifts, taking elementwise minima per axis, yields the cartesian per-axis table |
| Lattice.AxisAfterSettles | kurapy/lattice.py:36-41 | after any non-empty prefix of the shift loop each axis value is already the minimum-image distance, so later shifts change nothing |
| Lattice.NormAfterSettles | kurapy/lattice.py:25-30 | after all nine shifts the squared norm is the least over the nine periodic images |
| Lattice.NormAfterAtLeast | kurapy/lattice.py:25-30 | no prefix of the shift loop goes below the minimum-image norm |
| Lattice.NormAfterAtMost | kurapy/lattice.py:29-30 | after shift `t` has been visited the running minimum is at most that shift's norm |
| Lattice.RefineAxes | kurapy/lattice.py:40-41 | one loop pass replaces each per-axis value `v` by `min(v, abs(v + shift))` |
| Lattice.RefineNorms | kurapy/lattice.py:29-30 | one loop pass replaces each norm by the minimum of it and the shifted norm |
| Lattice.CartesianMetricLaws | kurapy/lattice.py:34-43 | the cartesian table is `N x N`, symmetric and non-negative, with zero diagonal |
| Lattice.EuclideanMetricLaws | kurapy/lattice.py:22-32 | the euclidean table is `N x N`, symmetric and non-negative, with zero diagonal |
| Lattice.PeriodicDistanceBounds | kurapy/lattice.py:25-30 | with periodic images no axis distance exceeds half the lattice, and no euclidean distance exceeds half the diagonal |
| Lattice.EntrySymmetric | kurapy/lattice.py:23-24 | the distance of `a` to `b` equals that of `b` to `a` |
| Lattice.DistanceTable | kurapy/lattice.py:22-43 | the stored table holds per-axis distances under the cartesian metric and norms under the euclidean one, `N x N` either way |
| Lattice.BaseAxes | kurapy/lattice.py:35 | `abs(rep_pos - transpose(rep_pos))` is the per-axis table before any shift |
| Lattice.BaseNorms | kurapy/lattice.py:23-24 | `np.linalg.norm(rep_pos_norm, axis=2)` is the norm table before any shift |
| Coupling.FillDiagonal | kurapy/coupling.py:6 | `np.fill_diagonal(K, 0)` zeroes exactly the diagonal |
| Coupling.Constant | kurapy/coupling.py:4-7 | all ones except a zero diagonal |
| Coupling.Neighbour | kurapy/coupling.py:10-23 | a lattice of size 0 raises ZeroDivisionError on the threshold, before any metric check; otherwise a lattice without metric raises TypeError; otherwise entry `(a, b)` is 1 iff `a != b` and their distance is below `1.01 / size` (the cartesian distance being the axis sum) |
| Coupling.Near | kurapy/coupling.py:13-21 | in lattice units, a pair is below the threshold iff its axis distances sum to at most 1 (cartesian) or its squared norm is at most 1 (euclidean); never without a table |
| Coupling.Harmonic | kurapy/coupling.py:29-30 | `cos(2 pi n d)` for any real harmonic `n`; the zeroth harmonic and the zero distance give `cos 0` |
| Coupling.CosineEntry | kurapy/coupling.py:29-31 | the `cosine` kernel of a pair; the zeroth harmonic couples every pair by `2 cos 0` |
| Coupling.Cosine2Entry | kurapy/coupling.py:41-43 | the `cosine2` kernel of a pair is the mean of the `cosine` kernels of the harmonics `n` and `n + 1` |
| Coupling.Cosine | kurapy/coupling.py:26-35 | only a cartesian lattice is accepted; entry `(a, b)` is `cos(2 pi n dx) + cos(2 pi n dy)` off the diagonal, for any real `n` |
| Coupling.Cosine2 | kurapy/coupling.py:38-47 | only a cartesian lattice is accepted; entry `(a, b)` is the average of the harmonics `n` and `n + 1` on each axis, summed over the axes, off the diagonal, for any real `n` |
| Coupling.Cosine2IsMeanOfCosines | kurapy/coupling.py:26-47 | `cosine2` succeeds exactly when `cosine` does, and is then the entrywise mean of `cosine` for `n` and for `n + 1` |
| Coupling.BuildersSymmetric | kurapy/coupling.py:4-47 | every builder returns a symmetric matrix with a zero diagonal |
| Coupling.NeighbourIsAdjacency | kurapy/coupling.py:10-23 | on a periodic lattice of side at least 3, under either metric, `neighbour` is exactly the adjacency matrix of the four periodic neighbours |
| Coupling.NearIsStep | kurapy/coupling.py:13-21 | below the threshold under either metric means being one of the four periodic neighbours |
| Coupling.NeighbourCoordinates | kurapy/coupling.py:10-23 | the four neighbours of a site are the sites one step away along one axis, periodically |
| Coupling.FourNeighboursDistinct | kurapy/coupling.py:10-23 | on a lattice of side at least 3 every site has exactly four distinct neighbours |
| Coupling.NeighbourRowSum | kurapy/coupling.py:10-23 | on a periodic lattice of side at least 3, every row of the `neighbour` matrix sums to 4 |
| Coupling.AxisStep | kurapy/coupling.py:13-21 | a minimum-image axis distance of 1 means one periodic step either way |
| Model.ParseMethod | kurapy/model.py:23-26 | exactly `forward_euler` and `rk4` are accepted |
| Model.Model.L | kurapy/model.py:16 | `int(np.sqrt(N))` is the integer square root of `N` |
| Base.FloorSqrt | kurapy/model.py:16 | `int(np.sqrt(n))` is the largest `l` with `l * l <= n` |
| Model.SideOfSquare | kurapy/model.py:15-16 | a model of `l * l` oscillators has side `l` |
| Model.Dpdt | kurapy/model.py:28-29 | returns one rate per oscillator, each its frequency plus the column sum of `K * sin(phi_j - phi_i + shift)` over `N` plus the noise term; the contract states the length, and Model.DpdtIsFrequency and Model.RateIsFrequency pin the value |
| Model.NoiseKick | kurapy/model.py:29 | the noise term is a normal draw of scale `noise * pi`, so it vanishes without noise |
| Model.DpdtIsFrequency | kurapy/model.py:28-29 | when no pair interacts and there is no noise, the derivative is the frequency vector |
| Model.RateIsFrequency | kurapy/model.py:29 | the same for one oscillator |
| Model.InteractionVanishes | kurapy/model.py:29 | the interaction sum is zero when every term has a zero coupling or a zero sine |
| Model.Interaction | kurapy/model.py:29 | the axis-0 column sum of `K * sin(phi_j - phi_i + shift)` vanishes when every term has a zero coupling or a zero sine |
| Model.Rate | kurapy/model.py:29 | without noise, a site that no site acts on moves at its natural frequency |
| Model.UncoupledIsQuiet | kurapy/model.py:29 | a zero coupling matrix makes every interaction term zero |
| Model.InPhaseIsQuiet | kurapy/model.py:29 | with no phase shift, oscillators in phase do not interact |
| Model.EulerStep | kurapy/model.py:61-62 | a forward-Euler row lies in `[0, 2 pi)` and has one phase per oscillator |
| Model.RK4Step | kurapy/model.py:70-74 | an RK4 row lies in `[0, 2 pi)` and has one phase per oscillator |
| Model.RK4Update | kurapy/model.py:74 | the weighted RK4 update, wrapped, lies in `[0, 2 pi)` |
| Model.RK4UpdateEqualStages | kurapy/model.py:74 | with four equal stages the RK4 update is the Euler update |
| Model.WrapAll | kurapy/model.py:62 | `% (2 * np.pi)` on a row keeps its length and brings every entry into `[0, 2 pi)` |
| Model.EulerDrift | kurapy/model.py:61-62 | with no interaction and no noise an Euler step is free rotation by `dt * freq` |
| Model.RK4Drift | kurapy/model.py:70-74 | with no interaction at any stage and no noise an RK4 step is free rotation by `dt * freq` |
| Model.StepIsDrift | kurapy/model.py:57-76 | without noise or control, and with no interaction at any stage, a step of either scheme is free rotation by `dt * freq` |
| Model.Locs | kurapy/model.py:36-39 | four cells (left, right, up, down), all inside the grid |
| Model.LocsArePeriodic | kurapy/model.py:36-39 | the cells are the source's `(s - 1) % L` and `(s + 1) % L` neighbours, in its order |
| Model.Reshape | kurapy/model.py:32 | `np.reshape(phi, (L, L))` puts `phi[r * L + c]` at `[r][c]` |
| Model.ReshapeFlatten | kurapy/model.py:32-47 | reshaping a flattened table gives the table back |
| Model.FlattenReshape | kurapy/model.py:32-47 | flattening a reshaped vector gives the vector back |
| Model.FlattenIndex | kurapy/model.py:47 | `np.reshape(grid, N)` of a table of width `w` has `rows * w` entries and puts cell `(r, c)` at `r * w + c` |
| Model.ArgWhere | kurapy/model.py:33 | `np.argwhere(control != 0)` lists exactly the nonzero cells, each once, in row-major order |
| Model.ArgWhereBelow | kurapy/model.py:33 | the same restricted to the cells before a row-major index |
| Model.FreePhasors | kurapy/model.py:40-43 | the phasors kept are at most the four neighbours |
| Model.NoFreePhasors | kurapy/model.py:40-45 | with every neighbour controlled, no phasor is kept (the source then averages `[0]`) |
| Model.AlignedPhasors | kurapy/model.py:40-43 | free neighbours at one phase contribute copies of its phasor, and at least one when a neighbour is free |
| Model.ControlGrid | kurapy/model.py:34-47 | every entry of the controlled grid lies in `[0, 2 pi)` |
| Model.ControlGridAt | kurapy/model.py:34-47 | each controlled cell takes the mean free phase plus strength times pi, and every other cell keeps its phase; all are then wrapped |
| Model.ApplyControl | kurapy/model.py:31-47 | the method computes the controlled vector |
| Model.ControlRows | kurapy/model.py:34-47 | copying the grid, overriding the controlled cells and wrapping yields the controlled grid |
| Model.ControlSites | kurapy/model.py:34-46 | after the loop over `argwhere` sites, controlled cells hold their new value and all others their old one |
| Model.ControlCell | kurapy/model.py:36-46 | the inner loop computes a controlled cell's new value |
| Model.ControlledValue | kurapy/model.py:40-46 | the value written into a controlled cell; with no free neighbour it is `np.angle(0)` plus strength times pi |
| Model.PaddedMean | kurapy/model.py:44-46 | `ns.append(0)` on an empty list, then `np.mean`: the mean of the phasors, or 0 when there is none |
| Model.WrapTable | kurapy/model.py:47 | `new_phimat % (2 * np.pi)` entry by entry |
| Model.ControlStep | kurapy/model.py:31-47 | the controlled vector lies in `[0, 2 pi)` and has one phase per oscillator |
| Model.ControlStepGrid | kurapy/model.py:31-47 | reshaping the controlled vector gives the controlled grid |
| Model.ControlKeepsFreeSites | kurapy/model.py:34-47 | uncontrolled sites keep their phase, unchanged if it is already in `[0, 2 pi)` |
| Model.ControlledCell | kurapy/model.py:46-47 | a controlled site gets the wrapped angle of the mean free phasor plus strength times pi |
| Model.ControlFallback | kurapy/model.py:44-46 | a controlled site whose four neighbours are all controlled gets `strength * pi`, wrapped, given `np.angle(0) == 0` |
| Model.FallbackValue | kurapy/model.py:44-46 | the same before wrapping |
| Model.ControlAligned | kurapy/model.py:40-47 | a controlled site whose free neighbours share phase `theta` gets `theta + strength * pi`, wrapped |
| Model.AlignedValue | kurapy/model.py:40-46 | the same before wrapping |
| Model.AlignedTarget | kurapy/model.py:46-47 | the aligned target lies in `[0, 2 pi)` |
| Model.Step | kurapy/model.py:57-76 | one loop iteration of either scheme, control included, gives a row in `[0, 2 pi)` |
| Model.Row | kurapy/model.py:55-76 | row 0 is `phi0`; every later row lies in `[0, 2 pi)` |
| Model.RowSucc | kurapy/model.py:58-64 | row `i + 1` is one step from row `i` |
| Model.Trajectory | kurapy/model.py:54-76 | `len(t)` rows, the first `phi0`, the others in `[0, 2 pi)` |
| Model.Evolve | kurapy/model.py:25-84 | an unknown method raises ValueError; a time grid of fewer than two samples raises on `t[1]`; a negative noise level raises in `np.random.normal`; otherwise the trajectory for `dt = t[1] - t[0]` |
| Model.FillRows | kurapy/model.py:55-76 | the loop `for i in range(len(phis) - 1)` fills the array with the trajectory |
| Model.NextRow | kurapy/model.py:61-76 | the loop body computes the next row |
| Model.UncoupledRows | kurapy/model.py:57-76 | with zero coupling, no noise and no control, every row is the free drift by `dt * freq` |
| Model.UncoupledRowStep | kurapy/model.py:57-76 | the inductive step: with zero coupling, no noise and no control, row `i + 1` is the free drift of `phi0` by `i + 1` steps |
| Model.UncoupledDrift | kurapy/model.py:57-76 | with zero coupling, no noise and no control, row `j` is `(phi0 + j * dt * freq) % 2 pi` |
| Model.SynchronyRows | kurapy/model.py:57-76 | without noise or control, and given `sin 0 = 0`, an in-phase start with a common frequency and no phase shift drifts freely |
| Model.SynchronyPersists | kurapy/model.py:57-76 | without noise or control, with no phase shift and given `sin 0 = 0`, an in-phase start with a common frequency stays synchronised, at `(theta + j * dt * omega) % 2 pi` |
| Model.DriftSteps | kurapy/model.py:62 | `j` wrapped increments equal the closed form `Wrap(x + j * d)` |
| Model.ScaledDriftClosedForm | kurapy/model.py:62 | stepwise free rotation agrees with the closed form |
| Phase.Wrap | kurapy/model.py:62 | `x % (2 * np.pi)` lies in `[0, 2 pi)` and differs from `x` by whole turns |
| Phase.WrapAddLeft | kurapy/model.py:62 | wrapping an intermediate sum does not change the wrapped total |
| Phase.WrapIdempotent | kurapy/model.py:62 | wrapping twice is wrapping once |
| Phase.WrapFixed | kurapy/model.py:47 | a phase in `[0, 2 pi)` is unchanged by wrapping |
| Phase.MeanOfCopies | kurapy/model.py:46 | the mean of copies of a phasor is that phasor |
| Phase.WrapCentralRange | kurapy/analyze.py:78-81 | the two masked corrections bring a difference of two phases into `[-pi, pi]` by at most one turn |
| Phase.WrapCentral | kurapy/analyze.py:78-81 | the two masked corrections change a difference by at most one turn, leave a difference within `[-pi, pi]` unchanged, and bring any difference within `[-3 pi, 3 pi]` into `[-pi, pi]` |
| Base.PeriodicStep | kurapy/model.py:36-39 | the next and previous index on a periodic axis are `(x + 1) % n` and `(x - 1) % n` |
| Analyze.ShapeMatrix | kurapy/analyze.py:6-10 | frames of a square length `dd * dd` become `dd x dd` grids with `phi[f][j * dd + i]` at `[f][i][j]`; a non-square length raises when there is a frame |
| Analyze.ShapeLinear | kurapy/analyze.py:13-16 | cell `(i, j)` of each grid goes to index `j * rows + i` |
| Analyze.LinearOfMatrix | kurapy/analyze.py:6-16 | `shape_linear` undoes `shape_matrix` |
| Analyze.MatrixOfLinear | kurapy/analyze.py:6-16 | `shape_matrix` undoes `shape_linear` on square grids |
| Analyze.GlobalOp | kurapy/analyze.py:19-24 | per frame, `R` is the modulus of the mean phasor and `PSI` its angle in `[0, 2 pi)`; no frames raises |
| Analyze.Direction | kurapy/analyze.py:23 | `np.angle(z) % (2 * np.pi)` lies in `[0, 2 pi)` |
| Analyze.GlobalOpInPhase | kurapy/analyze.py:19-24 | a frame in phase at `theta` has `R = 1` and `PSI = theta` modulo a turn |
| Analyze.RollFromIsMod | kurapy/analyze.py:29-32 | `np.roll` by one place brings index `(i - shift) % n` to `i` |
| Analyze.Roll | kurapy/analyze.py:29-32 | `np.roll(a, shift, axis)` moves each grid periodically along one axis |
| Analyze.LocalMeans | kurapy/analyze.py:28-34 | the mean at each cell is over the cell and its four periodic neighbours |
| Analyze.LocalOp | kurapy/analyze.py:27-37 | per cell, the local `R` and `PSI` of the five-point stencil mean |
| Analyze.LocalOpInPhase | kurapy/analyze.py:27-37 | a cell whose stencil is in phase at `theta` has `R = 1` and `PSI = theta` modulo a turn |
| Analyze.Nearest | kurapy/analyze.py:52-53 | `dmin` is the least magnitude among `pp - 2 pi`, `pp`, `pp + 2 pi` and is attained by one of them |
| Analyze.Selected | kurapy/analyze.py:51-58 | for every `pp`, the masked sum is the one candidate of least magnitude, or 0 at exactly half a turn either way, where two candidates tie and cancel |
| Analyze.SelectedIsCentral | kurapy/analyze.py:51-58 | keeping the candidates `pp - 2 pi`, `pp`, `pp + 2 pi` of least magnitude yields the difference brought into `(-pi, pi)`, or 0 at exactly half a turn |
| Analyze.CurvatureAt | kurapy/analyze.py:59-61 | the curvature of a cell is non-negative, and zero exactly when `dl` vanishes along both axes |
| Analyze.CurvatureField | kurapy/analyze.py:40-61 | the curvature stack has the input's shape and every entry is non-negative, for every input |
| Analyze.Curvature | kurapy/analyze.py:40-61 | the loops over the axes and the two pushes compute the curvature field |
| Analyze.AxisTurns | kurapy/analyze.py:45-58 | the loop over the two pushes of one axis accumulates `dl` |
| Analyze.AddPush | kurapy/analyze.py:51-58 | one push adds its selected differences to `dl` |
| Analyze.FlatCurvature | kurapy/analyze.py:40-61 | a uniform field has zero curvature |
| Analyze.CurvatureBounds | kurapy/analyze.py:40-61 | the curvature of phases within a turn lies in `[0, 1]` |
| Analyze.Velocity | kurapy/analyze.py:76-83 | for any phases, twice a velocity component is the raw rolled difference up to one turn, equal to it within `[-pi, pi]`, and the component lies in `[-pi/2, pi/2]` whenever the difference is within `[-3 pi, 3 pi]` |
| Analyze.VelocityRange | kurapy/analyze.py:76-83 | each velocity component of phases within a turn lies in `[-pi/2, pi/2]`, and twice it is the raw central difference up to one turn |
| Analyze.RawVelocity | kurapy/analyze.py:76-83 | the rolled central difference, corrected by a turn, halved |
| Analyze.Threshold | kurapy/analyze.py:87 | `laplace > 0.05` cell by cell |
| Analyze.Core | kurapy/analyze.py:86-91 | the core mask of a frame is a grid of the frame's shape |
| Analyze.CoreCoversCurved | kurapy/analyze.py:86-91 | every cell of curvature above 0.05 is in the closed core mask |
| Analyze.ZeroWhere | kurapy/analyze.py:93-94 | `v[morphed] = 0` zeroes exactly the masked cells |
| Analyze.MaskFrame | kurapy/analyze.py:90-94 | one iteration of the frame loop masks that frame and leaves the others |
| Analyze.Gradient | kurapy/analyze.py:64-96 | the velocity field, zeroed on each frame's closed core mask; in particular it vanishes wherever the curvature exceeds 0.05 |

## Left out

- Floating point. Phases, distances and thresholds are exact reals.
  - `P` is the exact value of the double `2 * np.pi`.
  - The thresholds 1.01 and 0.05 are taken as the decimal values.
  - Rounding in sums, products and `np.sqrt` is not modelled.
- Analyze.Selected: `np.around(..., decimals=4)` in the curvature's tie test
  becomes exact equality of magnitudes. Where `|pp|` lies within about 5e-5
  of pi, the source rounds two candidates to the same magnitude and keeps
  both, while the model keeps only the smaller one. The difference reaches
  `AxisTurn`, `CurvatureAt`, `Curvature` and, through the 0.05 threshold,
  the core mask of `Gradient`.
- Analyze.SelectedIsCentral: the same rounding is left out of this lemma.
- The transcendental functions (`np.sin`, `np.cos`, `np.angle`, complex
  `np.abs`) are uninterpreted parameters. Facts about them are lemma
  hypotheses.
- `np.random.normal` is a parameter stream of standard-normal draws,
  scaled by `noise * pi`. Which draws numpy hands out is not modelled.
- The morphological closing `cv2.morphologyEx(..., MORPH_CLOSE, 3x3)` is a
  parameter. The model assumes it keeps the frame's shape and every set
  cell (a closing is extensive). Its border handling is not modelled.
- Model.Evolve: the shapes are preconditions, not errors.
  - `|phi0| == N` is required.
  - An `N x N` coupling matrix is required.
  - A control mask needs `N` to be a perfect square and an `L x L` mask
    (where numpy's `reshape` would raise).
- Analyze.GlobalOp: requires frames of a positive length. numpy returns
  NaN for empty frames; that value is not modelled.
- Analyze.ShapeMatrix and Analyze.LocalOp: numpy arrays are rectangular,
  so every frame has the same shape (`Shaped`).
- `verbose` output (`verbosity`, `sys.stdout`) is I/O and is left out.
- `second_order` is stored by the source but never used; it is left out.
- `Lattice.Lower`: lower-cases ASCII letters only.
- There is no size check: the documented `InvalidSizeError` is never raised
  by `lattice.py`. The model follows the code and raises nothing on a size
  of 0; `neighbour` then fails on its threshold (Coupling.Neighbour).
- Lattice.Lattice.constructor: negative sizes are excluded by `size: nat`.
  The source accepts them in `__init__` (no positions, `N = size ** 2`),
  and `set_distances` then fails to broadcast for sizes of -2 and below;
  that behaviour is not modelled.
- The cosine kernels use the absolute per-axis distances the lattice
  stores, so they come out symmetric (Coupling.BuildersSymmetric), although
  they are documented as possibly non-symmetric. The model follows the code.
- `apply_control` and the rolls use branches for `(x +- 1) % L`. They are
  proved equal to the `%` form (Model.LocsArePeriodic,
  Analyze.RollFromIsMod).
- `spiral_centroid`, `kurapy/visualize.py` and `kurapy/sample.py` are not
  part of this model.
