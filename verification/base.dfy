/** Shared vocabulary: optional values, results carrying the exceptions the
    package raises, and small integer helpers. */
module Base {

  datatype Option<+T> = None | Some(value: T)

  /** The exceptions raised by the core. `InvalidMetric` and `InvalidMethod`
      are Python's ValueError, `MetricMismatch` is TypeError,
      `TimeGridTooShort` is the IndexError of reading `t[1]` from a time grid
      with fewer than two samples, `NegativeNoiseScale` is the ValueError
      numpy raises when asked for normal draws of negative scale,
      `ShapeMismatch` is the ValueError of a `reshape` that cannot keep the
      number of elements, `EmptyInput` is the IndexError of reading
      `phi[0]` from an array without rows, and `ZeroDivision` is Python's
      ZeroDivisionError. */
  datatype Error =
    | InvalidMetric | MetricMismatch | InvalidMethod | TimeGridTooShort | NegativeNoiseScale
    | ShapeMismatch | EmptyInput | ZeroDivision

  datatype Result<+T> = Success(value: T) | Failure(error: Error)

  datatype Outcome = Pass | Fail(error: Error)

  function Abs(x: int): (r: nat)
    ensures r == x || r == -x
  {
    if x < 0 then -x else x
  }

  function Min(a: int, b: int): (r: int)
    ensures r <= a && r <= b && (r == a || r == b)
  {
    if a <= b then a else b
  }

  function Sq(x: int): int { x * x }

  /** `l * l` as the sum of the first `l` odd numbers, so that unfolding it
      stays linear. */
  function Square(l: nat): nat
  {
    if l == 0 then 0 else Square(l - 1) + 2 * l - 1
  }

  lemma {:induction false} SquareIsProduct(l: nat)
    ensures Square(l) == l * l
  {
    if l > 0 {
      SquareIsProduct(l - 1);
      assert (l - 1) * (l - 1) == l * l - 2 * l + 1;
    }
  }

  /** `int(np.sqrt(n))`: the integer square root, rounded down. */
  function FloorSqrt(n: nat): (r: nat)
    ensures Square(r) <= n < Square(r + 1)
  {
    FloorSqrtFrom(n, 0)
  }

  function FloorSqrtFrom(n: nat, k: nat): (r: nat)
    requires Square(k) <= n
    ensures k <= r
    ensures Square(r) <= n < Square(r + 1)
    decreases n - k
  {
    if Square(k + 1) > n then k
    else FloorSqrtFrom(n, k + 1)
  }

  lemma {:induction false} FloorSqrtOfSquare(l: nat)
    ensures FloorSqrt(Square(l)) == l
  {
    var r := FloorSqrt(Square(l));
    SquareIsProduct(l);
    SquareIsProduct(r);
    SquareIsProduct(r + 1);
    SquareMonotone(r, l);
    SquareMonotone(r + 1, l);
  }

  lemma SquareMonotone(a: nat, b: nat)
    ensures a <= b <==> a * a <= b * b
  {
    if a <= b {
      assert a * a <= a * b <= b * b;
    } else {
      assert b * b <= b * a < a * a;
    }
  }

  /** An integer multiple of a positive `w` lies outside `(-w, w)` unless the
      multiplier is zero. */
  lemma MultipleSign(d: int, w: int)
    ensures w > 0 && d >= 1 ==> d * w >= w
    ensures w > 0 && d <= -1 ==> d * w <= -w
  {
    if w > 0 && d >= 1 {
      assert d * w == w + (d - 1) * w;
    }
    if w > 0 && d <= -1 {
      assert d * w == -w + (d + 1) * w;
    }
  }

  /** Row-major cell index arithmetic: the decomposition of `y * w + x` with
      `0 <= x < w` into quotient and remainder is `(y, x)`. */
  lemma DivModCompose(x: int, y: int, w: int)
    requires 0 <= x < w
    ensures (y * w + x) / w == y && (y * w + x) % w == x
  {
    var k := y * w + x;
    var q, m := k / w, k % w;
    assert k == q * w + m && 0 <= m < w;
    assert (q - y) * w == x - m;
    MultipleSign(q - y, w);
  }

  lemma DivModBounds(k: int, w: int, h: int)
    requires 0 < w && 0 <= k < h * w
    ensures 0 <= k % w < w && 0 <= k / w < h
    ensures k == (k / w) * w + k % w
  {
    var q := k / w;
    assert k == q * w + k % w;
    MultipleSign(q - h + 1, w);
    assert (q - h) * w == q * w - h * w;
  }

  /** The next and the previous index along a periodic axis of length `n`. */
  function Succ(x: int, n: int): (r: int)
    ensures 0 <= x < n ==> 0 <= r < n
  {
    if x == n - 1 then 0 else x + 1
  }

  function Pred(x: int, n: int): (r: int)
    ensures 0 <= x < n ==> 0 <= r < n
  {
    if x == 0 then n - 1 else x - 1
  }

  /** The branches are Python's `(x + 1) % n` and `(x - 1) % n`. */
  lemma PeriodicStep(x: int, n: int)
    requires 0 <= x < n
    ensures (x + 1) % n == Succ(x, n) && (x - 1) % n == Pred(x, n)
  {
    if x == n - 1 {
      DivModCompose(0, 1, n);
    } else {
      DivModCompose(x + 1, 0, n);
    }
    if x == 0 {
      DivModCompose(n - 1, -1, n);
    } else {
      DivModCompose(x - 1, 0, n);
    }
  }

  /** A square table of side `n`. */
  ghost predicate IsTable<T>(t: seq<seq<T>>, n: nat)
  {
    |t| == n && forall a | 0 <= a < n :: |t[a]| == n
  }

  /** The row-major index of cell `(r, c)` in a grid of width `w`. */
  function Flat(w: int, r: int, c: int): int
  {
    r * w + c
  }

  /** The row-major index of a cell of an `h x w` grid is in range and
      decomposes back into `(r, c)`. */
  lemma RowMajorIndex(w: int, h: int, r: int, c: int)
    requires 0 <= c < w && 0 <= r < h
    ensures 0 <= Flat(w, r, c) < h * w
    ensures Flat(w, r, c) / w == r && Flat(w, r, c) % w == c
  {
    DivModCompose(c, r, w);
    MultipleSign(h - r - 1, w);
    MultipleSign(r, w);
    assert r * w + c < (r + 1) * w <= h * w;
  }

  lemma RowMajorAll(w: int, h: int)
    ensures forall r, c | 0 <= c < w && 0 <= r < h ::
      0 <= Flat(w, r, c) < h * w && Flat(w, r, c) / w == r && Flat(w, r, c) % w == c
  {
    forall r, c | 0 <= c < w && 0 <= r < h
      ensures 0 <= Flat(w, r, c) < h * w && Flat(w, r, c) / w == r && Flat(w, r, c) % w == c
    {
      RowMajorIndex(w, h, r, c);
    }
  }

  /** Two tables of the same shape with the same entries are equal. */
  lemma TableExt<T>(x: seq<seq<T>>, y: seq<seq<T>>)
    requires |x| == |y|
    requires forall a | 0 <= a < |x| :: |x[a]| == |y[a]|
    requires forall a, b | 0 <= a < |x| && 0 <= b < |x[a]| :: x[a][b] == y[a][b]
    ensures x == y
  {
    forall a | 0 <= a < |x|
      ensures x[a] == y[a]
    {
      assert |x[a]| == |y[a]|;
    }
  }
}
