/** Phase arithmetic on the circle of circumference `P` (the source's `2 * np.pi`),
    complex unit phasors, and the transcendental functions the source calls
    through numpy. */
module Phase {

  type Positive = r: real | r > 0.0 witness 1.0

  /** The period of a phase, `2 * np.pi`: the double nearest to two pi,
      written out exactly. */
  const P: Positive := 6.28318530717958623199592693708837032318115234375

  /** `np.pi`. */
  function Pi(): real { P / 2.0 }

  datatype Complex = Complex(re: real, im: real)

  function CAdd(a: Complex, b: Complex): Complex
  {
    Complex(a.re + b.re, a.im + b.im)
  }

  function CScale(s: real, a: Complex): Complex
  {
    Complex(s * a.re, s * a.im)
  }

  /** The transcendental functions the source takes from numpy, left
      uninterpreted: `np.sin`, `np.cos`, `np.angle` (argument of a complex
      number) and `np.abs` of a complex number. */
  datatype Trig = Trig(sin: real -> real, cos: real -> real,
                       angle: Complex -> real, modulus: Complex -> real)

  /** The transcendental functions as plain functions of the parameters, so
      that every use names the same term. */
  function Sin(trig: Trig, x: real): real { trig.sin(x) }

  function Cos(trig: Trig, x: real): real { trig.cos(x) }

  function Angle(trig: Trig, z: Complex): real { trig.angle(z) }

  function Modulus(trig: Trig, z: Complex): real { trig.modulus(z) }

  /** `np.exp(1j * theta)`. */
  function Cis(trig: Trig, theta: real): Complex
  {
    Complex(Cos(trig, theta), Sin(trig, theta))
  }

  /** The sum of a list of complex numbers, left to right. */
  function CSum(ns: seq<Complex>): Complex
  {
    if ns == [] then Complex(0.0, 0.0) else CAdd(CSum(ns[..|ns| - 1]), ns[|ns| - 1])
  }

  /** `np.mean(ns, axis=0)` of a list of complex numbers. */
  function Mean(ns: seq<Complex>): Complex
    requires |ns| > 0
  {
    CScale(1.0 / (|ns| as real), CSum(ns))
  }

  lemma {:induction false} SumOfCopies(ns: seq<Complex>, w: Complex)
    requires forall e | 0 <= e < |ns| :: ns[e] == w
    ensures CSum(ns) == CScale(|ns| as real, w)
  {
    if ns != [] {
      SumOfCopies(ns[..|ns| - 1], w);
    }
  }

  lemma InverseScale(n: real, x: real)
    requires n > 0.0
    ensures (1.0 / n) * (n * x) == x
  {
  }

  /** The mean of copies of one phasor is that phasor. */
  lemma {:induction false} MeanOfCopies(ns: seq<Complex>, w: Complex)
    requires |ns| > 0 && forall e | 0 <= e < |ns| :: ns[e] == w
    ensures Mean(ns) == w
  {
    SumOfCopies(ns, w);
    InverseScale(|ns| as real, w.re);
    InverseScale(|ns| as real, w.im);
  }

  /** Number of whole turns below `x`. */
  function Turns(x: real): int
  {
    (x / P).Floor
  }

  /** Python's `x % (2 * np.pi)`: the representative of `x` in `[0, P)`. */
  function Wrap(x: real): (r: real)
    ensures 0.0 <= r < P
    ensures r == x - (Turns(x) as real) * P
  {
    WrapBounds(x);
    x - (Turns(x) as real) * P
  }

  lemma DivMul(x: real, p: real)
    requires p > 0.0
    ensures (x / p) * p == x
  {}

  lemma FracTimes(t: real, p: real)
    requires 0.0 <= t < 1.0 && p > 0.0
    ensures 0.0 <= t * p < p
  {
    assert (1.0 - t) * p > 0.0;
  }

  lemma Residue(x: real, p: real, q: real, k: real)
    requires p > 0.0 && q * p == x && k <= q < k + 1.0
    ensures 0.0 <= x - k * p < p
  {
    var t := q - k;
    var y := t * p;
    FracTimes(t, p);
    assert y < p;
    assert x - k * p == y;
  }

  lemma WrapBounds(x: real)
    ensures 0.0 <= x - (Turns(x) as real) * P < P
  {
    DivMul(x, P);
    Residue(x, P, x / P, Turns(x) as real);
  }

  lemma CancelLt(a: real, b: real, p: real)
    requires p > 0.0 && a * p < b * p
    ensures a < b
  {
    assert (b - a) * p > 0.0;
  }

  lemma CancelLe(a: real, b: real, p: real)
    requires p > 0.0 && a * p <= b * p
    ensures a <= b
  {
    assert (b - a) * p >= 0.0;
  }

  /** A phase already in `[0, P)` is its own representative. */
  lemma {:induction false} WrapFixed(x: real)
    requires 0.0 <= x < P
    ensures Wrap(x) == x
  {
    var q := x / P;
    DivMul(x, P);
    CancelLt(q, 1.0, P);
    CancelLe(0.0, q, P);
    assert q.Floor == 0;
  }

  /** Adding whole turns does not change the representative. */
  lemma {:induction false} WrapShift(x: real, k: int)
    ensures Wrap(x + (k as real) * P) == Wrap(x)
  {
    var q := x / P;
    var q' := (x + (k as real) * P) / P;
    DivMul(x, P);
    DivMul(x + (k as real) * P, P);
    assert (q' - q - k as real) * P == 0.0;
    assert q' == q + (k as real);
    assert q'.Floor == q.Floor + k;
  }

  /** Wrapping an intermediate sum does not change the wrapped total. */
  lemma {:induction false} WrapAddLeft(x: real, y: real)
    ensures Wrap(Wrap(x) + y) == Wrap(x + y)
  {
    var k := Turns(x);
    var j := -k;
    var a := Wrap(x) + y;
    var b := (x + y) + (j as real) * P;
    assert a == b;
    WrapShift(x + y, j);
    assert Wrap(b) == Wrap(x + y);
  }

  lemma {:induction false} WrapIdempotent(x: real)
    ensures Wrap(Wrap(x)) == Wrap(x)
  {
    WrapFixed(Wrap(x));
  }

  /** `np.abs` on reals. */
  function RealAbs(x: real): (r: real)
    ensures r >= 0.0 && (r == x || r == -x)
  {
    if x < 0.0 then -x else x
  }

  /** The two masked corrections of `gradient`: a difference above `np.pi`
      loses a turn, then one below `-np.pi` gains a turn. */
  function WrapCentral(d: real): (r: real)
    ensures r == d || r == d - P || r == d + P
    ensures -Pi() <= d <= Pi() ==> r == d
    ensures -3.0 * Pi() <= d <= 3.0 * Pi() ==> -Pi() <= r <= Pi()
  {
    var once := if d > Pi() then d - P else d;
    if once < -Pi() then once + P else once
  }

  /** For a difference of two phases in `[0, P)` the corrected value lies in
      `[-Pi, Pi]` and differs from the difference by a whole number of turns. */
  lemma WrapCentralRange(d: real)
    requires 0.0 - P < d < P
    ensures -Pi() <= WrapCentral(d) <= Pi()
    ensures WrapCentral(d) == d || WrapCentral(d) == d - P || WrapCentral(d) == d + P
  {
  }
}
