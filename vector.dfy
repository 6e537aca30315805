/**
 * The renderer's three-component vector (a right-handed, z-up frame), with the
 * scalar arithmetic of its non-SIMD branches. Components are reals, so every
 * operation is exact; `f32` rounding is not modelled.
 *
 * The square root is a foreign numeric function: it is passed in as `sqrt`,
 * and `IsSqrt(sqrt)` states the two laws a caller may rely on.
 */
module Vector3 {

  datatype Vec3 = Vec3(x: real, y: real, z: real)

  /** Tolerance of the zero and unit-length tests (1e-6). */
  const Tolerance: real := 0.000001

  const Zero: Vec3 := Vec3(0.0, 0.0, 0.0)
  const X: Vec3 := Vec3(1.0, 0.0, 0.0)
  const Y: Vec3 := Vec3(0.0, 1.0, 0.0)
  const Z: Vec3 := Vec3(0.0, 0.0, 1.0)

  function Abs(r: real): (a: real)
    ensures a >= 0.0 && (a == r || a == -r)
  {
    if r < 0.0 then -r else r
  }

  /** `f32::max` on ordinary (non-NaN) operands. */
  function Max(a: real, b: real): (m: real)
    ensures m >= a && m >= b && (m == a || m == b)
  {
    if a < b then b else a
  }

  function Add(a: Vec3, b: Vec3): Vec3 {
    Vec3(a.x + b.x, a.y + b.y, a.z + b.z)
  }

  function Neg(a: Vec3): (r: Vec3)
    ensures Add(a, r) == Zero
  {
    Vec3(-a.x, -a.y, -a.z)
  }

  function Sub(a: Vec3, b: Vec3): (r: Vec3)
    ensures Add(r, b) == a
  {
    Vec3(a.x - b.x, a.y - b.y, a.z - b.z)
  }

  /** `Mul<f32>`: multiplication by a scalar. */
  function Scale(a: Vec3, s: real): Vec3 {
    Vec3(a.x * s, a.y * s, a.z * s)
  }

  /** `Div<f32>`: division by a scalar (in `f32` a zero divisor gives infinities or NaN). */
  function Div(a: Vec3, s: real): (r: Vec3)
    requires s != 0.0
    ensures Scale(r, s) == a
  {
    Vec3(a.x / s, a.y / s, a.z / s)
  }

  function Dot(a: Vec3, b: Vec3): real {
    a.x * b.x + a.y * b.y + a.z * b.z
  }

  function Cross(a: Vec3, b: Vec3): Vec3 {
    Vec3(a.y * b.z - a.z * b.y, a.z * b.x - a.x * b.z, a.x * b.y - a.y * b.x)
  }

  /** The largest absolute component is below the tolerance. */
  predicate IsZero(v: Vec3) {
    Max(Max(Abs(v.x), Abs(v.y)), Abs(v.z)) < Tolerance
  }

  /** The squared norm is within the tolerance of 1. */
  predicate IsNormalized(v: Vec3) {
    Abs(Dot(v, v) - 1.0) < Tolerance
  }

  /** The laws of the square root the model relies on. */
  ghost predicate IsSqrt(sqrt: real -> real) {
    forall d :: d >= 0.0 ==> sqrt(d) >= 0.0 && sqrt(d) * sqrt(d) == d
  }

  /** The root of the sum of squares, written out as the source does rather than through `Dot`. */
  function Magnitude(v: Vec3, sqrt: real -> real): real {
    sqrt(v.x * v.x + v.y * v.y + v.z * v.z)
  }

  /**
   * Division by the magnitude. For a vector whose magnitude is 0 the source
   * produces NaN components; the model returns the vector unchanged there.
   */
  function Normalize(v: Vec3, sqrt: real -> real): Vec3 {
    var m := Magnitude(v, sqrt);
    if m == 0.0 then v else Div(v, m)
  }

  // ---------------------------------------------------------------------
  // Algebraic laws.

  lemma AddNegIsZero(a: Vec3)
    ensures Add(a, Neg(a)) == Zero && Add(Neg(a), a) == Zero
  {
  }

  lemma NegNeg(a: Vec3)
    ensures Neg(Neg(a)) == a
  {
  }

  lemma SubIsAddNeg(a: Vec3, b: Vec3)
    ensures Sub(a, b) == Add(a, Neg(b))
  {
  }

  lemma CrossAntiCommutative(a: Vec3, b: Vec3)
    ensures Cross(a, b) == Neg(Cross(b, a))
  {
  }

  lemma DotCommutative(a: Vec3, b: Vec3)
    ensures Dot(a, b) == Dot(b, a)
  {
  }

  /** The cross product is orthogonal to both of its operands. */
  lemma CrossOrthogonal(a: Vec3, b: Vec3)
    ensures Dot(a, Cross(a, b)) == 0.0 && Dot(b, Cross(a, b)) == 0.0
  {
  }

  /** X, Y, Z form a right-handed basis. */
  lemma BasisRightHanded()
    ensures Cross(X, Y) == Z && Cross(Y, Z) == X && Cross(Z, X) == Y
  {
    CrossXY();
    CrossYZ();
    CrossZX();
  }

  lemma CrossXY()
    ensures Cross(X, Y) == Z
  {
  }

  lemma CrossYZ()
    ensures Cross(Y, Z) == X
  {
  }

  lemma CrossZX()
    ensures Cross(Z, X) == Y
  {
  }

  /** The zero test holds exactly when every component is below the tolerance. */
  lemma IsZeroIff(v: Vec3)
    ensures IsZero(v) <==> Abs(v.x) < Tolerance && Abs(v.y) < Tolerance && Abs(v.z) < Tolerance
  {
  }

  lemma ConstantsZeroTest()
    ensures IsZero(Zero) && !IsZero(X) && !IsZero(Y) && !IsZero(Z)
  {
  }

  lemma BasisIsNormalized()
    ensures IsNormalized(X) && IsNormalized(Y) && IsNormalized(Z) && !IsNormalized(Zero)
  {
    AxisIsNormalized(X);
    AxisIsNormalized(Y);
    AxisIsNormalized(Z);
  }

  lemma AxisIsNormalized(v: Vec3)
    requires v == X || v == Y || v == Z
    ensures IsNormalized(v)
  {
    AxisIsUnit(v);
  }

  /** The axes have squared norm exactly 1. */
  lemma AxisIsUnit(v: Vec3)
    requires v == X || v == Y || v == Z
    ensures Dot(v, v) == 1.0
  {
  }

  /** A vector of squared norm 1 does not pass the zero test. */
  lemma UnitIsNotZero(v: Vec3)
    requires Dot(v, v) == 1.0
    ensures !IsZero(v)
  {
    if IsZero(v) {
      SquareBelowTolerance(v.x);
      SquareBelowTolerance(v.y);
      SquareBelowTolerance(v.z);
    }
  }

  lemma SquareBelowTolerance(c: real)
    requires Abs(c) < Tolerance
    ensures c * c <= Tolerance * Tolerance
  {
    var a := Abs(c);
    MulMonotone(Tolerance, a, a);
    MulMonotone(Tolerance, a, Tolerance);
    assert a * a == c * c;
  }

  lemma ScaleDivInverse(a: Vec3, s: real)
    requires s != 0.0
    ensures Div(Scale(a, s), s) == a && Scale(Div(a, s), s) == a
  {
  }

  /** The dot product is linear in its second argument. */
  lemma DotAddScale(a: Vec3, b: Vec3, c: Vec3, t: real)
    ensures Dot(a, Add(b, Scale(c, t))) == Dot(a, b) + t * Dot(a, c)
  {
  }

  // ---------------------------------------------------------------------
  // Square root, magnitude and normalisation.

  /** The only non-negative square root of 1 is 1. */
  lemma SqrtOne(sqrt: real -> real)
    requires IsSqrt(sqrt)
    ensures sqrt(1.0) == 1.0
  {
    UnitRoot(sqrt(1.0));
  }

  lemma UnitRoot(q: real)
    requires q >= 0.0 && q * q == 1.0
    ensures q == 1.0
  {
    assert (q - 1.0) * (q + 1.0) == 0.0;
    ZeroProduct(q - 1.0, q + 1.0);
  }

  lemma ZeroProduct(a: real, b: real)
    requires a * b == 0.0 && b != 0.0
    ensures a == 0.0
  {
  }

  /** A vector of squared norm 1 is left as it is by normalisation. */
  lemma NormalizeUnitIsIdentity(v: Vec3, sqrt: real -> real)
    requires IsSqrt(sqrt) && Dot(v, v) == 1.0
    ensures Normalize(v, sqrt) == v
  {
    SqrtOne(sqrt);
  }

  /** Normalisation leaves the basis vectors as they are. */
  lemma NormalizeAxis(v: Vec3, sqrt: real -> real)
    requires IsSqrt(sqrt) && (v == X || v == Y || v == Z)
    ensures Normalize(v, sqrt) == v
  {
    NormalizeUnitIsIdentity(v, sqrt);
  }

  /**
   * Normalising a vector of non-zero magnitude gives a vector of exact unit
   * length, so it passes the unit-length test.
   */
  lemma NormalizeIsUnit(v: Vec3, sqrt: real -> real)
    requires IsSqrt(sqrt) && Magnitude(v, sqrt) != 0.0
    ensures Dot(Normalize(v, sqrt), Normalize(v, sqrt)) == 1.0
    ensures IsNormalized(Normalize(v, sqrt))
  {
    var m := Magnitude(v, sqrt);
    assert m * m == Dot(v, v);
    DivCancel(v.x, m);
    DivCancel(v.y, m);
    DivCancel(v.z, m);
    UnitAfterDivision(v.x, v.y, v.z, m, v.x / m, v.y / m, v.z / m);
  }

  lemma DivCancel(x: real, m: real)
    requires m != 0.0
    ensures (x / m) * m == x
  {
  }

  /** If `(a, b, c) * m == (x, y, z)` and `m` is the norm of `(x, y, z)`, then `(a, b, c)` has squared norm 1. */
  lemma UnitAfterDivision(x: real, y: real, z: real, m: real, a: real, b: real, c: real)
    requires a * m == x && b * m == y && c * m == z
    requires m * m == x * x + y * y + z * z
    requires m != 0.0
    ensures a * a + b * b + c * c == 1.0
  {
    ScaledSquare(x, m, a, m * m);
    ScaledSquare(y, m, b, m * m);
    ScaledSquare(z, m, c, m * m);
    SumScaled(a * a, b * b, c * c, m * m, x * x, y * y, z * z);
    CancelSquare(a * a + b * b + c * c, m, x * x + y * y + z * z);
  }

  lemma ScaledSquare(x: real, m: real, a: real, k: real)
    requires a * m == x && m * m == k
    ensures (a * a) * k == x * x
  {
  }

  lemma SumScaled(p: real, q: real, r: real, k: real, u: real, v: real, w: real)
    requires p * k == u && q * k == v && r * k == w
    ensures (p + q + r) * k == u + v + w
  {
  }

  lemma CancelSquare(s: real, m: real, u: real)
    requires s * (m * m) == u && m * m == u && m != 0.0
    ensures s == 1.0
  {
    assert ((s - 1.0) * m) * m == 0.0;
    ZeroProduct((s - 1.0) * m, m);
    ZeroProduct(s - 1.0, m);
  }

  lemma MulMonotone(a: real, b: real, c: real)
    requires a >= b && c >= 0.0
    ensures a * c >= b * c
  {
  }
}
