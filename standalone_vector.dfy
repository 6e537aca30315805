/**
 * The standalone copy of the vector type. Its arithmetic, constants and zero
 * test are those of `Vector3`; only its unit-length test differs: it compares
 * the magnitude itself, not the squared norm, with 1.
 */
module StandaloneVector {
  import opened Vector3

  /** The unit-length test of the standalone copy. */
  predicate IsNormalizedByMagnitude(v: Vec3, sqrt: real -> real) {
    Abs(Magnitude(v, sqrt) - 1.0) < Tolerance
  }

  lemma BasisIsNormalizedByMagnitude(sqrt: real -> real)
    requires IsSqrt(sqrt)
    ensures IsNormalizedByMagnitude(X, sqrt) && IsNormalizedByMagnitude(Y, sqrt)
    ensures IsNormalizedByMagnitude(Z, sqrt)
  {
    AxisIsNormalizedByMagnitude(X, sqrt);
    AxisIsNormalizedByMagnitude(Y, sqrt);
    AxisIsNormalizedByMagnitude(Z, sqrt);
  }

  lemma AxisIsNormalizedByMagnitude(v: Vec3, sqrt: real -> real)
    requires IsSqrt(sqrt) && (v == X || v == Y || v == Z)
    ensures IsNormalizedByMagnitude(v, sqrt)
  {
    UnitPassesMagnitudeTest(v, sqrt);
  }

  lemma ZeroFailsMagnitudeTest(sqrt: real -> real)
    requires IsSqrt(sqrt)
    ensures !IsNormalizedByMagnitude(Zero, sqrt)
  {
    SquareZero(sqrt(0.0));
  }

  lemma UnitPassesMagnitudeTest(v: Vec3, sqrt: real -> real)
    requires IsSqrt(sqrt) && Dot(v, v) == 1.0
    ensures IsNormalizedByMagnitude(v, sqrt)
  {
    SqrtOne(sqrt);
  }

  lemma SquareZero(q: real)
    requires q * q == 0.0
    ensures q == 0.0
  {
    if q != 0.0 {
      ZeroProduct(q, q);
    }
  }

  /**
   * The squared-norm test is the stricter of the two: whatever passes it also
   * passes the magnitude test, because `|m - 1| * (m + 1) == |m * m - 1|` and `m + 1 >= 1`.
   */
  lemma SquaredTestImpliesMagnitudeTest(v: Vec3, sqrt: real -> real)
    requires IsSqrt(sqrt) && IsNormalized(v)
    ensures IsNormalizedByMagnitude(v, sqrt)
  {
    var m := Magnitude(v, sqrt);
    assert (m - 1.0) * (m + 1.0) == Dot(v, v) - 1.0;
    AbsAtMostScaled(m - 1.0, m + 1.0);
    assert Abs(m - 1.0) <= Abs(Dot(v, v) - 1.0);
  }

  lemma AbsAtMostScaled(t: real, p: real)
    requires p >= 1.0
    ensures Abs(t) <= Abs(t * p)
  {
    if t >= 0.0 {
      MulMonotone(p, 1.0, t);
    } else {
      MulMonotone(p, 1.0, -t);
    }
  }

  /**
   * The converse fails: `(1, 0.001, 0)` has squared norm exactly `1 + 1e-6`,
   * so it fails the squared-norm test, while its magnitude lies between 1 and
   * `1 + 1e-6` and passes the magnitude test.
   */
  lemma TestsDiffer(sqrt: real -> real)
    requires IsSqrt(sqrt)
    ensures IsNormalizedByMagnitude(Vec3(1.0, 0.001, 0.0), sqrt)
    ensures !IsNormalized(Vec3(1.0, 0.001, 0.0))
  {
    var w := Vec3(1.0, 0.001, 0.0);
    assert Dot(w, w) == 1.000001;
    var m := Magnitude(w, sqrt);
    assert m * m == 1.000001;
    if m <= 1.0 {
      MulMonotone(1.0, m, m);
    }
    if m >= 1.000001 {
      MulMonotone(m, 1.000001, m);
      MulMonotone(m, 1.000001, 1.000001);
    }
  }
}
