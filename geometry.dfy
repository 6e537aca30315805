/**
 * Ray-scene intersection: reflective spheres above the ground plane z = 0.
 * A miss is the sky, at infinite distance.
 */
module Geometry {
  import opened Optional
  import opened Vector3

  /** An `f32` distance: a finite value or positive infinity. */
  datatype Distance = Finite(value: real) | Infinite

  /** `partial_cmp(..) == Some(Less)` on these distances. */
  predicate Less(a: Distance, b: Distance) {
    match (a, b)
    case (Finite(x), Finite(y)) => x < y
    case (Finite(_), Infinite) => true
    case (Infinite, _) => false
  }

  datatype IntersectKind = Sky | Ground | SphereKind

  datatype Intersect = Intersect(distance: Distance, hitPoint: Option<Vec3>, normal: Option<Vec3>, kind: IntersectKind)

  datatype Sphere = Sphere(center: Vec3, radius: real)

  /** The result when nothing is hit. */
  const SkyIntersect: Intersect := Intersect(Infinite, None, None, Sky)

  /** A quarter of the discriminant of `|o + t d - center|^2 == radius^2`, for unit `d`. */
  function Discriminant(s: Sphere, origin: Vec3, direction: Vec3): real {
    var v := Sub(origin, s.center);
    var b := Dot(direction, v);
    b * b - (Dot(v, v) - s.radius * s.radius)
  }

  function NearRoot(s: Sphere, origin: Vec3, direction: Vec3, sqrt: real -> real): real {
    -Dot(direction, Sub(origin, s.center)) - sqrt(Discriminant(s, origin, direction))
  }

  function FarRoot(s: Sphere, origin: Vec3, direction: Vec3, sqrt: real -> real): real {
    -Dot(direction, Sub(origin, s.center)) + sqrt(Discriminant(s, origin, direction))
  }

  /**
   * The sphere's hit along the ray. The near root is used when it is not
   * negative; otherwise (the origin is inside the sphere) the far root gives
   * the distance and the normal is turned inwards, while the hit point stays
   * the one computed from the near root.
   */
  function SphereIntersect(s: Sphere, origin: Vec3, direction: Vec3, sqrt: real -> real): (r: Option<Intersect>)
    ensures r.Some? ==> r.value.kind == SphereKind && r.value.distance.Finite? && r.value.distance.value >= 0.0
    ensures r.Some? ==> r.value.hitPoint.Some? && r.value.normal.Some?
    ensures r.Some? ==> Discriminant(s, origin, direction) > 0.0
  {
    var v := Sub(origin, s.center);
    var b := Dot(direction, v);
    var c := Dot(v, v) - s.radius * s.radius;
    var disc := b * b - c;
    if disc > 0.0 then
      var distance := -b - sqrt(disc);
      var point := Add(Scale(direction, distance), origin);
      var normal := Normalize(Sub(point, s.center), sqrt);
      if distance < 0.0 then
        var far := -b + sqrt(disc);
        if far < 0.0 then None
        else Some(Intersect(Finite(far), Some(point), Some(Neg(normal)), SphereKind))
      else
        Some(Intersect(Finite(distance), Some(point), Some(normal), SphereKind))
    else
      None
  }

  /** A miss exactly when the discriminant is not positive or both roots are negative. */
  lemma SphereMissIff(s: Sphere, origin: Vec3, direction: Vec3, sqrt: real -> real)
    requires IsSqrt(sqrt)
    ensures SphereIntersect(s, origin, direction, sqrt).None? <==>
              Discriminant(s, origin, direction) <= 0.0 ||
              (NearRoot(s, origin, direction, sqrt) < 0.0 && FarRoot(s, origin, direction, sqrt) < 0.0)
  {
  }

  /**
   * From outside (near root not negative) the distance is the near root and the
   * normal points out of the sphere at the hit point.
   */
  lemma SphereHitFromOutside(s: Sphere, origin: Vec3, direction: Vec3, sqrt: real -> real)
    requires IsSqrt(sqrt)
    requires Discriminant(s, origin, direction) > 0.0 && NearRoot(s, origin, direction, sqrt) >= 0.0
    ensures var t := NearRoot(s, origin, direction, sqrt);
      var p := Add(Scale(direction, t), origin);
      SphereIntersect(s, origin, direction, sqrt) ==
        Some(Intersect(Finite(t), Some(p), Some(Normalize(Sub(p, s.center), sqrt)), SphereKind))
  {
  }

  /**
   * From inside (near root negative, far root not) the distance is the far
   * root, the normal is negated, and the hit point is still the near-root point.
   */
  lemma SphereHitFromInside(s: Sphere, origin: Vec3, direction: Vec3, sqrt: real -> real)
    requires IsSqrt(sqrt)
    requires Discriminant(s, origin, direction) > 0.0
    requires NearRoot(s, origin, direction, sqrt) < 0.0 <= FarRoot(s, origin, direction, sqrt)
    ensures var p := Add(Scale(direction, NearRoot(s, origin, direction, sqrt)), origin);
      SphereIntersect(s, origin, direction, sqrt) ==
        Some(Intersect(Finite(FarRoot(s, origin, direction, sqrt)), Some(p), Some(Neg(Normalize(Sub(p, s.center), sqrt))), SphereKind))
  {
  }

  /**
   * A ray from strictly inside the sphere always hits it: at the far root, at a
   * positive distance, with the normal reversed.
   */
  lemma InsideHits(s: Sphere, origin: Vec3, direction: Vec3, sqrt: real -> real)
    requires IsSqrt(sqrt)
    requires Dot(Sub(origin, s.center), Sub(origin, s.center)) < s.radius * s.radius
    ensures Discriminant(s, origin, direction) > 0.0
    ensures NearRoot(s, origin, direction, sqrt) < 0.0 < FarRoot(s, origin, direction, sqrt)
    ensures var p := Add(Scale(direction, NearRoot(s, origin, direction, sqrt)), origin);
      SphereIntersect(s, origin, direction, sqrt) ==
        Some(Intersect(Finite(FarRoot(s, origin, direction, sqrt)), Some(p), Some(Neg(Normalize(Sub(p, s.center), sqrt))), SphereKind))
  {
    var v := Sub(origin, s.center);
    var b := Dot(direction, v);
    var c := Dot(v, v) - s.radius * s.radius;
    SquareNonNegative(b);
    var q := sqrt(Discriminant(s, origin, direction));
    RootBeyond(b, q, c);
    SphereHitFromInside(s, origin, direction, sqrt);
  }

  lemma SquareNonNegative(b: real)
    ensures b * b >= 0.0
  {
    if b < 0.0 {
      MulMonotone(0.0, b, -b);
    } else {
      MulMonotone(b, 0.0, b);
    }
  }

  /** A non-negative root of `b^2 - c` with `c < 0` exceeds `|b|`. */
  lemma RootBeyond(b: real, q: real, c: real)
    requires q >= 0.0 && q * q == b * b - c && c < 0.0
    ensures -b - q < 0.0 < -b + q
  {
    var a := Abs(b);
    assert a * a == b * b;
    if q <= a {
      MulMonotone(a - q, 0.0, a + q);
      assert (a - q) * (a + q) == a * a - q * q;
    }
  }

  /**
   * A ray leaving a point of the sphere's surface, not along a tangent, meets
   * that sphere at distance 0: one root is 0 and the other has the sign
   * opposite to `direction . (point - center)`.
   */
  lemma SurfaceRayHitsAtZero(s: Sphere, point: Vec3, direction: Vec3, sqrt: real -> real)
    requires IsSqrt(sqrt)
    requires Dot(Sub(point, s.center), Sub(point, s.center)) == s.radius * s.radius
    requires Dot(direction, Sub(point, s.center)) != 0.0
    ensures SphereIntersect(s, point, direction, sqrt).Some?
    ensures SphereIntersect(s, point, direction, sqrt).value.distance == Finite(0.0)
  {
    var b := Dot(direction, Sub(point, s.center));
    var a := Abs(b);
    var disc := Discriminant(s, point, direction);
    assert disc == b * b;
    PositiveSquare(b, disc);
    var q := sqrt(disc);
    RootOfSquare(q, a);
  }

  lemma PositiveSquare(b: real, d: real)
    requires b != 0.0 && d == b * b
    ensures d > 0.0
  {
    if b > 0.0 {
      MulMonotone(b, 0.0, b);
    } else {
      MulMonotone(0.0, b, -b);
    }
    if d == 0.0 {
      ZeroProduct(b, b);
    }
  }

  /** The non-negative square root of `a * a`, for `a >= 0`, is `a`. */
  lemma RootOfSquare(q: real, a: real)
    requires q >= 0.0 && a >= 0.0 && q * q == a * a
    ensures q == a
  {
    assert (q - a) * (q + a) == q * q - a * a;
    if q + a != 0.0 {
      ZeroProduct(q - a, q + a);
    }
  }

  /** Both roots solve the sphere equation along a unit direction. */
  lemma RootsOnSphere(s: Sphere, origin: Vec3, direction: Vec3, sqrt: real -> real, t: real)
    requires IsSqrt(sqrt) && Dot(direction, direction) == 1.0
    requires Discriminant(s, origin, direction) > 0.0
    requires t == NearRoot(s, origin, direction, sqrt) || t == FarRoot(s, origin, direction, sqrt)
    ensures var p := Sub(Add(Scale(direction, t), origin), s.center); Dot(p, p) == s.radius * s.radius
  {
    var v := Sub(origin, s.center);
    var b := Dot(direction, v);
    var q := sqrt(Discriminant(s, origin, direction));
    assert q * q == b * b - (Dot(v, v) - s.radius * s.radius);
    var p := Sub(Add(Scale(direction, t), origin), s.center);
    assert p == Add(Scale(direction, t), v);
    SquaredNormAlongRay(direction, v, t);
    assert t == -b - q || t == -b + q;
    RootSolvesQuadratic(b, q, t, Dot(v, v) - s.radius * s.radius);
  }

  /** `|t d + v|^2 == t^2 + 2 t (d . v) + |v|^2` for unit `d`. */
  lemma SquaredNormAlongRay(d: Vec3, v: Vec3, t: real)
    requires Dot(d, d) == 1.0
    ensures Dot(Add(Scale(d, t), v), Add(Scale(d, t), v)) == t * t + 2.0 * t * Dot(d, v) + Dot(v, v)
  {
    var p := Add(Scale(d, t), v);
    assert Dot(p, p) == t * t * Dot(d, d) + 2.0 * t * Dot(d, v) + Dot(v, v);
  }

  lemma RootSolvesQuadratic(b: real, q: real, t: real, c: real)
    requires q * q == b * b - c
    requires t == -b - q || t == -b + q
    ensures t * t + 2.0 * t * b + c == 0.0
  {
  }

  // ---------------------------------------------------------------------
  // The ground plane and the whole scene.

  /**
   * The ground candidate at `t = -origin.z / direction.z` when `t > 0`. A ray
   * parallel to the ground has no candidate (in `f32` the quotient is an
   * infinity or NaN).
   */
  function GroundIntersect(origin: Vec3, direction: Vec3): (r: Option<Intersect>)
    ensures r.Some? ==> r.value.kind == Ground && r.value.normal == Some(Z)
    ensures r.Some? ==> r.value.distance.Finite? && r.value.distance.value > 0.0
    ensures r.Some? ==> r.value.hitPoint.Some? && r.value.hitPoint.value.z == 0.0
    ensures r.None? <==> direction.z == 0.0 || -origin.z / direction.z <= 0.0
  {
    if direction.z == 0.0 then None
    else
      var t := -origin.z / direction.z;
      if t > 0.0 then
        assert origin.z + direction.z * t == 0.0;
        Some(Intersect(Finite(t), Some(Add(origin, Scale(direction, t))), Some(Z), Ground))
      else None
  }

  /** The scene's state before any sphere is tried: the ground or the sky. */
  function InitialIntersect(origin: Vec3, direction: Vec3): Intersect {
    match GroundIntersect(origin, direction)
    case Some(g) => g
    case None => SkyIntersect
  }

  /** A candidate replaces the current best only when strictly nearer. */
  function Closer(best: Intersect, candidate: Option<Intersect>): Intersect {
    if candidate.Some? && Less(candidate.value.distance, best.distance) then candidate.value else best
  }

  /** The nearest hit among the ground and `spheres`, tried in order. */
  function SceneIntersect(spheres: seq<Sphere>, origin: Vec3, direction: Vec3, sqrt: real -> real): (r: Intersect)
    requires IsSqrt(sqrt)
    ensures r.kind != Sky ==> r.hitPoint.Some? && r.normal.Some? && r.distance.Finite?
    ensures r.kind == Sky ==> r == SkyIntersect
    decreases |spheres|
  {
    if |spheres| == 0 then InitialIntersect(origin, direction)
    else
      var best := SceneIntersect(spheres[..|spheres| - 1], origin, direction, sqrt);
      var candidate := SphereIntersect(spheres[|spheres| - 1], origin, direction, sqrt);
      Closer(best, candidate)
  }

  /** `a` is not farther than `b`. */
  predicate AtMost(a: Distance, b: Distance) {
    !Less(b, a)
  }

  /** Sphere `i` produces a hit. */
  predicate SphereHits(spheres: seq<Sphere>, i: int, origin: Vec3, direction: Vec3, sqrt: real -> real)
    requires 0 <= i < |spheres|
  {
    SphereIntersect(spheres[i], origin, direction, sqrt).Some?
  }

  /** The sky is the result exactly when nothing is hit. */
  lemma {:induction false} SkyIff(spheres: seq<Sphere>, origin: Vec3, direction: Vec3, sqrt: real -> real)
    requires IsSqrt(sqrt)
    ensures SceneIntersect(spheres, origin, direction, sqrt).kind == Sky <==>
              GroundIntersect(origin, direction).None? &&
              forall i :: 0 <= i < |spheres| ==> !SphereHits(spheres, i, origin, direction, sqrt)
    decreases |spheres|
  {
    if |spheres| > 0 {
      var init := spheres[..|spheres| - 1];
      SkyIff(init, origin, direction, sqrt);
      var last := |spheres| - 1;
      assert forall i :: 0 <= i < last ==> (SphereHits(spheres, i, origin, direction, sqrt) <==> SphereHits(init, i, origin, direction, sqrt));
      if SphereHits(spheres, last, origin, direction, sqrt) {
        var best := SceneIntersect(init, origin, direction, sqrt);
        if best.kind == Sky {
          assert best.distance == Infinite;
        }
      }
    }
  }

  /** The result is not farther than the ground candidate or any sphere hit. */
  lemma {:induction false} SceneIsNearest(spheres: seq<Sphere>, origin: Vec3, direction: Vec3, sqrt: real -> real)
    requires IsSqrt(sqrt)
    ensures var r := SceneIntersect(spheres, origin, direction, sqrt);
      (GroundIntersect(origin, direction).Some? ==> AtMost(r.distance, GroundIntersect(origin, direction).value.distance)) &&
      forall i :: 0 <= i < |spheres| && SphereHits(spheres, i, origin, direction, sqrt) ==>
        AtMost(r.distance, SphereIntersect(spheres[i], origin, direction, sqrt).value.distance)
    decreases |spheres|
  {
    if |spheres| > 0 {
      var init := spheres[..|spheres| - 1];
      SceneIsNearest(init, origin, direction, sqrt);
      assert forall i :: 0 <= i < |spheres| - 1 ==> spheres[i] == init[i];
    }
  }

  /**
   * A ground result is the ground candidate itself; a sphere result is the hit
   * of some sphere `i` and strictly nearer than the ground and than every
   * earlier sphere, so ties go to the earliest candidate.
   */
  lemma {:induction false} SceneEarliestWins(spheres: seq<Sphere>, origin: Vec3, direction: Vec3, sqrt: real -> real)
    requires IsSqrt(sqrt)
    ensures var r := SceneIntersect(spheres, origin, direction, sqrt);
      r.kind == Ground ==> GroundIntersect(origin, direction) == Some(r)
    ensures var r := SceneIntersect(spheres, origin, direction, sqrt);
      r.kind == SphereKind ==>
        exists i :: 0 <= i < |spheres| && SphereIntersect(spheres[i], origin, direction, sqrt) == Some(r) &&
          (GroundIntersect(origin, direction).Some? ==> Less(r.distance, GroundIntersect(origin, direction).value.distance)) &&
          forall j :: 0 <= j < i && SphereHits(spheres, j, origin, direction, sqrt) ==>
            Less(r.distance, SphereIntersect(spheres[j], origin, direction, sqrt).value.distance)
    decreases |spheres|
  {
    if |spheres| > 0 {
      var init := spheres[..|spheres| - 1];
      var last := |spheres| - 1;
      SceneEarliestWins(init, origin, direction, sqrt);
      SceneIsNearest(init, origin, direction, sqrt);
      assert forall i :: 0 <= i < last ==> spheres[i] == init[i];
      var best := SceneIntersect(init, origin, direction, sqrt);
      var r := SceneIntersect(spheres, origin, direction, sqrt);
      if r.kind == SphereKind && r != best {
        assert SphereIntersect(spheres[last], origin, direction, sqrt) == Some(r);
        LessAtMost(r.distance, best.distance);
      }
    }
  }

  lemma LessAtMost(a: Distance, b: Distance)
    requires Less(a, b)
    ensures forall c :: AtMost(b, c) ==> Less(a, c)
  {
  }
}
