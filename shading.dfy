/**
 * Shading: the colour seen along a ray. The sky is a gradient, the ground a
 * checkerboard lit by Lambert's law, and a sphere a specular highlight plus
 * its mirror reflection, followed at most `MaxReflection + 1` times.
 */
module Shading {
  import opened Optional
  import opened Vector3
  import opened Geometry

  /** A point light of strength 0..1. */
  datatype Light = Light(pos: Vec3, strength: real)

  datatype Scene = Scene(spheres: seq<Sphere>, lights: seq<Light>)

  const SkyColor: Vec3 := Vec3(0.7, 0.6, 1.0)
  const GroundColor1: Vec3 := Vec3(0.9, 0.1, 0.1)
  const GroundColor2: Vec3 := Vec3(0.9, 0.9, 0.9)
  /** Side of a checkerboard cell, in metres. */
  const GroundGridSize: real := 0.3
  /** Share of brightness lost at each reflection. */
  const ReflectionDecay: real := 0.4
  const SpecularPow: nat := 80
  const MaxReflection: nat := 3
  /** The ground's light floor added to its Lambert term. */
  const AmbientLight: real := 0.1
  /** How far along the normal a reflected ray starts, so as not to hit its own sphere. */
  const ReflectionOffset: real := 0.01

  /** `powf` with an integral exponent. */
  function Pow(x: real, n: nat): real {
    if n == 0 then 1.0 else x * Pow(x, n - 1)
  }

  lemma {:induction false} PowEvenNonNegative(x: real, n: nat)
    requires n % 2 == 0
    ensures Pow(x, n) >= 0.0
  {
    if n > 0 {
      PowEvenNonNegative(x, n - 2);
      SquareTimesNonNegative(x, Pow(x, n - 2));
    }
  }

  lemma SquareTimesNonNegative(x: real, p: real)
    requires p >= 0.0
    ensures x * (x * p) >= 0.0
  {
    if x >= 0.0 {
      MulMonotone(x, 0.0, p);
      MulMonotone(x, 0.0, x * p);
    } else {
      MulMonotone(0.0, x, p);
      MulMonotone(-x, 0.0, -(x * p));
    }
  }

  function Clamp(x: real, lo: real, hi: real): (r: real)
    requires lo <= hi
    ensures lo <= r <= hi
    ensures lo <= x <= hi ==> r == x
  {
    if x < lo then lo else if x > hi then hi else x
  }

  /**
   * The sky: its colour fading with the ray's steepness, `(1 - |d.z|)^4`. It
   * is never negative, is the full sky colour along the horizon and black
   * straight up or down.
   */
  function SkyShade(direction: Vec3): (c: Vec3)
    ensures NonNegative(c)
    ensures direction.z == 0.0 ==> c == SkyColor
    ensures Abs(direction.z) == 1.0 ==> c == Zero
  {
    PowEvenNonNegative(1.0 - Abs(direction.z), 4);
    Scale(SkyColor, Pow(1.0 - Abs(direction.z), 4))
  }

  // ---------------------------------------------------------------------
  // The Lambert term.

  /** A light's share at `point`: 0 when a sphere blocks the way towards it. */
  function LightTerm(spheres: seq<Sphere>, point: Vec3, normal: Vec3, l: Light, sqrt: real -> real): (r: real)
    requires IsSqrt(sqrt)
    ensures Shadowed(spheres, point, l, sqrt) ==> r == 0.0
    ensures l.strength == 0.0 ==> r == 0.0
  {
    var toLight := Normalize(Sub(l.pos, point), sqrt);
    var lambert := Dot(toLight, normal);
    if SceneIntersect(spheres, point, toLight, sqrt).kind == SphereKind then 0.0 else lambert * l.strength
  }

  predicate Shadowed(spheres: seq<Sphere>, point: Vec3, l: Light, sqrt: real -> real)
    requires IsSqrt(sqrt)
  {
    SceneIntersect(spheres, point, Normalize(Sub(l.pos, point), sqrt), sqrt).kind == SphereKind
  }

  function LightSum(spheres: seq<Sphere>, lights: seq<Light>, point: Vec3, normal: Vec3, sqrt: real -> real): real
    requires IsSqrt(sqrt)
  {
    if |lights| == 0 then 0.0
    else LightTerm(spheres, point, normal, lights[0], sqrt) + LightSum(spheres, lights[1..], point, normal, sqrt)
  }

  /**
   * The mean of the light terms, floored at 0. With no lights the source
   * computes `0 / 0`, and `NaN.max(0.0)` is 0.
   */
  function Lambert(scene: Scene, point: Vec3, normal: Vec3, sqrt: real -> real): (r: real)
    requires IsSqrt(sqrt)
    ensures r >= 0.0
    ensures |scene.lights| == 0 ==> r == 0.0
  {
    if |scene.lights| == 0 then 0.0
    else Max(LightSum(scene.spheres, scene.lights, point, normal, sqrt) / |scene.lights| as real, 0.0)
  }

  /** Shadowed lights contribute nothing: the sum runs over the lit ones only. */
  lemma {:induction false} ShadowedLightsContributeNothing(spheres: seq<Sphere>, lights: seq<Light>, point: Vec3, normal: Vec3, sqrt: real -> real)
    requires IsSqrt(sqrt)
    ensures LightSum(spheres, lights, point, normal, sqrt) ==
              LightSum(spheres, Unshadowed(spheres, lights, point, sqrt), point, normal, sqrt)
  {
    if |lights| > 0 {
      ShadowedLightsContributeNothing(spheres, lights[1..], point, normal, sqrt);
    }
  }

  /** The lights whose way from `point` is clear, in order. */
  function Unshadowed(spheres: seq<Sphere>, lights: seq<Light>, point: Vec3, sqrt: real -> real): (r: seq<Light>)
    requires IsSqrt(sqrt)
    ensures |r| <= |lights|
    ensures forall l :: l in r ==> l in lights && !Shadowed(spheres, point, l, sqrt)
    ensures forall l :: l in lights && !Shadowed(spheres, point, l, sqrt) ==> l in r
    ensures (forall l :: l in lights ==> Shadowed(spheres, point, l, sqrt)) ==> r == []
  {
    if |lights| == 0 then []
    else
      var rest := Unshadowed(spheres, lights[1..], point, sqrt);
      assert forall l :: l in lights ==> l == lights[0] || l in lights[1..];
      if Shadowed(spheres, point, lights[0], sqrt) then rest else [lights[0]] + rest
  }

  /**
   * The shadow ray starts at the hit point itself, with no offset along the
   * normal. From a point exactly on sphere `i`, a light that is not along a
   * tangent is therefore blocked by that same sphere, at distance 0.
   */
  lemma SurfacePointShadowsItself(spheres: seq<Sphere>, i: nat, point: Vec3, normal: Vec3, l: Light, sqrt: real -> real)
    requires IsSqrt(sqrt) && i < |spheres|
    requires Dot(Sub(point, spheres[i].center), Sub(point, spheres[i].center)) == spheres[i].radius * spheres[i].radius
    requires Dot(Normalize(Sub(l.pos, point), sqrt), Sub(point, spheres[i].center)) != 0.0
    ensures Shadowed(spheres, point, l, sqrt)
    ensures LightTerm(spheres, point, normal, l, sqrt) == 0.0
  {
    var toLight := Normalize(Sub(l.pos, point), sqrt);
    SurfaceRayHitsAtZero(spheres[i], point, toLight, sqrt);
    SceneIsNearest(spheres, point, toLight, sqrt);
    SceneEarliestWins(spheres, point, toLight, sqrt);
    var r := SceneIntersect(spheres, point, toLight, sqrt);
    assert AtMost(r.distance, Finite(0.0));
  }

  /** A point from which every light is blocked gets Lambert term 0. */
  lemma AllShadowedIsDark(scene: Scene, point: Vec3, normal: Vec3, sqrt: real -> real)
    requires IsSqrt(sqrt)
    requires forall l :: l in scene.lights ==> Shadowed(scene.spheres, point, l, sqrt)
    ensures Lambert(scene, point, normal, sqrt) == 0.0
  {
    ShadowedLightsContributeNothing(scene.spheres, scene.lights, point, normal, sqrt);
  }

  // ---------------------------------------------------------------------
  // The checkerboard.

  const I32Min: int := -0x8000_0000
  const I32Max: int := 0x7FFF_FFFF

  /** `f32 as i32`: saturation at the ends of the range. */
  function SaturateI32(k: int): (r: int)
    ensures I32Min <= r <= I32Max
    ensures I32Min <= k <= I32Max ==> r == k
    ensures k < I32Min ==> r == I32Min
    ensures k > I32Max ==> r == I32Max
  {
    if k < I32Min then I32Min else if k > I32Max then I32Max else k
  }

  /** Two's-complement wrap-around of `i32` addition in a release build. */
  function WrapI32(k: int): (r: int)
    ensures I32Min <= r <= I32Max
    ensures (r - k) % 0x1_0000_0000 == 0
  {
    (k - I32Min) % 0x1_0000_0000 + I32Min
  }

  /** Rust's `a % 2` on `i32`: the remainder takes the sign of the dividend. */
  function RemTwo(a: int): (r: int)
    ensures -1 <= r <= 1
    ensures r == 0 <==> a % 2 == 0
    ensures a >= 0 ==> r >= 0
    ensures a < 0 ==> r <= 0
  {
    if a >= 0 then a % 2 else -((-a) % 2)
  }

  /** The cell index along one axis. */
  function Cell(c: real): int {
    (c / GroundGridSize).Floor
  }

  predicate IsFirstGroundColor(x: real, y: real) {
    RemTwo(WrapI32(SaturateI32(Cell(x)) + SaturateI32(Cell(y)))) == 0
  }

  function GroundColorAt(p: Vec3): Vec3 {
    if IsFirstGroundColor(p.x, p.y) then GroundColor1 else GroundColor2
  }

  predicate CellInRange(c: real) {
    I32Min <= Cell(c) <= I32Max
  }

  /** Within the `i32` range the first colour marks the cells whose index sum is even. */
  lemma CheckerParity(x: real, y: real)
    requires CellInRange(x) && CellInRange(y)
    ensures IsFirstGroundColor(x, y) <==> (Cell(x) + Cell(y)) % 2 == 0
  {
    var s := Cell(x) + Cell(y);
    var w := WrapI32(s);
    assert (w - s) % 2 == 0;
  }

  /** One cell further along x or y the colour flips. */
  lemma CheckerFlips(x: real, y: real)
    requires CellInRange(x) && CellInRange(y) && CellInRange(x + GroundGridSize) && CellInRange(y + GroundGridSize)
    ensures IsFirstGroundColor(x + GroundGridSize, y) <==> !IsFirstGroundColor(x, y)
    ensures IsFirstGroundColor(x, y + GroundGridSize) <==> !IsFirstGroundColor(x, y)
  {
    CheckerFlipsAlongX(x, y);
    CheckerFlipsAlongX(y, x);
    CheckerSymmetric(x, y);
    CheckerSymmetric(x, y + GroundGridSize);
  }

  lemma CheckerFlipsAlongX(x: real, y: real)
    requires CellInRange(x) && CellInRange(y) && CellInRange(x + GroundGridSize)
    ensures IsFirstGroundColor(x + GroundGridSize, y) <==> !IsFirstGroundColor(x, y)
  {
    NextCell(x);
    CheckerParity(x, y);
    CheckerParity(x + GroundGridSize, y);
    ParityStep(Cell(x) + Cell(y));
  }

  lemma ParityStep(n: int)
    ensures (n + 1) % 2 == 0 <==> n % 2 != 0
  {
  }

  lemma CheckerSymmetric(x: real, y: real)
    ensures IsFirstGroundColor(x, y) <==> IsFirstGroundColor(y, x)
  {
    assert SaturateI32(Cell(x)) + SaturateI32(Cell(y)) == SaturateI32(Cell(y)) + SaturateI32(Cell(x));
  }

  lemma NextCell(c: real)
    ensures Cell(c + GroundGridSize) == Cell(c) + 1
  {
    assert (c + GroundGridSize) / GroundGridSize == c / GroundGridSize + 1.0;
  }

  /** The ground: its cell colour scaled by the Lambert term plus the light floor (at least 0.1). */
  function GroundShade(scene: Scene, point: Vec3, normal: Vec3, sqrt: real -> real): (r: Vec3)
    requires IsSqrt(sqrt)
    ensures r == Scale(GroundColorAt(point), Lambert(scene, point, normal, sqrt) + AmbientLight)
    ensures Lambert(scene, point, normal, sqrt) + AmbientLight >= AmbientLight
  {
    var lambert := Lambert(scene, point, normal, sqrt);
    Scale(GroundColorAt(point), lambert + AmbientLight)
  }

  // ---------------------------------------------------------------------
  // Spheres: highlight and mirror reflection.

  /** The mirror image of `direction` about the plane of `normal`. */
  function Reflect(direction: Vec3, normal: Vec3): Vec3 {
    Add(Scale(normal, 2.0 * Dot(normal, Neg(direction))), direction)
  }

  /** About a unit normal the normal component flips and the length is kept. */
  lemma ReflectMirrors(direction: Vec3, normal: Vec3)
    requires Dot(normal, normal) == 1.0
    ensures Dot(Reflect(direction, normal), normal) == -Dot(direction, normal)
    ensures Dot(Reflect(direction, normal), Reflect(direction, normal)) == Dot(direction, direction)
  {
    var k := 2.0 * Dot(normal, Neg(direction));
    var d := direction;
    var n := normal;
    var r := Reflect(d, n);
    assert k == -2.0 * Dot(d, n);
    assert Dot(r, n) == k * Dot(n, n) + Dot(d, n);
    assert Dot(r, r) == k * k * Dot(n, n) + 2.0 * k * Dot(n, d) + Dot(d, d);
    assert k * k == 4.0 * Dot(d, n) * Dot(d, n);
  }

  function SpecularSum(lights: seq<Light>, point: Vec3, reflect: Vec3, sqrt: real -> real): real {
    if |lights| == 0 then 0.0
    else
      var toLight := Normalize(Sub(lights[0].pos, point), sqrt);
      Pow(Dot(reflect, toLight), SpecularPow) * lights[0].strength + SpecularSum(lights[1..], point, reflect, sqrt)
  }

  /** The highlight, in 0..1, and 0 where the Lambert term is not positive. */
  function Specular(lights: seq<Light>, point: Vec3, reflect: Vec3, lambert: real, sqrt: real -> real): (s: real)
    ensures 0.0 <= s <= 1.0
    ensures lambert <= 0.0 ==> s == 0.0
  {
    if lambert > 0.0 then Clamp(SpecularSum(lights, point, reflect, sqrt), 0.0, 1.0) else 0.0
  }

  /** The measure of the reflection recursion: reflections still allowed. */
  function ReflectionsLeft(count: nat): nat {
    if count <= MaxReflection then MaxReflection + 1 - count else 0
  }

  /**
   * The colour seen from `origin` along `direction`, `count` reflections deep.
   * A sphere hit recurses along the reflected ray only while
   * `count <= MaxReflection`.
   */
  function Radiance(scene: Scene, origin: Vec3, direction: Vec3, count: nat, sqrt: real -> real): Vec3
    requires IsSqrt(sqrt)
    decreases ReflectionsLeft(count)
  {
    var hit := SceneIntersect(scene.spheres, origin, direction, sqrt);
    if hit.kind == Sky then SkyShade(direction)
    else
      var point := hit.hitPoint.value;
      var normal := hit.normal.value;
      match hit.kind
      case Ground => GroundShade(scene, point, normal, sqrt)
      case SphereKind =>
        var lambert := Lambert(scene, point, normal, sqrt);
        var reflect := Reflect(direction, normal);
        var specular := Specular(scene.lights, point, reflect, lambert, sqrt);
        Add(Vec3(specular, specular, specular),
            if count <= MaxReflection then
              Scale(Radiance(scene, Add(point, Scale(normal, ReflectionOffset)), reflect, count + 1, sqrt), 1.0 - ReflectionDecay)
            else Zero)
  }

  /**
   * The number of nested reflective calls one `Radiance` call makes: one per
   * sphere hit while the count allows another reflection.
   */
  function ReflectiveCalls(scene: Scene, origin: Vec3, direction: Vec3, count: nat, sqrt: real -> real): nat
    requires IsSqrt(sqrt)
    decreases ReflectionsLeft(count)
  {
    var hit := SceneIntersect(scene.spheres, origin, direction, sqrt);
    if hit.kind == SphereKind && count <= MaxReflection then
      var point := hit.hitPoint.value;
      var normal := hit.normal.value;
      1 + ReflectiveCalls(scene, Add(point, Scale(normal, ReflectionOffset)), Reflect(direction, normal), count + 1, sqrt)
    else 0
  }

  /** A chain started at `count` makes at most `ReflectionsLeft(count)` reflective calls; from 0, at most 4. */
  lemma {:induction false} ReflectionChainBounded(scene: Scene, origin: Vec3, direction: Vec3, count: nat, sqrt: real -> real)
    requires IsSqrt(sqrt)
    ensures ReflectiveCalls(scene, origin, direction, count, sqrt) <= ReflectionsLeft(count)
    ensures count == 0 ==> ReflectiveCalls(scene, origin, direction, count, sqrt) <= MaxReflection + 1
    decreases ReflectionsLeft(count)
  {
    var hit := SceneIntersect(scene.spheres, origin, direction, sqrt);
    if hit.kind == SphereKind && count <= MaxReflection {
      var point := hit.hitPoint.value;
      var normal := hit.normal.value;
      ReflectionChainBounded(scene, Add(point, Scale(normal, ReflectionOffset)), Reflect(direction, normal), count + 1, sqrt);
    }
  }

  /** Past the cap the count no longer matters: no further reflection is followed. */
  lemma RadiancePastCap(scene: Scene, origin: Vec3, direction: Vec3, count1: nat, count2: nat, sqrt: real -> real)
    requires IsSqrt(sqrt)
    requires count1 > MaxReflection && count2 > MaxReflection
    ensures Radiance(scene, origin, direction, count1, sqrt) == Radiance(scene, origin, direction, count2, sqrt)
    ensures ReflectiveCalls(scene, origin, direction, count1, sqrt) == 0
  {
  }

  /** A ray reaching the sky is coloured by its direction alone. */
  lemma RadianceOfSky(scene: Scene, origin: Vec3, direction: Vec3, count: nat, sqrt: real -> real)
    requires IsSqrt(sqrt)
    requires GroundIntersect(origin, direction).None?
    requires forall i :: 0 <= i < |scene.spheres| ==> !SphereHits(scene.spheres, i, origin, direction, sqrt)
    ensures Radiance(scene, origin, direction, count, sqrt) == SkyShade(direction)
  {
    SkyIff(scene.spheres, origin, direction, sqrt);
  }

  predicate NonNegative(c: Vec3) {
    c.x >= 0.0 && c.y >= 0.0 && c.z >= 0.0
  }

  /** Every colour the shading produces has non-negative channels. */
  lemma {:induction false} RadianceNonNegative(scene: Scene, origin: Vec3, direction: Vec3, count: nat, sqrt: real -> real)
    requires IsSqrt(sqrt)
    ensures NonNegative(Radiance(scene, origin, direction, count, sqrt))
    decreases ReflectionsLeft(count)
  {
    var hit := SceneIntersect(scene.spheres, origin, direction, sqrt);
    if hit.kind == SphereKind && count <= MaxReflection {
      var point := hit.hitPoint.value;
      var normal := hit.normal.value;
      RadianceNonNegative(scene, Add(point, Scale(normal, ReflectionOffset)), Reflect(direction, normal), count + 1, sqrt);
    }
  }
}
