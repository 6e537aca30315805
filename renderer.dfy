/**
 * The renderer: a camera in a scene of spheres and lights, driven by the set
 * of pending actions. A frame is drawn only while some action is pending;
 * drawing first moves and turns the camera as the actions say, then shades
 * every pixel in row-major order.
 *
 * Foreign parts are parameters: `sqrt` (with the laws `IsSqrt`), `steer` (the
 * trigonometry that turns the gaze by a yaw and a pitch step) and `sample`
 * (the value `random_range(lo..hi)` draws from a generator state). The clock
 * is a reading `now` in nanoseconds.
 */
module Renderer {
  import opened Optional
  import opened Vector3
  import opened Geometry
  import opened Shading
  import opened Actions
  import opened Pixels
  import opened Clock

  /** Camera speed, metres per second. */
  const CameraSpeed: real := 1.0
  /** 30 degrees in radians, as its nearest `f32`. */
  const CameraRotationSpeed: real := 0.52359879016876220703125
  /** Size of the focal plane, in metres. */
  const FocalSize: real := 2.5
  /** Anti-aliasing samples per pixel. */
  const AaSamples: nat := 5
  /** Generator draws per sample: two for the depth-of-field offset, two for the jitter. */
  const DrawsPerSample: nat := 4
  /** Upper end of the depth-of-field offset along each axis. */
  const DofRange: real := 0.001

  /** The state of the small generator: where it was seeded and how many values it has given. */
  datatype SmallRng = SmallRng(seed: int, drawn: nat)

  /** The generator after `n` more draws. */
  function Advance(rng: SmallRng, n: nat): SmallRng {
    SmallRng(rng.seed, rng.drawn + n)
  }

  /**
   * Drawing `m` values and then `n` is drawing `m + n`, and different draw
   * counts give different states: blocks of draws taken one after another
   * never overlap.
   */
  lemma AdvanceAdditive(rng: SmallRng, m: nat, n: nat)
    ensures Advance(Advance(rng, m), n) == Advance(rng, m + n)
    ensures m != n ==> Advance(rng, m) != Advance(rng, n)
  {
  }

  // ---------------------------------------------------------------------
  // The camera step.

  function Indicator(b: bool): real {
    if b then 1.0 else 0.0
  }

  /** The horizontal right of a gaze, `Z x gaze`. */
  function RightOf(gaze: Vec3): Vec3 {
    Cross(Z, gaze)
  }

  /** `v + k p`, written per component. */
  function Shift(v: Vec3, p: Vec3, k: real): Vec3 {
    Vec3(v.x + p.x * k, v.y + p.y * k, v.z + p.z * k)
  }

  /** Adding and subtracting `p`, in either order and each when its flag is set, shifts by the net sign. */
  lemma PairShift(v: Vec3, p: Vec3, added: bool, subtracted: bool)
    ensures var k := Indicator(added) - Indicator(subtracted);
      && (if subtracted then Sub(if added then Add(v, p) else v, p) else if added then Add(v, p) else v) == Shift(v, p, k)
      && (if added then Add(if subtracted then Sub(v, p) else v, p) else if subtracted then Sub(v, p) else v) == Shift(v, p, k)
  {
    if added && subtracted {
      assert Sub(Add(v, p), p) == v == Add(Sub(v, p), p) == Shift(v, p, 0.0);
    } else if added {
      assert Add(v, p) == Shift(v, p, 1.0);
    } else if subtracted {
      assert Sub(v, p) == Shift(v, p, -1.0);
    } else {
      assert v == Shift(v, p, 0.0);
    }
  }

  /** The net sign of a pair of opposite actions: 1, -1, or 0 when both or neither are pending. */
  function Sign(actions: set<Action>, plus: Action, minus: Action): real {
    Indicator(plus in actions) - Indicator(minus in actions)
  }

  /** The yaw (x) and pitch (y) directions asked for by the rotation actions. */
  function RotationDelta(actions: set<Action>): Vec3 {
    Shift(Shift(Zero, Y, Sign(actions, CameraRotationUp, CameraRotationDown)),
          X, Sign(actions, CameraRotationCW, CameraRotationCCW))
  }

  /** The direction asked for by the move actions: along the gaze, its right and the vertical. */
  function MoveDirection(actions: set<Action>, gaze: Vec3): Vec3 {
    Shift(Shift(Shift(Zero, gaze, Sign(actions, CameraMoveForward, CameraMoveBackward)),
                RightOf(gaze), Sign(actions, CameraMoveRight, CameraMoveLeft)),
          Z, Sign(actions, CameraMoveUp, CameraMoveDown))
  }

  /**
   * Seconds since the last frame; `f32::EPSILON` before the first one. An
   * earlier reading than the last frame gives 0, as `Instant::elapsed` does.
   */
  function ElapsedSeconds(lastFrameTime: Option<nat>, now: nat): (dt: real)
    ensures dt >= 0.0
    ensures lastFrameTime.None? ==> dt == F32Epsilon
  {
    match lastFrameTime
    case None => F32Epsilon
    case Some(t) => SecondsBetween(t, now)
  }

  /**
   * The laws of the gaze-turning trigonometry the model relies on: the gaze it
   * builds from a yaw and a pitch, `(cos yaw cos pitch, sin yaw cos pitch,
   * sin pitch)`, has unit length.
   */
  ghost predicate IsSteer(steer: (Vec3, real, real) -> Vec3) {
    forall gaze, yaw, pitch :: Dot(steer(gaze, yaw, pitch), steer(gaze, yaw, pitch)) == 1.0
  }

  /** The gaze after one step: turned by `steer` only when the rotation delta is not zero. */
  function NextGaze(actions: set<Action>, gaze: Vec3, dt: real, sqrt: real -> real, steer: (Vec3, real, real) -> Vec3): Vec3 {
    var delta := RotationDelta(actions);
    if IsZero(delta) then gaze
    else
      var step := Scale(Scale(Normalize(delta, sqrt), CameraRotationSpeed), dt);
      steer(gaze, step.x, step.y)
  }

  /** The position after one step: `CameraSpeed * dt` along the normalised move direction. */
  function NextPos(actions: set<Action>, pos: Vec3, gaze: Vec3, dt: real, sqrt: real -> real): Vec3 {
    var direction := MoveDirection(actions, gaze);
    if IsZero(direction) then pos
    else Add(pos, Scale(Normalize(direction, sqrt), CameraSpeed * dt))
  }

  /** A camera step keeps the gaze of unit length, as the source's field comment and `debug_assert!` expect. */
  lemma NextGazeIsUnit(actions: set<Action>, gaze: Vec3, dt: real, sqrt: real -> real, steer: (Vec3, real, real) -> Vec3)
    requires IsSteer(steer) && Dot(gaze, gaze) == 1.0
    ensures Dot(NextGaze(actions, gaze, dt, sqrt, steer), NextGaze(actions, gaze, dt, sqrt, steer)) == 1.0
  {
    var delta := RotationDelta(actions);
    if !IsZero(delta) {
      var step := Scale(Scale(Normalize(delta, sqrt), CameraRotationSpeed), dt);
      assert NextGaze(actions, gaze, dt, sqrt, steer) == steer(gaze, step.x, step.y);
    }
  }

  /** Opposite turns cancel: the rotation delta is zero exactly when both pairs are balanced. */
  lemma RotationDeltaZeroIff(actions: set<Action>)
    ensures IsZero(RotationDelta(actions)) <==>
              (CameraRotationCW in actions <==> CameraRotationCCW in actions) &&
              (CameraRotationUp in actions <==> CameraRotationDown in actions)
  {
    var pitch := Sign(actions, CameraRotationUp, CameraRotationDown);
    var yaw := Sign(actions, CameraRotationCW, CameraRotationCCW);
    RotationShift(pitch, yaw);
    IsZeroIff(Vec3(yaw, pitch, 0.0));
    SignSmallIff(actions, CameraRotationUp, CameraRotationDown);
    SignSmallIff(actions, CameraRotationCW, CameraRotationCCW);
  }

  /** A pitch `s` along `Y` and then a yaw `t` along `X`, from zero, give `(t, s, 0)`. */
  lemma RotationShift(s: real, t: real)
    ensures Shift(Shift(Zero, Y, s), X, t) == Vec3(t, s, 0.0)
  {
  }

  /** The net sign passes the tolerance test exactly when the pair is balanced. */
  lemma SignSmallIff(actions: set<Action>, plus: Action, minus: Action)
    ensures Abs(Sign(actions, plus, minus)) < Tolerance <==> (plus in actions <==> minus in actions)
  {
  }

  /** With no turn, or only opposite turns, the gaze is unchanged. */
  lemma BalancedTurnsKeepGaze(actions: set<Action>, gaze: Vec3, dt: real, sqrt: real -> real, steer: (Vec3, real, real) -> Vec3)
    requires CameraRotationCW in actions <==> CameraRotationCCW in actions
    requires CameraRotationUp in actions <==> CameraRotationDown in actions
    ensures NextGaze(actions, gaze, dt, sqrt, steer) == gaze
  {
    RotationDeltaZeroIff(actions);
  }

  /** With no move, or only opposite moves, the position is unchanged. */
  lemma BalancedMovesKeepPosition(actions: set<Action>, pos: Vec3, gaze: Vec3, dt: real, sqrt: real -> real)
    requires CameraMoveForward in actions <==> CameraMoveBackward in actions
    requires CameraMoveLeft in actions <==> CameraMoveRight in actions
    requires CameraMoveUp in actions <==> CameraMoveDown in actions
    ensures MoveDirection(actions, gaze) == Zero
    ensures NextPos(actions, pos, gaze, dt, sqrt) == pos
  {
    assert Sign(actions, CameraMoveForward, CameraMoveBackward) == 0.0;
    assert Sign(actions, CameraMoveRight, CameraMoveLeft) == 0.0;
    assert Sign(actions, CameraMoveUp, CameraMoveDown) == 0.0;
    assert IsZero(Zero);
  }

  /** Moving only forward with a unit gaze advances the camera by `dt` along the gaze. */
  lemma ForwardMovesAlongGaze(actions: set<Action>, pos: Vec3, gaze: Vec3, dt: real, sqrt: real -> real)
    requires IsSqrt(sqrt) && Dot(gaze, gaze) == 1.0
    requires CameraMoveForward in actions && CameraMoveBackward !in actions
    requires CameraMoveLeft !in actions && CameraMoveRight !in actions
    requires CameraMoveUp !in actions && CameraMoveDown !in actions
    ensures NextPos(actions, pos, gaze, dt, sqrt) == Add(pos, Scale(gaze, dt))
  {
    assert MoveDirection(actions, gaze) == gaze;
    UnitIsNotZero(gaze);
    NormalizeUnitIsIdentity(gaze, sqrt);
  }

  // ---------------------------------------------------------------------
  // The view and the pixels.

  /** What every pixel of a frame shares: the eye, the focal-plane axes and the jitter half-widths. */
  datatype View = View(eye: Vec3, right: Vec3, down: Vec3, topLeft: Vec3, intervalX: real, intervalY: real)

  /**
   * The view from `pos` along `gaze`. For a zero width or height the jitter
   * half-width is an `f32` infinity in the source; no pixel uses it then, and
   * the model puts 0.
   */
  function ViewOf(pos: Vec3, gaze: Vec3, width: nat, height: nat, sqrt: real -> real): View {
    var right := Normalize(RightOf(gaze), sqrt);
    var down := Normalize(Cross(right, gaze), sqrt);
    var topLeft := Add(Sub(Div(Scale(Neg(right), FocalSize), 2.0), Div(Scale(down, FocalSize), 2.0)), gaze);
    View(pos, right, down, topLeft,
         if width == 0 then 0.0 else 0.5 / width as real,
         if height == 0 then 0.0 else 0.5 / height as real)
  }

  /** The focal-plane axes are horizontal (right) and perpendicular to the gaze and to each other. */
  lemma ViewAxesPerpendicular(pos: Vec3, gaze: Vec3, width: nat, height: nat, sqrt: real -> real)
    ensures var v := ViewOf(pos, gaze, width, height, sqrt);
      v.right.z == 0.0 && Dot(v.right, gaze) == 0.0 && Dot(v.down, gaze) == 0.0 && Dot(v.down, v.right) == 0.0
  {
    var right := Normalize(RightOf(gaze), sqrt);
    var down := Normalize(Cross(right, gaze), sqrt);
    RightPerpendicular(gaze, sqrt);
    DownPerpendicular(right, gaze, sqrt);
    assert ViewOf(pos, gaze, width, height, sqrt).right == right;
    assert ViewOf(pos, gaze, width, height, sqrt).down == down;
  }

  lemma RightPerpendicular(gaze: Vec3, sqrt: real -> real)
    ensures Normalize(RightOf(gaze), sqrt).z == 0.0 && Dot(Normalize(RightOf(gaze), sqrt), gaze) == 0.0
  {
    CrossOrthogonal(Z, gaze);
    NormalizeKeepsPerpendicular(RightOf(gaze), gaze, sqrt);
  }

  lemma DownPerpendicular(right: Vec3, gaze: Vec3, sqrt: real -> real)
    ensures Dot(Normalize(Cross(right, gaze), sqrt), gaze) == 0.0
    ensures Dot(Normalize(Cross(right, gaze), sqrt), right) == 0.0
  {
    CrossOrthogonal(right, gaze);
    DotCommutative(right, Cross(right, gaze));
    DotCommutative(gaze, Cross(right, gaze));
    NormalizeKeepsPerpendicular(Cross(right, gaze), gaze, sqrt);
    NormalizeKeepsPerpendicular(Cross(right, gaze), right, sqrt);
  }

  lemma NormalizeKeepsPerpendicular(v: Vec3, w: Vec3, sqrt: real -> real)
    requires Dot(v, w) == 0.0
    ensures Dot(Normalize(v, sqrt), w) == 0.0
    ensures v.z == 0.0 ==> Normalize(v, sqrt).z == 0.0
  {
    var m := Magnitude(v, sqrt);
    if m != 0.0 {
      var n := Div(v, m);
      assert Dot(n, w) * m == Dot(v, w) by {
        DivCancel(v.x, m);
        DivCancel(v.y, m);
        DivCancel(v.z, m);
      }
      ZeroProduct(Dot(n, w), m);
    }
  }

  /** The ray of one anti-aliasing sample, using the four draws from `rng` onwards. */
  function SampleRadiance(scene: Scene, view: View, rx: real, ry: real, rng: SmallRng,
                          sample: (SmallRng, real, real) -> real, sqrt: real -> real): Vec3
    requires IsSqrt(sqrt)
  {
    var dofSrc := DofOffset(view, rng, sample);
    Radiance(scene, Add(view.eye, dofSrc), Normalize(SampleDirection(view, rx, ry, rng, sample), sqrt), 0, sqrt)
  }

  /** The depth-of-field shift of the eye: the first two draws, along the right and down axes. */
  function DofOffset(view: View, rng: SmallRng, sample: (SmallRng, real, real) -> real): Vec3 {
    Add(Scale(view.right, sample(rng, 0.0, DofRange)), Scale(view.down, sample(Advance(rng, 1), 0.0, DofRange)))
  }

  /** The unnormalised ray direction: the pixel's point on the focal plane, jittered by the last two draws. */
  function SampleDirection(view: View, rx: real, ry: real, rng: SmallRng, sample: (SmallRng, real, real) -> real): Vec3 {
    Add(Add(Sub(view.topLeft, DofOffset(view, rng, sample)),
            Scale(view.right, rx * FocalSize + sample(Advance(rng, 2), -view.intervalX, view.intervalX))),
        Scale(view.down, ry * FocalSize + sample(Advance(rng, 3), -view.intervalY, view.intervalY)))
  }

  /** The sum of the first `n` samples, sample `k` drawing from `rng` advanced by `4 k`. */
  function SampleSum(scene: Scene, view: View, rx: real, ry: real, rng: SmallRng, n: nat,
                     sample: (SmallRng, real, real) -> real, sqrt: real -> real): Vec3
    requires IsSqrt(sqrt)
  {
    if n == 0 then Zero
    else Add(SampleSum(scene, view, rx, ry, rng, n - 1, sample, sqrt),
             SampleRadiance(scene, view, rx, ry, Advance(rng, DrawsPerSample * (n - 1)), sample, sqrt))
  }

  /** The colour of the pixel in column `x` and row `y`: the mean of its samples, packed. */
  function PixelColor(scene: Scene, view: View, width: nat, height: nat, x: nat, y: nat, rng: SmallRng,
                      sample: (SmallRng, real, real) -> real, sqrt: real -> real): (c: Word)
    requires IsSqrt(sqrt) && width > 0 && height > 0
    ensures c >> 24 == 0xFF
  {
    var mean := Div(SampleSum(scene, view, x as real / width as real, y as real / height as real, rng, AaSamples, sample, sqrt), AaSamples as real);
    Rgbf(mean.x, mean.y, mean.z)
  }

  /** Draws used by one pixel. */
  const DrawsPerPixel: nat := DrawsPerSample * AaSamples

  /** A frame with a zero side has no pixels, so a pixel index bounds both sides away from zero. */
  lemma ZeroSideIsEmpty(width: nat, height: nat)
    ensures width == 0 || height == 0 ==> width * height == 0
  {
  }

  /** A whole frame: pixel `i` at `(i % width, i / width)`, drawing from the `i`-th block of the generator. */
  function Frame(scene: Scene, view: View, width: nat, height: nat, rng: SmallRng,
                 sample: (SmallRng, real, real) -> real, sqrt: real -> real): (f: seq<Word>)
    requires IsSqrt(sqrt)
    ensures |f| == width * height
  {
    seq(width * height, i requires 0 <= i < width * height =>
      assert width > 0 && height > 0 by { ZeroSideIsEmpty(width, height); }
      PixelColor(scene, view, width, height, i % width, i / width, Advance(rng, DrawsPerPixel * i), sample, sqrt))
  }

  /** Row-major order: the pixel in column `x` and row `y` is entry `y * width + x`. */
  lemma FrameRowMajor(scene: Scene, view: View, width: nat, height: nat, rng: SmallRng,
                      sample: (SmallRng, real, real) -> real, sqrt: real -> real, x: nat, y: nat)
    requires IsSqrt(sqrt) && x < width && y < height
    ensures y * width + x < width * height
    ensures Frame(scene, view, width, height, rng, sample, sqrt)[y * width + x] ==
              PixelColor(scene, view, width, height, x, y, Advance(rng, DrawsPerPixel * (y * width + x)), sample, sqrt)
  {
    var i := y * width + x;
    MulMonotoneNat(y + 1, height, width);
    RowMajorIndex(i, width, x, y);
    FrameEntry(scene, view, width, height, rng, sample, sqrt, i);
  }

  /** Entry `i` of a frame is the pixel at column `i % width` and row `i / width`. */
  lemma FrameEntry(scene: Scene, view: View, width: nat, height: nat, rng: SmallRng,
                   sample: (SmallRng, real, real) -> real, sqrt: real -> real, i: nat)
    requires IsSqrt(sqrt) && i < width * height
    ensures width > 0 && height > 0
    ensures Frame(scene, view, width, height, rng, sample, sqrt)[i] ==
              PixelColor(scene, view, width, height, i % width, i / width, Advance(rng, DrawsPerPixel * i), sample, sqrt)
  {
    ZeroSideIsEmpty(width, height);
  }

  lemma MulMonotoneNat(a: nat, b: nat, c: nat)
    requires a <= b
    ensures a * c <= b * c
  {
  }

  lemma RowMajorIndex(i: nat, width: nat, x: nat, y: nat)
    requires x < width && i == y * width + x
    ensures i % width == x && i / width == y
  {
    var q := i / width;
    var r := i % width;
    assert i == q * width + r;
    UniqueDivision(q, r, y, x, width);
  }

  /** Quotient and remainder are unique. */
  lemma UniqueDivision(q: int, r: int, y: int, x: int, width: int)
    requires q * width + r == y * width + x && 0 <= r < width && 0 <= x < width
    ensures q == y && r == x
  {
    if q > y {
      MulMonotoneInt(q, y + 1, width);
    } else if q < y {
      MulMonotoneInt(y, q + 1, width);
    }
  }

  lemma MulMonotoneInt(a: int, b: int, c: int)
    requires a >= b && c >= 0
    ensures a * c >= b * c
  {
  }

  // ---------------------------------------------------------------------
  // The renderer object.

  /** The first gaze, the normalised +x axis, is +x itself and of unit length. */
  lemma InitialGazeIsUnit(sqrt: real -> real)
    requires IsSqrt(sqrt)
    ensures Normalize(X, sqrt) == X && Dot(Normalize(X, sqrt), Normalize(X, sqrt)) == 1.0
  {
    NormalizeAxis(X, sqrt);
    AxisIsUnit(X);
  }

  class RayTracing {
    const width: nat
    const height: nat
    var lastFrameTime: Option<nat>
    var cameraPos: Vec3
    /**
     * Of unit length: the constructor sets it to +x (`InitialGazeIsUnit`),
     * `Render` and `HandleActions` keep it so when `steer` obeys `IsSteer`, and
     * `RotateCameraTo` gives a unit gaze unless its argument has magnitude 0.
     */
    var cameraGaze: Vec3
    var spheres: seq<Sphere>
    var lights: seq<Light>
    const am: ActionManager
    var rng: SmallRng
    var withdrawActionsOnRender: bool

    function SceneOf(): Scene
      reads this
    {
      Scene(spheres, lights)
    }

    /**
     * A renderer at the origin, looking along the normalised +x axis (which is
     * +x itself, by `NormalizeAxis`), with a frame already requested.
     */
    constructor (width: nat, height: nat, seed: nat, sqrt: real -> real)
      requires IsSqrt(sqrt)
      ensures this.width == width && this.height == height
      ensures lastFrameTime == None && cameraPos == Zero && cameraGaze == Normalize(X, sqrt)
      ensures cameraGaze == X
      ensures spheres == [] && lights == [] && rng == SmallRng(seed, 0) && withdrawActionsOnRender
      ensures fresh(am) && am.actions == {RequestRender}
    {
      this.width := width;
      this.height := height;
      lastFrameTime := None;
      cameraPos := Zero;
      NormalizeAxis(X, sqrt);
      cameraGaze := Normalize(X, sqrt);
      spheres := [];
      lights := [];
      am := new ActionManager();
      rng := SmallRng(seed, 0);
      withdrawActionsOnRender := true;
      new;
      TriggerAction(RequestRender);
    }

    method PutSphere(sphere: Sphere)
      modifies this
      ensures spheres == old(spheres) + [sphere]
      ensures lights == old(lights) && cameraPos == old(cameraPos) && cameraGaze == old(cameraGaze)
      ensures lastFrameTime == old(lastFrameTime) && rng == old(rng) && withdrawActionsOnRender == old(withdrawActionsOnRender)
    {
      spheres := spheres + [sphere];
    }

    method PutLight(light: Light)
      modifies this
      ensures lights == old(lights) + [light]
      ensures spheres == old(spheres) && cameraPos == old(cameraPos) && cameraGaze == old(cameraGaze)
      ensures lastFrameTime == old(lastFrameTime) && rng == old(rng) && withdrawActionsOnRender == old(withdrawActionsOnRender)
    {
      lights := lights + [light];
    }

    method MoveCameraTo(pos: Vec3)
      modifies this
      ensures cameraPos == pos
      ensures cameraGaze == old(cameraGaze) && spheres == old(spheres) && lights == old(lights)
      ensures lastFrameTime == old(lastFrameTime) && rng == old(rng) && withdrawActionsOnRender == old(withdrawActionsOnRender)
    {
      cameraPos := pos;
    }

    /** The new gaze is normalised, so it has unit length unless its magnitude is 0. */
    method RotateCameraTo(gaze: Vec3, sqrt: real -> real)
      requires IsSqrt(sqrt)
      modifies this
      ensures cameraGaze == Normalize(gaze, sqrt)
      ensures Magnitude(gaze, sqrt) != 0.0 ==> Dot(cameraGaze, cameraGaze) == 1.0
      ensures cameraPos == old(cameraPos) && spheres == old(spheres) && lights == old(lights)
      ensures lastFrameTime == old(lastFrameTime) && rng == old(rng) && withdrawActionsOnRender == old(withdrawActionsOnRender)
    {
      if Magnitude(gaze, sqrt) != 0.0 {
        NormalizeIsUnit(gaze, sqrt);
      }
      cameraGaze := Normalize(gaze, sqrt);
    }

    method TriggerAction(action: Action)
      modifies am
      ensures am.actions == old(am.actions) + {action}
    {
      am.Trigger(action);
    }

    method WithdrawAction(action: Action)
      modifies am
      ensures am.actions == old(am.actions) - {action}
    {
      am.Withdraw(action);
    }

    method SetWithdrawActionsOnRender(value: bool)
      modifies this
      ensures withdrawActionsOnRender == value
      ensures cameraPos == old(cameraPos) && cameraGaze == old(cameraGaze) && spheres == old(spheres) && lights == old(lights)
      ensures lastFrameTime == old(lastFrameTime) && rng == old(rng)
    {
      withdrawActionsOnRender := value;
    }

    /**
     * One camera step: turn first, then move relative to the new gaze. `now`
     * is the clock reading the elapsed time is measured against.
     */
    method HandleActions(now: nat, sqrt: real -> real, steer: (Vec3, real, real) -> Vec3)
      modifies this
      ensures cameraGaze == NextGaze(am.actions, old(cameraGaze), ElapsedSeconds(lastFrameTime, now), sqrt, steer)
      ensures IsSteer(steer) && Dot(old(cameraGaze), old(cameraGaze)) == 1.0 ==> Dot(cameraGaze, cameraGaze) == 1.0
      ensures cameraPos == NextPos(am.actions, old(cameraPos), cameraGaze, ElapsedSeconds(lastFrameTime, now), sqrt)
      ensures lastFrameTime == old(lastFrameTime) && spheres == old(spheres) && lights == old(lights)
      ensures rng == old(rng) && withdrawActionsOnRender == old(withdrawActionsOnRender)
    {
      var deltaTime := ElapsedSeconds(lastFrameTime, now);
      var gaze := TurnGaze(am, cameraGaze, deltaTime, sqrt, steer);
      var pos := MovePosition(am, cameraPos, gaze, deltaTime, sqrt);
      if IsSteer(steer) && Dot(cameraGaze, cameraGaze) == 1.0 {
        NextGazeIsUnit(am.actions, cameraGaze, deltaTime, sqrt, steer);
      }
      cameraGaze, cameraPos := gaze, pos;
    }

    /** The nearest hit along the ray: the ground first, then each sphere in order. */
    method Intersect(origin: Vec3, direction: Vec3, sqrt: real -> real) returns (r: Intersect)
      requires IsSqrt(sqrt)
      ensures r == SceneIntersect(spheres, origin, direction, sqrt)
    {
      r := SkyIntersect;
      var t := if direction.z == 0.0 then 0.0 else -origin.z / direction.z;
      if direction.z != 0.0 && t > 0.0 {
        r := Geometry.Intersect.Intersect(Finite(t), Some(Add(origin, Scale(direction, t))), Some(Z), Ground);
      }
      assert r == InitialIntersect(origin, direction);
      for i := 0 to |spheres|
        invariant r == SceneIntersect(spheres[..i], origin, direction, sqrt)
      {
        assert spheres[..i + 1][..i] == spheres[..i];
        var candidate := SphereIntersect(spheres[i], origin, direction, sqrt);
        if candidate.Some? && Less(candidate.value.distance, r.distance) {
          r := candidate.value;
        }
      }
      assert spheres[..|spheres|] == spheres;
    }

    /** One pixel: the mean of `AaSamples` jittered rays, using the next `DrawsPerPixel` draws. */
    method RenderPixel(i: nat, view: View, rng0: SmallRng, sample: (SmallRng, real, real) -> real, sqrt: real -> real)
      returns (color: Word, rng1: SmallRng)
      requires IsSqrt(sqrt) && i < width * height
      ensures width > 0 && height > 0
      ensures color == PixelColor(SceneOf(), view, width, height, i % width, i / width, rng0, sample, sqrt)
      ensures rng1 == Advance(rng0, DrawsPerPixel)
    {
      ZeroSideIsEmpty(width, height);
      var x := i % width;
      var y := i / width;
      var rx := x as real / width as real;
      var ry := y as real / height as real;
      var pixelColor := Zero;
      rng1 := rng0;
      for s := 0 to AaSamples
        invariant pixelColor == SampleSum(SceneOf(), view, rx, ry, rng0, s, sample, sqrt)
        invariant rng1 == Advance(rng0, DrawsPerSample * s)
      {
        var radiance;
        radiance, rng1 := TraceSample(view, rx, ry, rng1, sample, sqrt);
        pixelColor := Add(pixelColor, radiance);
      }
      pixelColor := Div(pixelColor, AaSamples as real);
      color := Rgbf(pixelColor.x, pixelColor.y, pixelColor.z);
    }

    /**
     * One anti-aliasing sample: a depth-of-field shift of the eye and a jitter
     * of the pixel's point, from four consecutive draws, then the traced colour.
     */
    method TraceSample(view: View, rx: real, ry: real, rng0: SmallRng, sample: (SmallRng, real, real) -> real,
                       sqrt: real -> real)
      returns (radiance: Vec3, rng1: SmallRng)
      requires IsSqrt(sqrt)
      ensures radiance == SampleRadiance(SceneOf(), view, rx, ry, rng0, sample, sqrt)
      ensures rng1 == Advance(rng0, DrawsPerSample)
    {
      rng1 := rng0;
      var dofX := sample(rng1, 0.0, DofRange);
      rng1 := Advance(rng1, 1);
      var dofY := sample(rng1, 0.0, DofRange);
      rng1 := Advance(rng1, 1);
      var dofSrc := Add(Scale(view.right, dofX), Scale(view.down, dofY));
      var jitterX := sample(rng1, -view.intervalX, view.intervalX);
      rng1 := Advance(rng1, 1);
      var jitterY := sample(rng1, -view.intervalY, view.intervalY);
      rng1 := Advance(rng1, 1);
      var direction := Add(Add(Sub(view.topLeft, dofSrc), Scale(view.right, rx * FocalSize + jitterX)),
                           Scale(view.down, ry * FocalSize + jitterY));
      assert dofSrc == DofOffset(view, rng0, sample);
      assert direction == SampleDirection(view, rx, ry, rng0, sample);
      direction := Normalize(direction, sqrt);
      radiance := Radiance(SceneOf(), Add(view.eye, dofSrc), direction, 0, sqrt);
    }

    /**
     * With no pending action: no frame, only the frame time is refreshed.
     * Otherwise: one camera step, the actions cleared when the withdraw flag
     * is set, and a frame of `width * height` pixels drawn from a copy of the
     * generator, which itself is never advanced. A drawn frame reads the clock
     * twice: `elapsedAt` when the camera step measures the elapsed time, then
     * `now`, which becomes the frame time.
     */
    method Render(elapsedAt: nat, now: nat, sqrt: real -> real, steer: (Vec3, real, real) -> Vec3,
                  sample: (SmallRng, real, real) -> real)
      returns (frame: Option<seq<Word>>)
      requires IsSqrt(sqrt)
      modifies this, am
      ensures lastFrameTime == Some(now)
      ensures rng == old(rng) && spheres == old(spheres) && lights == old(lights)
      ensures withdrawActionsOnRender == old(withdrawActionsOnRender)
      ensures IsSteer(steer) && Dot(old(cameraGaze), old(cameraGaze)) == 1.0 ==> Dot(cameraGaze, cameraGaze) == 1.0
      ensures !old(am.HasActions()) ==>
        frame == None && cameraPos == old(cameraPos) && cameraGaze == old(cameraGaze) && am.actions == old(am.actions)
      ensures old(am.HasActions()) ==>
        var dt := ElapsedSeconds(old(lastFrameTime), elapsedAt);
        && cameraGaze == NextGaze(old(am.actions), old(cameraGaze), dt, sqrt, steer)
        && cameraPos == NextPos(old(am.actions), old(cameraPos), cameraGaze, dt, sqrt)
        && am.actions == (if withdrawActionsOnRender then {} else old(am.actions))
        && frame == Some(Frame(SceneOf(), ViewOf(cameraPos, cameraGaze, width, height, sqrt), width, height, rng, sample, sqrt))
    {
      if !am.HasActions() {
        lastFrameTime := Some(now);
        return None;
      }
      HandleActions(elapsedAt, sqrt, steer);
      if withdrawActionsOnRender {
        am.Clear();
      }
      lastFrameTime := Some(now);
      var view := ViewOf(cameraPos, cameraGaze, width, height, sqrt);
      var pixels := DrawFrame(view, sample, sqrt);
      frame := Some(pixels);
    }

    /** Every pixel in row-major order, each from its own block of draws of a copy of the generator. */
    method DrawFrame(view: View, sample: (SmallRng, real, real) -> real, sqrt: real -> real) returns (pixels: seq<Word>)
      requires IsSqrt(sqrt)
      ensures pixels == Frame(SceneOf(), view, width, height, rng, sample, sqrt)
    {
      var pixelRng := rng;
      pixels := [];
      for i := 0 to width * height
        invariant |pixels| == i
        invariant pixelRng == Advance(rng, DrawsPerPixel * i)
        invariant forall j :: 0 <= j < i ==> pixels[j] == Frame(SceneOf(), view, width, height, rng, sample, sqrt)[j]
      {
        var color;
        color, pixelRng := RenderPixel(i, view, pixelRng, sample, sqrt);
        pixels := pixels + [color];
      }
    }

    /** The frame as canvas bytes, four per pixel; the new state is that of `Render`. */
    method RenderToWebColor(elapsedAt: nat, now: nat, sqrt: real -> real, steer: (Vec3, real, real) -> Vec3,
                            sample: (SmallRng, real, real) -> real)
      returns (bytes: Option<seq<Byte>>)
      requires IsSqrt(sqrt)
      modifies this, am
      ensures lastFrameTime == Some(now)
      ensures rng == old(rng) && spheres == old(spheres) && lights == old(lights)
      ensures withdrawActionsOnRender == old(withdrawActionsOnRender)
      ensures IsSteer(steer) && Dot(old(cameraGaze), old(cameraGaze)) == 1.0 ==> Dot(cameraGaze, cameraGaze) == 1.0
      ensures !old(am.HasActions()) ==>
        bytes == None && cameraPos == old(cameraPos) && cameraGaze == old(cameraGaze) && am.actions == old(am.actions)
      ensures old(am.HasActions()) ==>
        var dt := ElapsedSeconds(old(lastFrameTime), elapsedAt);
        && cameraGaze == NextGaze(old(am.actions), old(cameraGaze), dt, sqrt, steer)
        && cameraPos == NextPos(old(am.actions), old(cameraPos), cameraGaze, dt, sqrt)
        && am.actions == (if withdrawActionsOnRender then {} else old(am.actions))
        && bytes == Some(WebFrame(Frame(SceneOf(), ViewOf(cameraPos, cameraGaze, width, height, sqrt), width, height, rng, sample, sqrt)))
      ensures old(am.HasActions()) ==> bytes.Some? && |bytes.value| == 4 * (width * height)
    {
      var frame := Render(elapsedAt, now, sqrt, steer, sample);
      if frame.None? {
        return None;
      }
      assert |frame.value| == width * height;
      bytes := Some(WebFrame(frame.value));
    }
  }

  /**
   * One pair of opposite actions applied to an accumulated vector: `p` is
   * added when `plus` is pending, then subtracted when `minus` is.
   */
  method AddThenSub(am: ActionManager, v: Vec3, p: Vec3, plus: Action, minus: Action) returns (r: Vec3)
    ensures r == Shift(v, p, Sign(am.actions, plus, minus))
  {
    r := v;
    if am.IsTriggerred(plus) {
      r := Add(r, p);
    }
    if am.IsTriggerred(minus) {
      r := Sub(r, p);
    }
    PairShift(v, p, plus in am.actions, minus in am.actions);
  }

  /** The same, taken in the other order: `p` is subtracted first, then added. */
  method SubThenAdd(am: ActionManager, v: Vec3, p: Vec3, minus: Action, plus: Action) returns (r: Vec3)
    ensures r == Shift(v, p, Sign(am.actions, plus, minus))
  {
    r := v;
    if am.IsTriggerred(minus) {
      r := Sub(r, p);
    }
    if am.IsTriggerred(plus) {
      r := Add(r, p);
    }
    PairShift(v, p, plus in am.actions, minus in am.actions);
  }

  /**
   * The turning half of the camera step: the rotation actions summed into a
   * delta, which turns the gaze by `steer` unless it is zero.
   */
  method TurnGaze(am: ActionManager, gaze: Vec3, deltaTime: real, sqrt: real -> real, steer: (Vec3, real, real) -> Vec3)
    returns (newGaze: Vec3)
    ensures newGaze == NextGaze(am.actions, gaze, deltaTime, sqrt, steer)
  {
    var deltaAngle := RotationInput(am);
    newGaze := gaze;
    if !IsZero(deltaAngle) {
      var step := Scale(Scale(Normalize(deltaAngle, sqrt), CameraRotationSpeed), deltaTime);
      newGaze := steer(gaze, step.x, step.y);
    }
  }

  /**
   * The moving half of the camera step: the move actions summed into a
   * direction relative to `gaze`, along which the position moves
   * `CameraSpeed * deltaTime` unless it is zero.
   */
  method MovePosition(am: ActionManager, pos: Vec3, gaze: Vec3, deltaTime: real, sqrt: real -> real)
    returns (newPos: Vec3)
    ensures newPos == NextPos(am.actions, pos, gaze, deltaTime, sqrt)
  {
    var deltaDistance := CameraSpeed * deltaTime;
    var direction := MoveInput(am, gaze);
    newPos := pos;
    if !IsZero(direction) {
      newPos := Add(pos, Scale(Normalize(direction, sqrt), deltaDistance));
    }
  }

  /** The rotation actions summed into a delta: pitch along `Y`, then yaw along `X`. */
  method RotationInput(am: ActionManager) returns (deltaAngle: Vec3)
    ensures deltaAngle == RotationDelta(am.actions)
  {
    deltaAngle := Zero;
    deltaAngle := SubThenAdd(am, deltaAngle, Y, CameraRotationDown, CameraRotationUp);
    deltaAngle := SubThenAdd(am, deltaAngle, X, CameraRotationCCW, CameraRotationCW);
  }

  /** The move actions summed into a direction: the gaze, its right and the vertical, each as its pair asks. */
  method MoveInput(am: ActionManager, gaze: Vec3) returns (direction: Vec3)
    ensures direction == MoveDirection(am.actions, gaze)
  {
    direction := Zero;
    var rightDirection := Cross(Z, gaze);
    direction := AddThenSub(am, direction, gaze, CameraMoveForward, CameraMoveBackward);
    direction := SubThenAdd(am, direction, rightDirection, CameraMoveLeft, CameraMoveRight);
    direction := AddThenSub(am, direction, Z, CameraMoveUp, CameraMoveDown);
  }

  /** A new renderer draws its first frame, of `width * height` pixels. */
  method FirstRenderDraws(width: nat, height: nat, seed: nat, elapsedAt: nat, now: nat, sqrt: real -> real,
                          steer: (Vec3, real, real) -> Vec3, sample: (SmallRng, real, real) -> real)
    returns (frame: Option<seq<Word>>)
    requires IsSqrt(sqrt)
    ensures frame.Some? && |frame.value| == width * height
  {
    var renderer := new RayTracing(width, height, seed, sqrt);
    frame := renderer.Render(elapsedAt, now, sqrt, steer, sample);
  }

  /** With the withdraw flag set, a drawn frame is followed by no frame until a new action arrives. */
  method RenderTwice(renderer: RayTracing, now1: nat, now2: nat, sqrt: real -> real,
                     steer: (Vec3, real, real) -> Vec3, sample: (SmallRng, real, real) -> real)
    returns (first: Option<seq<Word>>, second: Option<seq<Word>>)
    requires IsSqrt(sqrt) && renderer.withdrawActionsOnRender && renderer.am.HasActions()
    modifies renderer, renderer.am
    ensures first.Some? && second == None
    ensures renderer.rng == old(renderer.rng)
  {
    first := renderer.Render(now1, now1, sqrt, steer, sample);
    second := renderer.Render(now2, now2, sqrt, steer, sample);
  }
}
