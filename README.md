# A verified model of the render3d ray tracer

render3d is a small CPU ray tracer written in Rust. Its scene has a ground plane,
spheres and point lights. A camera moves and turns according to a set of
pending user actions. A frame is drawn only while some action is pending. The
model covers:

- the vector algebra (`Vec3`) in both of its copies;
- ray intersection with the ground and the spheres;
- the recursive shading: sky gradient, checkerboard ground, Lambert term with
  shadows, specular highlight and bounded reflections;
- the action set;
- the renderer's state machine (`RayTracing::new`, the setters,
  `handle_actions`, `intersect`, `render_pixel`, `render`,
  `render_to_web_color`);
- pixel packing;
- the frame-rate counter.

Modules, one per file:

| file | module | models |
|---|---|---|
| optional.dfy | Optional | `Option` |
| clock.dfy | Clock | `Instant` differences as nanoseconds |
| vector.dfy | Vector3 | `Vec3` and its operations (src/ray_tracing/vector.rs, src/vector.rs) |
| standalone_vector.dfy | StandaloneVector | the magnitude-based `is_normalized` of src/vector.rs |
| geometry.dfy | Geometry | `Intersect`, `Sphere::intersect`, the ground hit and the nearest-hit search |
| shading.dfy | Shading | `radiance` and its constants |
| action.dfy | Actions | `Action` and `ActionManager` |
| pixel.dfy | Pixels | `rgb`, `rgbf`, `to_web_color` |
| renderer.dfy | Renderer | `RayTracing` as a class |
| fps.dfy | Fps | `FpsCounter` as a class |

Numbers are Dafny `real`s. Code the model cannot see becomes a function
parameter:

- `sqrt`, constrained by the ghost predicate `IsSqrt` (non-negative, squares
  back);
- `steer`, the trigonometry that turns the gaze by a yaw and a pitch step;
  where unit length is stated, it is constrained by the ghost predicate
  `IsSteer` (the direction built from a yaw and a pitch has unit length);
- `sample`, the value `random_range(lo..hi)` draws from a generator state.

The clock is a nanosecond reading passed in. `render` reads it twice: once
through `delta_time` (`elapsed()`, src/ray_tracing/mod.rs:201-203, called at
238) and once for the new frame time (`Instant::now()`, mod.rs:470). `Render`
takes both readings, `elapsedAt` and `now`.

`ActionManager` and `RayTracing` have fields that their Rust methods update in
place, so they are classes here. Each method states its complete new state in
terms of specification functions (`NextGaze`, `NextPos`, `Frame`,
`SceneIntersect`, `Trim`). Lemmas about those functions state what the source
promises.

The caller in src/ray_tracing/mod.rs:197 and 462 uses `Action::RequestRender`
and `ActionManager::has_actions`. Neither is defined in
src/ray_tracing/action.rs. The model adds the variant. It defines
`HasActions` as "the set is non-empty", which is what the caller relies on.
`IsTriggerred` and `HasActions` are predicates that only read the manager,
so querying never changes the set.

## Model

| member | source | states |
|---|---|---|
| Clock.SecondsBetween | src/ray_tracing/mod.rs:201-203 | elapsed seconds are never negative and are 0 when the later reading is not later (the saturating subtraction of std's `Instant`); otherwise seconds times 10^9 equals the nanosecond difference |
| Vector3.Abs | src/ray_tracing/vector.rs:148-150 | the absolute value is non-negative and is the argument or its negation |
| Vector3.Max | src/ray_tracing/vector.rs:148-150 | the maximum bounds both arguments and is one of them |
| Vector3.Add | src/ray_tracing/vector.rs:72-92 | no contract of its own; `Sub`, `Neg`, `AddNegIsZero` and `DotAddScale` state its laws |
| Vector3.Scale | src/ray_tracing/vector.rs:17-36 | no contract of its own; `Div` and `ScaleDivInverse` state that scaling is undone by division |
| Vector3.Dot | src/ray_tracing/vector.rs:154-157 | no contract of its own; `DotCommutative`, `CrossOrthogonal` and `AxisIsUnit` state its laws |
| Vector3.Cross | src/ray_tracing/vector.rs:161-177 | no contract of its own; `CrossAntiCommutative`, `CrossOrthogonal` and `BasisRightHanded` state its laws |
| Vector3.IsZero | src/ray_tracing/vector.rs:148-150 | no contract of its own; `IsZeroIff`, `ConstantsZeroTest` and `UnitIsNotZero` state what it accepts |
| Vector3.IsNormalized | src/ray_tracing/vector.rs:189-191 | no contract of its own; `BasisIsNormalized` and `NormalizeIsUnit` state what it accepts |
| Vector3.Magnitude | src/ray_tracing/vector.rs:182-187 | no contract of its own; `NormalizeIsUnit`, `UnitPassesMagnitudeTest` and `SquaredTestImpliesMagnitudeTest` use that it squares back to the squared norm |
| Vector3.Normalize | src/ray_tracing/vector.rs:195-216 | no contract of its own; `NormalizeIsUnit`, `NormalizeUnitIsIdentity` and `NormalizeAxis` state what it returns |
| Vector3.AxisIsUnit | src/ray_tracing/vector.rs:126-130 | each axis has squared norm exactly 1 |
| Vector3.Neg | src/ray_tracing/vector.rs:59-70 | negation is the additive inverse: `a + (-a) == 0` |
| Vector3.Sub | src/ray_tracing/vector.rs:94-113 | subtraction undoes addition: `(a - b) + b == a` |
| Vector3.Div | src/ray_tracing/vector.rs:38-56 | division by a nonzero scalar is undone by scaling with it |
| Vector3.AddNegIsZero | src/vector.rs:37-61 | `a + (-a)` and `(-a) + a` are both the zero vector |
| Vector3.NegNeg | src/vector.rs:37-48 | negating twice gives the vector back |
| Vector3.SubIsAddNeg | src/vector.rs:63-74 | `a - b == a + (-b)` |
| Vector3.CrossAntiCommutative | src/ray_tracing/vector.rs:173-177 | `a x b == -(b x a)` |
| Vector3.DotCommutative | src/ray_tracing/vector.rs:154-157 | the dot product is symmetric |
| Vector3.CrossOrthogonal | src/ray_tracing/vector.rs:154-157 | `a x b` is perpendicular to both `a` and `b` |
| Vector3.BasisRightHanded | src/ray_tracing/vector.rs:7 | the axes form a right-handed frame: `X x Y == Z`, `Y x Z == X`, `Z x X == Y` |
| Vector3.IsZeroIff | src/ray_tracing/vector.rs:148-150 | the max-of-abs zero test holds exactly when every component is below the tolerance |
| Vector3.ConstantsZeroTest | src/ray_tracing/vector.rs:126-130 | `ZERO` passes the zero test and the three axes fail it |
| Vector3.BasisIsNormalized | src/ray_tracing/vector.rs:189-191 | the axes pass the squared-norm unit test and `ZERO` fails it |
| Vector3.UnitIsNotZero | src/ray_tracing/vector.rs:148-150 | a vector of unit length never passes the zero test |
| Vector3.ScaleDivInverse | src/ray_tracing/vector.rs:17-56 | scaling and dividing by the same nonzero scalar cancel in both orders |
| Vector3.NormalizeIsUnit | src/ray_tracing/vector.rs:195-216 | normalising a vector of nonzero magnitude gives exact unit length and passes `is_normalized` |
| Vector3.NormalizeUnitIsIdentity | src/ray_tracing/vector.rs:182-216 | normalising a unit vector leaves it unchanged |
| Vector3.NormalizeAxis | src/ray_tracing/vector.rs:126-130 | the axes are their own normalisation |
| StandaloneVector.IsNormalizedByMagnitude | src/vector.rs:135-137 | no contract of its own; the four lemmas below state what it accepts and how it differs from `Vector3.IsNormalized` |
| StandaloneVector.BasisIsNormalizedByMagnitude | src/vector.rs:135-137 | the axes pass the magnitude-based unit test |
| StandaloneVector.ZeroFailsMagnitudeTest | src/vector.rs:135-137 | `ZERO` fails the magnitude-based unit test |
| StandaloneVector.UnitPassesMagnitudeTest | src/vector.rs:128-137 | every exact unit vector passes the magnitude-based test |
| StandaloneVector.SquaredTestImpliesMagnitudeTest | src/vector.rs:135-137 | a vector passing the squared-norm test also passes the magnitude test |
| StandaloneVector.TestsDiffer | src/vector.rs:135-137 | the two `is_normalized` tests are not the same: `(1, 0.001, 0)` passes the magnitude test but fails the squared-norm test |
| Geometry.SphereIntersect | src/ray_tracing/mod.rs:83-110 | a hit is of sphere kind, at a finite non-negative distance, with a hit point and a normal, and only when the discriminant is positive |
| Geometry.SphereMissIff | src/ray_tracing/mod.rs:83-110 | a sphere is missed exactly when the discriminant is not positive or both roots are negative |
| Geometry.SphereHitFromOutside | src/ray_tracing/mod.rs:83-110 | with a non-negative near root, the hit is at the near root with the outward unit normal |
| Geometry.SphereHitFromInside | src/ray_tracing/mod.rs:96-105 | with only the far root non-negative, the distance is the far root, the normal is reversed, and the hit point stays the near root's point (as the source computes it) |
| Geometry.InsideHits | src/ray_tracing/mod.rs:83-110 | from an origin strictly inside the sphere the discriminant is positive, the near root negative and the far root positive, so the ray hits at the far root with the normal reversed |
| Geometry.SurfaceRayHitsAtZero | src/ray_tracing/mod.rs:83-110 | a ray that starts on a sphere's surface and is not tangent to it hits that sphere at distance 0 |
| Geometry.RootsOnSphere | src/ray_tracing/mod.rs:83-110 | for a unit direction, both roots lie on the sphere's surface |
| Geometry.GroundIntersect | src/ray_tracing/mod.rs:315-323 | a ground hit has normal `+Z`, a positive distance and a point at `z == 0`; there is none exactly when the ray is horizontal or the plane is behind |
| Geometry.SceneIntersect | src/ray_tracing/mod.rs:306-350 | a non-sky result has a point, a normal and a finite distance; a sky result is exactly the sky record |
| Geometry.SkyIff | src/ray_tracing/mod.rs:306-350 | the result is sky exactly when neither the ground nor any sphere is hit |
| Geometry.SceneIsNearest | src/ray_tracing/mod.rs:336-347 | the result is at most as far as the ground hit and as every sphere hit |
| Geometry.SceneEarliestWins | src/ray_tracing/mod.rs:336-347 | a ground result is the ground hit; a sphere result is some sphere's hit, strictly nearer than the ground and than every hit of an earlier sphere |
| Renderer.RayTracing.Intersect | src/ray_tracing/mod.rs:306-350 | the loop over the spheres computes `SceneIntersect` |
| Shading.SkyShade | src/ray_tracing/mod.rs:355-357 | the sky colour is never negative, is the full sky colour for a horizontal ray and black for a vertical one |
| Shading.LightTerm | src/ray_tracing/mod.rs:366-376 | a light blocked by a sphere, or of strength 0, contributes 0 |
| Shading.SurfacePointShadowsItself | src/ray_tracing/mod.rs:366-376 | from a point on a sphere, the shadow ray to a light that is not tangent to that sphere hits it at distance 0, so the light counts as blocked and contributes 0 |
| Shading.PowEvenNonNegative | src/ray_tracing/mod.rs:356 | an even power is non-negative, so the sky gradient and the highlight terms are too |
| Shading.Clamp | src/ray_tracing/mod.rs:410 | the clamped value lies in the bounds and equals the input when the input already does |
| Shading.Lambert | src/ray_tracing/mod.rs:362-379 | the Lambert factor is non-negative and is 0 when there are no lights |
| Shading.Unshadowed | src/ray_tracing/mod.rs:369-375 | the lights kept are exactly the unshadowed ones, none when all are shadowed |
| Shading.ShadowedLightsContributeNothing | src/ray_tracing/mod.rs:369-375 | the light sum equals the sum over the unshadowed lights only |
| Shading.AllShadowedIsDark | src/ray_tracing/mod.rs:362-379 | when every light is blocked by a sphere, the Lambert factor is 0 |
| Shading.SaturateI32 | src/ray_tracing/mod.rs:385-386 | `f32 as i32` saturates: values in range are kept, others clamp to the `i32` bounds |
| Shading.WrapI32 | src/ray_tracing/mod.rs:385-386 | release-mode `i32` addition wraps: the result is in range and congruent modulo 2^32 |
| Shading.RemTwo | src/ray_tracing/mod.rs:387 | Rust's `% 2` is 0 exactly for even numbers, and takes the sign of the dividend |
| Shading.CheckerParity | src/ray_tracing/mod.rs:385-393 | inside the `i32` range, the first ground colour marks exactly the cells whose index sum is even |
| Shading.CheckerFlips | src/ray_tracing/mod.rs:385-393 | one grid step along `x` or `y` switches the ground colour |
| Shading.CheckerSymmetric | src/ray_tracing/mod.rs:385-393 | swapping `x` and `y` keeps the ground colour |
| Shading.NextCell | src/ray_tracing/mod.rs:164 | one grid step (0.3 m) moves to the next cell index |
| Shading.GroundShade | src/ray_tracing/mod.rs:394 | the ground colour is scaled by the Lambert factor plus an ambient term of at least 0.1 |
| Shading.Reflect | src/ray_tracing/mod.rs:397 | no contract of its own; `ReflectMirrors` states that it mirrors the ray |
| Shading.ReflectMirrors | src/ray_tracing/mod.rs:397 | about a unit normal the reflected ray flips its normal component and keeps its length |
| Shading.Specular | src/ray_tracing/mod.rs:399-413 | the highlight lies in 0..1 and is 0 when the Lambert factor is not positive |
| Shading.Radiance | src/ray_tracing/mod.rs:353-428 | no contract of its own; `RadianceOfSky`, `RadianceNonNegative`, `RadiancePastCap` and `ReflectionChainBounded` state what it computes |
| Shading.ReflectionChainBounded | src/ray_tracing/mod.rs:415-424 | a ray traced from depth 0 recurses at most `MAX_REFLECTION + 1` times |
| Shading.RadiancePastCap | src/ray_tracing/mod.rs:415-424 | past the reflection cap the colour no longer depends on the depth, and no further reflection is traced |
| Shading.RadianceOfSky | src/ray_tracing/mod.rs:355-357 | a ray that hits nothing gets the sky gradient |
| Shading.RadianceNonNegative | src/ray_tracing/mod.rs:353-428 | every colour the shading produces has non-negative channels |
| Actions.ActionManager.constructor | src/ray_tracing/action.rs:25-29 | a new manager has no pending action |
| Actions.ActionManager.Trigger | src/ray_tracing/action.rs:31-33 | the action becomes pending; other actions keep their state; triggering a pending action changes nothing |
| Actions.ActionManager.Withdraw | src/ray_tracing/action.rs:36-38 | the action is no longer pending; other actions keep their state; withdrawing an absent action changes nothing |
| Actions.ActionManager.Clear | src/ray_tracing/action.rs:44-46 | afterwards no action is pending and `has_actions` is false |
| Actions.ActionManager.IsTriggerred | src/ray_tracing/action.rs:40-42 | no contract of its own; the ensures of `Trigger`, `Withdraw` and `Clear` state when it holds |
| Actions.ActionManager.HasActions | src/ray_tracing/mod.rs:462 | no contract of its own; `HasActionsIff` states when it holds |
| Actions.HasActionsIff | src/ray_tracing/mod.rs:462 | `has_actions` holds exactly when some action is triggered |
| Pixels.LowByte | src/ray_tracing/mod.rs:39-46 | `as u8` leaves the word reduced modulo 256: the word minus the byte is a multiple of 256 |
| Pixels.Rgb | src/ray_tracing/mod.rs:25-27 | the packed colour has alpha `0xFF` and the channels in bits 16-23, 8-15 and 0-7 (the `+` in the source never carries) |
| Pixels.ToWebColor | src/ray_tracing/mod.rs:39-46 | four bytes, R, G, B then A; repacking the first three gives the colour back with alpha forced on |
| Pixels.WebColorOfRgb | src/ray_tracing/mod.rs:25-46 | unpacking a packed colour gives `[r, g, b, 0xFF]` |
| Pixels.RgbOfWebColor | src/ray_tracing/mod.rs:25-46 | every opaque colour is the packing of its own unpacked channels |
| Pixels.SaturatingByte | src/ray_tracing/mod.rs:31-33 | `f32 as u8` truncates toward zero and saturates to 0..255 |
| Pixels.Rgbf | src/ray_tracing/mod.rs:31-33 | every packed colour is opaque, whatever the channels |
| Pixels.RgbfExtremes | src/ray_tracing/mod.rs:31-33 | white maps to `0xFFFFFFFF` and black to `0xFF000000` |
| Pixels.WebFrame | src/ray_tracing/mod.rs:519-522 | the canvas bytes are four per pixel, pixel `i` at bytes `4i..4i+4` |
| Renderer.AdvanceAdditive | src/ray_tracing/mod.rs:446-455 | drawing `m` values and then `n` is drawing `m + n`, and different numbers of draws leave different generator states |
| Renderer.PairShift | src/ray_tracing/mod.rs:242-254 | adding and subtracting a vector under two flags, in either order, shifts it by the net sign |
| Renderer.ElapsedSeconds | src/ray_tracing/mod.rs:201-203 | the step time is never negative and is `f32::EPSILON` before the first frame |
| Renderer.RotationDeltaZeroIff | src/ray_tracing/mod.rs:242-255 | the rotation delta passes the zero test exactly when CW/CCW and Up/Down are each both pending or both absent |
| Renderer.NextGaze | src/ray_tracing/mod.rs:242-275 | no contract of its own; `BalancedTurnsKeepGaze`, `NextGazeIsUnit` and `RayTracing.HandleActions` state what it does |
| Renderer.NextPos | src/ray_tracing/mod.rs:277-302 | no contract of its own; `BalancedMovesKeepPosition` and `ForwardMovesAlongGaze` state what it does |
| Renderer.NextGazeIsUnit | src/ray_tracing/mod.rs:242-275 | with a unit gaze and a `steer` that gives unit directions, the next gaze has unit length |
| Renderer.InitialGazeIsUnit | src/ray_tracing/mod.rs:184-199 | the first gaze, normalised `+X`, is `+X` and has unit length |
| Renderer.BalancedTurnsKeepGaze | src/ray_tracing/mod.rs:242-274 | with no turn, or only opposite turns, the gaze is unchanged |
| Renderer.BalancedMovesKeepPosition | src/ray_tracing/mod.rs:277-302 | with no move, or only opposite moves, the direction is zero and the position is unchanged |
| Renderer.ForwardMovesAlongGaze | src/ray_tracing/mod.rs:277-302 | moving only forward with a unit gaze advances the camera by `CAMERA_SPEED * dt` along the gaze |
| Renderer.ViewOf | src/ray_tracing/mod.rs:473-480 | no contract of its own; `ViewAxesPerpendicular` states the geometry of the focal plane |
| Renderer.ViewAxesPerpendicular | src/ray_tracing/mod.rs:473-480 | the focal-plane right axis is horizontal and perpendicular to the gaze; the down axis is perpendicular to both |
| Renderer.PixelColor | src/ray_tracing/mod.rs:431-458 | every pixel colour is opaque |
| Renderer.Frame | src/ray_tracing/mod.rs:505-515 | a frame has `width * height` pixels |
| Renderer.FrameRowMajor | src/ray_tracing/mod.rs:441-444 | the pixel in column `x` and row `y` is entry `y * width + x`, drawn from that pixel's own block of draws |
| Renderer.FrameEntry | src/ray_tracing/mod.rs:441-444 | entry `i` is the pixel at column `i % width` and row `i / width` |
| Renderer.RayTracing.constructor | src/ray_tracing/mod.rs:184-199 | a renderer at the origin looking along normalised `+X` (which is `+X`), with an empty scene, no frame time, the withdraw flag set and `RequestRender` pending |
| Renderer.RayTracing.PutSphere | src/ray_tracing/mod.rs:205-207 | the sphere is appended; nothing else changes |
| Renderer.RayTracing.PutLight | src/ray_tracing/mod.rs:209-211 | the light is appended; nothing else changes |
| Renderer.RayTracing.MoveCameraTo | src/ray_tracing/mod.rs:213-215 | the camera is at the new position; nothing else changes |
| Renderer.RayTracing.RotateCameraTo | src/ray_tracing/mod.rs:217-219 | the gaze is the normalised argument, of unit length unless the argument's magnitude is 0; nothing else changes |
| Renderer.RayTracing.TriggerAction | src/ray_tracing/mod.rs:224-226 | the action is added to the pending set |
| Renderer.RayTracing.WithdrawAction | src/ray_tracing/mod.rs:228-230 | the action is removed from the pending set |
| Renderer.RayTracing.SetWithdrawActionsOnRender | src/ray_tracing/mod.rs:232-234 | only the withdraw flag changes |
| Renderer.RayTracing.HandleActions | src/ray_tracing/mod.rs:236-303 | one camera step: the gaze turns first, then the position moves relative to the new gaze, as `NextGaze`/`NextPos` say; a unit gaze stays unit when `steer` obeys `IsSteer`; nothing else changes |
| Renderer.TurnGaze | src/ray_tracing/mod.rs:242-275 | the rotation actions turn the gaze as `NextGaze` says |
| Renderer.MovePosition | src/ray_tracing/mod.rs:278-302 | the move actions move the position as `NextPos` says |
| Renderer.RotationInput | src/ray_tracing/mod.rs:242-254 | the four rotation ifs accumulate `RotationDelta` |
| Renderer.MoveInput | src/ray_tracing/mod.rs:279-299 | the six move ifs accumulate `MoveDirection` |
| Renderer.AddThenSub | src/ray_tracing/mod.rs:282-287 | adding `p` when one action is pending and then subtracting it when its opposite is pending shifts by the net sign |
| Renderer.SubThenAdd | src/ray_tracing/mod.rs:243-248 | the same with subtraction first |
| Renderer.RayTracing.RenderPixel | src/ray_tracing/mod.rs:431-458 | pixel `i` is `PixelColor` at `(i % width, i / width)`, using exactly `DrawsPerPixel` draws |
| Renderer.RayTracing.TraceSample | src/ray_tracing/mod.rs:446-455 | one sample is `SampleRadiance`, using exactly four draws |
| Renderer.RayTracing.DrawFrame | src/ray_tracing/mod.rs:505-515 | the drawn pixels are `Frame` of the current scene and view |
| Renderer.RayTracing.Render | src/ray_tracing/mod.rs:461-516 | the step time comes from the first clock reading and the new frame time is the second; with nothing pending, no frame and only the frame time changes; otherwise one camera step, the actions cleared when the withdraw flag is set, and the frame of the new view; a unit gaze stays unit under `IsSteer`; the generator is never advanced |
| Renderer.RayTracing.RenderToWebColor | src/ray_tracing/mod.rs:519-522 | the same new state as `Render`; no bytes when nothing is pending, otherwise the web bytes of the rendered frame, `4 * width * height` of them |
| Renderer.FirstRenderDraws | src/ray_tracing/mod.rs:184-199 | the first `render` of a new renderer returns a frame of `width * height` pixels |
| Renderer.RenderTwice | src/ray_tracing/mod.rs:461-470 | with the withdraw flag set, a drawn frame is followed by no frame, and the generator is unchanged |
| Fps.Trim | src/fps.rs:26-31 | the kept history is a suffix that keeps at least `MIN_SAMPLES - 1` entries (or all, if fewer), and trimming stops below `MIN_SAMPLES` entries or at a fresh front |
| Fps.TrimDropsOnlyStale | src/fps.rs:26-31 | every dropped entry was older than the cutoff |
| Fps.TrimIdempotent | src/fps.rs:26-31 | trimming twice is trimming once |
| Fps.TrimKeepsFresh | src/fps.rs:26-31 | a history that is short or has a fresh front is kept whole |
| Fps.Rate | src/fps.rs:33-37 | the rate is non-negative and is 0 exactly for an empty history |
| Fps.TickKeepsOrder | src/fps.rs:24-31 | after a push and a trim, the newest stamp is last and the rest is a suffix of the old history |
| Fps.FpsCounter.constructor | src/fps.rs:14-19 | a new counter has the given window and an empty history |
| Fps.FpsCounter.Tick | src/fps.rs:22-38 | the history is pushed and trimmed as `Trim` says, and the returned rate is positive |

## Left out

- Floating point: `f32` rounding, NaN and infinities are not modelled. Arithmetic is exact over reals.
- Vector3.Normalize: for a zero vector the source gives NaN components; the model returns the vector unchanged.
- Geometry.GroundIntersect: a horizontal ray (`direction.z == 0`) gives an `f32` infinity or NaN in the source; the model reports no ground hit.
- Renderer.ViewOf: a zero width or height makes the source's jitter half-width infinite; no pixel uses it, and the model puts 0.
- Shading.Lambert: with no lights the source divides 0 by 0 and relies on `NaN.max(0.)` being 0; the model gives 0 directly.
- Shading.Pow: `powf` with the integral exponents 4 and 80 is modelled as an exact integer power.
- Trigonometry in `handle_actions` (`atan2`, `sin`, `cos`, the angle `rem` and the pitch clamp, src/ray_tracing/mod.rs:255-274) is the parameter `steer`: the model states when it is called and with what step, not what it computes.
- The random generator's algorithm (rand's `SmallRng`) is the parameter `sample`; the model tracks only which draw each sample uses.
- `sqrt` is a parameter constrained by `IsSqrt`.
- `Vec3::cos` (cosine similarity, src/ray_tracing/vector.rs:218-224 and src/vector.rs:151-158) is not modelled: nothing in the renderer calls it, and it divides by magnitudes that may be 0. The constructors `new`, `new_const` and `From<(f32, f32, f32)>` are the datatype constructor `Vec3`.
- The clock is a parameter. `render` reads it twice and `Render` takes both readings as `elapsedAt` and `now`; `tick` reads it twice (src/fps.rs:23-24), and `Tick` takes both readings as `now` and `stamp`.
- Clock.SecondsBetween follows std's `Instant`, whose difference saturates at 0. The wasm build's `Instant` (src/time.rs:25-27) subtracts `u64` milliseconds without saturation, which panics in debug builds and wraps in release builds; that variant is not modelled.
- Fps.FpsCounter.Tick: `now - count_window` would panic on `Instant` underflow; the model uses unbounded integers for the cutoff.
- The parallel rendering path (rayon) and the `simd` feature variants of the vector operations are not modelled; the model follows the sequential path (src/ray_tracing/mod.rs:505-515) and the scalar branches.
- The random generator: the frame draws from a clone of `rng` that is never written back (src/ray_tracing/mod.rs:507), so every frame draws the same values. The model follows the code.
- Pixel indices and `width * height` use `usize` arithmetic in the source; their overflow is not modelled. The one `i32` computation, the checkerboard index, is modelled (`SaturateI32`, `WrapI32`).
- Shading.LightTerm: the shadow ray starts at the hit point itself (src/ray_tracing/mod.rs:369), with no offset, unlike the reflection ray, which starts at `point + normal * 0.01` (mod.rs:416-418). With exact arithmetic the shadow ray from a point on a sphere hits that sphere at distance 0 (`SurfacePointShadowsItself`), so every light that is not tangent there counts as blocked and the Lambert and highlight terms on spheres are 0. In `f32` the source sees this as rounding-dependent shadow acne instead; the model keeps the source's missing offset and does not model the rounding.
- `debug_assert!` checks, the wasm bindings, src/time.rs, the binaries under src/bin/ and the benches are not part of this model.
- Renderer.TurnGaze, Renderer.MovePosition, Renderer.RotationInput, Renderer.MoveInput, Renderer.AddThenSub, Renderer.SubThenAdd, Renderer.RayTracing.TraceSample and Renderer.RayTracing.DrawFrame are pieces of the source's inline code in `handle_actions`, `render_pixel` and `render`, split out as methods; they add no behaviour.
- Renderer.RayTracing.TriggerAction and Renderer.RayTracing.WithdrawAction state only the new action set: the other fields are not in their frame, so they cannot change.
