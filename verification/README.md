# Movement controller model

A Dafny model of `Movement`, a per-frame 2D movement component for a single
player-controlled body that is kept inside the camera's view. Each frame it:

1. samples the W/S/D/A keys into a direction vector, scaled on diagonals
   (`getDirection`);
2. steers each velocity component toward `maxSpeed * d`. With no key on an
   axis, it damps that component toward rest without crossing zero
   (`applyAcceleration`);
3. clamps the body into the camera bounds and reflects the velocity on every
   edge hit, with energy loss (`checkCollision`);
4. writes the velocity back to the rigid body (`Update`).

`Start` derives the bounds once from the camera's orthographic size. Without
a camera the bounds stay unset and collision handling is off.

Modules:

- `Vectors`: `Vec2`, plus `Math.Sign` and `Math.Abs` over reals.
- `Direction`: the keys and `getDirection`.
- `Acceleration`: `applyAcceleration` as written (`ApplyAcceleration`, which
  `Update` uses) and a corrected rule that differs only in the reduce branch
  (see Findings). It also holds lemmas over several frames at a steady frame
  rate: coasting to rest, staying at the target, and, under the corrected
  rule, settling at the target while a key is held.
- `Collision`: the `Bound` struct, the bounds derivation, and `Resolve`, the
  pure statement of `checkCollision`.
- `Controller`: the `Movement` class, whose fields are the tuning, the
  bounds, the diagonal constant and the engine body's position and velocity.
  Its methods are `Start`, `CheckCollision` and `Update`.

Arithmetic is over `real`. `Time.deltaTime` is the parameter `dt`. The key
states are a `Keys` value. The body's `lossyScale` is the parameter `scale`.
The camera lookup is an `Option<real>` holding the orthographic size.

## Model

| member | source | states |
|---|---|---|
| Vectors.Sign | Assets/Movement.cs:83 | Math.Sign: the result is -1, 0 or +1; it is 0 exactly for 0 and +1 exactly for positive values |
| Vectors.Abs | Assets/Movement.cs:82-83 | Math.Abs: the result is non-negative and equal to x or -x |
| Direction.Net | Assets/Movement.cs:124-145 | before scaling, each axis is in {-1, 0, +1}; it is 0 exactly when both opposite keys or neither are pressed, and +1 exactly when only the positive key is |
| Direction.GetDirection | Assets/Movement.cs:122-155 | opposite keys cancel to 0; a lone axis is exactly +1 or -1 in the direction of its key and the other axis is 0; with both axes pressed, each component is exactly +diag or -diag and keeps the sign of its net press |
| Direction.DirectionIsUnitOrZero | Assets/Movement.cs:147-152 | when the diagonal constant is cos 45 degrees (2c^2 = 1), every direction has length 1, or 0 when no axis has a net press, so diagonals are no faster than axial moves |
| Direction.OppositeKeysCancel | Assets/Movement.cs:127-145 | pressing both keys of an axis gives the same direction as pressing neither, whatever the other axis does |
| Acceleration.Damp | Assets/Movement.cs:105-118 | with no key and dampening*dt >= 0: 0 stays 0, v > 0 becomes max(0, v - dampening*dt), and v < 0 becomes min(0, v + dampening*dt), so velocity never crosses zero |
| Acceleration.ApplyAcceleration | Assets/Movement.cs:71-119 | the code's rule. At the target: unchanged. Below the target magnitude or moving against d: exactly v + d*acceleration*dt, with no clamp. Above the target with the same sign: the full step back v - d*acceleration*dt exactly when its magnitude is at least maxSpeed*abs(d), whatever its sign, and maxSpeed*d otherwise, so the magnitude never drops below maxSpeed*abs(d). No key: damped toward 0 without crossing it |
| Acceleration.ReduceCorrected | Assets/Movement.cs:88-99 | corrected reduce branch: for d > 0 the result is max(maxSpeed*d, v - d*acceleration*dt), for d < 0 the min, so it never passes the target along d; from above the target with maxSpeed and step non-negative it is never faster than v |
| Acceleration.ApplyAccelerationCorrected | Assets/Movement.cs:71-119 | corrected rule: the code's at-target, increase and dampening branches unchanged, and the reduce branch of ReduceCorrected (max/min with the target, never faster than before) |
| Acceleration.ApplyAccelerationIsOdd | Assets/Movement.cs:71-119 | for the code's rule and for the corrected rule, mirroring velocity and direction mirrors the result: both directions of travel are treated alike |
| Acceleration.CorrectionChangesOnlyReversals | Assets/Movement.cs:88-99 | the code's rule and the corrected rule agree except in the reduce branch when the code's result points against d, at or beyond the mirrored target; there the corrected rule gives maxSpeed*d |
| Acceleration.ReversesUnderHeldKey | Assets/Movement.cs:88-99 | counterexample for the Finding, under the code's rule: v 5.5, d 1, maxSpeed 5, acceleration 120, dt 0.1 gives -6.5, and the next frame gives 5.5 again; the corrected rule gives 5 |
| Acceleration.IncreaseMayOvershoot | Assets/Movement.cs:82-99 | under the code's rule at the default tuning, 4.95 steps to 6.95, above maxSpeed, and the reduce branch brings it to exactly 5 on the next frame |
| Acceleration.HoldIsOdd | Assets/Movement.cs:71-119 | under the code's rule, mirroring the start velocity and the held direction mirrors the velocity after any number of frames |
| Acceleration.HoldCorrectedIsOdd | Assets/Movement.cs:71-119 | the same over any number of frames of the corrected rule |
| Acceleration.CoastToRest | Assets/Movement.cs:105-118 | under the code's rule, with no key held for n frames, the velocity's magnitude is max(0, abs(v) - Frames(n, dampening*dt)), that is n*dampening*dt by FramesIsProduct, and its sign never flips |
| Acceleration.FramesIsProduct | Assets/Movement.cs:110 | the dampening accumulated over n frames is n times the per-frame amount |
| Acceleration.TargetIsStable | Assets/Movement.cs:76-80 | once at maxSpeed*d, holding the key keeps the velocity there for any number of frames, under the code's rule and under the corrected rule |
| Acceleration.SteerFromBelow | Assets/Movement.cs:82-87 | corrected rule, d > 0: below the target, one frame adds exactly one full step |
| Acceleration.OvershootSnaps | Assets/Movement.cs:88-95 | corrected rule, d > 0: a step from below that passes the target is snapped back to exactly maxSpeed*d on the next frame |
| Acceleration.SteerFromAbove | Assets/Movement.cs:88-99 | corrected rule, d > 0: above the target, one frame gives the target or one full step back that stays at or above it |
| Acceleration.CorrectedSteerSettles | Assets/Movement.cs:74-103 | corrected rule: holding a key at a steady frame rate (non-negative maxSpeed, positive step) reaches exactly maxSpeed*d; if n steps (n * abs(d*acceleration*dt)) cover the distance to the target, n + 1 frames are enough |
| Acceleration.SmallStepAgree | Assets/Movement.cs:88-99 | with non-negative maxSpeed, a positive step, and abs(d*acceleration*dt) below 2*maxSpeed*abs(d), the code's rule and the corrected rule give the same result for every velocity |
| Acceleration.SmallStepHoldAgree | Assets/Movement.cs:71-119 | under the same step condition, the code's rule and the corrected rule give the same velocity after any number of frames |
| Acceleration.CodeSteerSettles | Assets/Movement.cs:74-103 | the code's rule, with the step shorter than twice the target magnitude: holding a key at a steady frame rate reaches exactly maxSpeed*d, and n + 1 frames are enough when n steps cover the distance to the target |
| Collision.CameraBounds | Assets/Movement.cs:45-51 | top is the camera size; the bounds are centred on the origin (bottom = -top, left = -right) and the view is twice as wide as it is tall |
| Collision.ResolveAxis | Assets/Movement.cs:169-195 | on one axis: inside the edges, nothing changes. Past the high edge only: clamped to high - half and velocity times -bounce. Past the low edge only: likewise at low + half. Past both: the low edge wins and the velocity is multiplied by bounce^2. A body that fits always ends up inside |
| Collision.Resolve | Assets/Movement.cs:158-198 | an axis within its edges keeps its coordinate and velocity whatever the other axis does; each velocity component is kept, reflected once, or reflected twice |
| Collision.ResolveIsIdempotent | Assets/Movement.cs:169-197 | when the body fits the view, one resolution puts it inside the bounds and a second resolution changes nothing |
| Collision.InsideIsUntouched | Assets/Movement.cs:169-195 | a body inside the bounds keeps its position and velocity |
| Collision.TopHitExample | Assets/Movement.cs:169-174 | bounds (5, -10, -5, 10), half-extents 0.1, bounce 0.5: the body at (0, 5.05) moving at (0, 3) ends at y = 4.9, moving at (0, -1.5), with x unchanged |
| Collision.CornerHitExample | Assets/Movement.cs:169-188 | a body past the top and right edges is corrected on both axes in the same call |
| Controller.Movement.constructor | Assets/Movement.cs:15-26 | default tuning: acceleration 20, dampening 20, maxSpeed 5, bounceCoefficient 0.5; the bounds are unset and the diagonal constant is 0 |
| Controller.Movement.Start | Assets/Movement.cs:28-52 | records the diagonal constant; without a camera the bounds and their flag are unchanged; with one, the bounds are CameraBounds(size) and marked initialised |
| Controller.Movement.CheckCollision | Assets/Movement.cs:158-198 | while the bounds are unset, neither position nor velocity changes; otherwise the new position and the returned velocity are exactly Resolve of the entry position and the given velocity, with half-extents HalfExtent(scale) = scale / 100 / 2 on each axis |
| Controller.Movement.Update | Assets/Movement.cs:54-68 | the new velocity and position are both axes under the code's ApplyAcceleration toward GetDirection(keys), then resolved against the bounds when they are set; the tuning and bounds do not change |

## Findings

| source | as written | input that shows it | evidently intended | confidence | as-written member | corrected member |
|---|---|---|---|---|---|---|
| Assets/Movement.cs:91-95 | the reduce branch snaps to the target only when `Math.Abs(nextVelocity) < maxSpeedComp`, so a step that carries the velocity through zero and past the mirrored target is kept | maxSpeed 5, acceleration 120, dt 0.1, velocity 5.5, D held (d = 1): the velocity becomes -6.5, then 5.5, then -6.5 again, and never settles | snap whenever the step falls short of the target along d, `nextVelocity * Math.Sign(directionComp) < maxSpeedComp`, so the velocity approaches maxSpeed*d from above and settles there | medium, not executed: needs abs(d)*acceleration*dt >= maxSpeed*abs(d) + abs(v), which the default tuning reaches only at frames of 0.5 s or more; with a step below 2*maxSpeed*abs(d) the code's rule settles (`CodeSteerSettles`) | Acceleration.ReversesUnderHeldKey | Acceleration.CorrectedSteerSettles |

`ApplyAcceleration` is the code's rule, and `Update`, `Hold`, `CoastToRest`
and `TargetIsStable` use it. `ApplyAccelerationCorrected` replaces only the
reduce branch, with `ReduceCorrected`. `CorrectionChangesOnlyReversals` shows
that the two rules differ only in the reversing case. `HoldCorrected` and
`CorrectedSteerSettles` are about the corrected rule. When the step
abs(d*acceleration*dt) is below 2*maxSpeed*abs(d), as at ordinary frame
times, the two rules agree (`SmallStepAgree`), so the code's rule settles as
well (`CodeSteerSettles`).

Notes on the source:

- The comment on `maxSpeed` (line 17) calls it the maximum velocity
  magnitude, but the increase branch (line 86) adds a full step with no
  clamp, so the velocity can exceed maxSpeed for a frame. The model follows
  the code (`IncreaseMayOvershoot`).
- All four edge tests in `checkCollision` (lines 170, 177, 184 and 191) read
  `transform.position`, and the local copy is written back only at line 197,
  so each test sees the entry position. The model does the same. The comment
  on the fourth test says "Right", but it tests the left edge.

## Left out

- Engine calls. `MonoBehaviour`, `GetComponent`, `GameObject.Find`, the
  `Camera` component, `Input.GetKey`, `Time.deltaTime`, `Rigidbody2D` and
  `transform` become parameters (`keys`, `dt`, `scale`, `cameraSize`) and
  fields (`position`, `velocity`).
- The z coordinate of `transform.position`. `checkCollision` copies it
  unchanged, so the model keeps only x and y.
- Floating point. All arithmetic is over unbounded reals. Single-precision
  rounding, infinities, NaN, and `Math.Sign` throwing on NaN are not
  modelled.
- `Math.Cos(45 * (Math.PI / 180))`. It is transcendental, so `Start` takes
  the diagonal constant as its parameter `diag`.
- `diagMagnitude` being a `static` field shared by all instances. The model
  holds it per instance. Every instance's `Start` writes the same value.
- Position integration. The physics engine moves the body by its velocity
  between frames; this component never does, so the model does not either.
- Frame-rate variation in the multi-frame lemmas. `Hold`, `HoldCorrected`,
  `CoastToRest`, `CorrectedSteerSettles` and `CodeSteerSettles` fix `dt` and
  the direction over the frames they cover.
