/**
  The axis accelerator: one frame of velocity change along one axis. With a
  direction component `d` the velocity is steered toward the target
  `maxSpeed * d`; without one it is damped toward rest and snapped to 0
  rather than crossing zero.
*/
module Acceleration {
  import opened Vectors

  /** The reduce branch's nextVelocity: `v` minus one step along `d`. */
  function ReduceStep(v: real, d: real, acceleration: real, dt: real): real {
    v - d * acceleration * dt
  }

  /** The steering case that accelerates: below the target magnitude, or moving against `d`. */
  predicate Increases(v: real, d: real, maxSpeed: real) {
    d != 0.0 && v != maxSpeed * d && (Abs(v) < maxSpeed * Abs(d) || Sign(v) != Sign(d))
  }

  /** The steering case that slows down from above the target: same sign, at or above target magnitude. */
  predicate Reduces(v: real, d: real, maxSpeed: real) {
    d != 0.0 && v != maxSpeed * d && Abs(v) >= maxSpeed * Abs(d) && Sign(v) == Sign(d)
  }

  /** A step along a non-zero direction has the sign of the direction. */
  lemma StepSign(d: real, acceleration: real, dt: real)
    ensures acceleration * dt >= 0.0 && d > 0.0 ==> d * acceleration * dt >= 0.0
    ensures acceleration * dt >= 0.0 && d < 0.0 ==> d * acceleration * dt <= 0.0
  {
    assert d * acceleration * dt == d * (acceleration * dt);
  }

  /** The target magnitude is the target taken along the direction. */
  lemma TargetMagnitude(maxSpeed: real, d: real)
    ensures d > 0.0 ==> maxSpeed * Abs(d) == maxSpeed * d
    ensures d < 0.0 ==> maxSpeed * Abs(d) == -(maxSpeed * d)
    ensures maxSpeed >= 0.0 ==> Abs(maxSpeed * d) == maxSpeed * Abs(d) >= 0.0
  {
  }

  /** The dampening branch: no key on this axis, velocity decays toward zero without crossing it. */
  function Damp(v: real, dampening: real, dt: real): (r: real)
    ensures dampening * dt >= 0.0 ==>
              r == if v > 0.0 then Max(0.0, v - dampening * dt)
                   else if v < 0.0 then Min(0.0, v + dampening * dt)
                   else 0.0
  {
    if v != 0.0 then
      var prevSign := v >= 0.0;
      var next := v - dampening * dt * Sign(v) as real;
      var currSign := next >= 0.0;
      if currSign != prevSign then 0.0 else next
    else
      v
  }

  /**
    applyAcceleration as the source writes it. In the reduce branch the snap
    test compares the MAGNITUDE of the next velocity with the target
    magnitude, so a step large enough to carry the velocity through zero and
    beyond the opposite target is kept, reversing the direction of travel.
  */
  function ApplyAcceleration(v: real, d: real, maxSpeed: real, acceleration: real,
                             dampening: real, dt: real): (r: real)
    // already at the target: unchanged
    ensures d != 0.0 && v == maxSpeed * d ==> r == v
    // below the target magnitude or moving the other way: one full step along d, with no clamp
    ensures Increases(v, d, maxSpeed) ==> r == v + d * acceleration * dt
    // above the target, same sign: the target or one full step back, never below the target magnitude
    ensures Reduces(v, d, maxSpeed) ==>
              (r == maxSpeed * d || r == ReduceStep(v, d, acceleration, dt)) && Abs(r) >= maxSpeed * Abs(d)
    // ... the full step exactly when its magnitude reaches the target's, whatever its sign
    ensures Reduces(v, d, maxSpeed) && Abs(ReduceStep(v, d, acceleration, dt)) >= maxSpeed * Abs(d) ==>
              r == ReduceStep(v, d, acceleration, dt)
    ensures Reduces(v, d, maxSpeed) && Abs(ReduceStep(v, d, acceleration, dt)) < maxSpeed * Abs(d) ==>
              r == maxSpeed * d
    // no key: dampened toward zero without crossing it
    ensures d == 0.0 && dampening * dt >= 0.0 ==>
              r == if v > 0.0 then Max(0.0, v - dampening * dt)
                   else if v < 0.0 then Min(0.0, v + dampening * dt)
                   else 0.0
  {
    if d != 0.0 then
      if v == maxSpeed * d then v
      else
        var maxSpeedComp := maxSpeed * Abs(d);
        if Abs(v) < maxSpeedComp || Sign(v) != Sign(d) then
          v + d * acceleration * dt
        else
          var nextVelocity := ReduceStep(v, d, acceleration, dt);
          TargetMagnitude(maxSpeed, d);
          if Abs(nextVelocity) < maxSpeedComp then maxSpeed * d else nextVelocity
    else
      Damp(v, dampening, dt)
  }

  /**
    The reduce branch with its snap test measured along `d` (next * sign(d)
    instead of |next|): one step back, snapped to the target whenever the
    step would fall short of it along `d`, including by crossing zero.
  */
  function ReduceCorrected(v: real, d: real, maxSpeed: real, acceleration: real, dt: real): (r: real)
    // never past the target along d
    ensures d > 0.0 ==> r == Max(maxSpeed * d, ReduceStep(v, d, acceleration, dt))
    ensures d < 0.0 ==> r == Min(maxSpeed * d, ReduceStep(v, d, acceleration, dt))
    // from above the target, with a non-negative step and speed limit, never faster than before
    ensures Reduces(v, d, maxSpeed) && maxSpeed >= 0.0 && acceleration * dt >= 0.0 ==> Abs(r) <= Abs(v)
  {
    var nextVelocity := ReduceStep(v, d, acceleration, dt);
    SnapAlongDirection(nextVelocity, d, maxSpeed);
    SnapNoFaster(v, d, maxSpeed, acceleration, dt);
    if nextVelocity * Sign(d) as real < maxSpeed * Abs(d) then maxSpeed * d else nextVelocity
  }

  /** applyAcceleration with its reduce branch replaced by ReduceCorrected; every other branch is the source's. */
  function ApplyAccelerationCorrected(v: real, d: real, maxSpeed: real, acceleration: real,
                                      dampening: real, dt: real): (r: real)
    // already at the target: unchanged
    ensures d != 0.0 && v == maxSpeed * d ==> r == v
    // below the target magnitude or moving the other way: one full step along d, with no clamp
    ensures Increases(v, d, maxSpeed) ==> r == v + d * acceleration * dt
    // above the target, same sign: one full step back, but never past the target along d
    ensures Reduces(v, d, maxSpeed) && d > 0.0 ==> r == Max(maxSpeed * d, ReduceStep(v, d, acceleration, dt))
    ensures Reduces(v, d, maxSpeed) && d < 0.0 ==> r == Min(maxSpeed * d, ReduceStep(v, d, acceleration, dt))
    // ... and, with a non-negative step and speed limit, never faster than before
    ensures Reduces(v, d, maxSpeed) && maxSpeed >= 0.0 && acceleration * dt >= 0.0 ==> Abs(r) <= Abs(v)
    // no key: dampened toward zero without crossing it
    ensures d == 0.0 && dampening * dt >= 0.0 ==>
              r == if v > 0.0 then Max(0.0, v - dampening * dt)
                   else if v < 0.0 then Min(0.0, v + dampening * dt)
                   else 0.0
  {
    if Reduces(v, d, maxSpeed) then ReduceCorrected(v, d, maxSpeed, acceleration, dt)
    else ApplyAcceleration(v, d, maxSpeed, acceleration, dampening, dt)
  }

  /** Snapping when the next velocity, measured along `d`, falls short of the target magnitude keeps the farther of the two along `d`. */
  lemma SnapAlongDirection(next: real, d: real, maxSpeed: real)
    ensures d > 0.0 ==> (if next * Sign(d) as real < maxSpeed * Abs(d) then maxSpeed * d else next)
                        == Max(maxSpeed * d, next)
    ensures d < 0.0 ==> (if next * Sign(d) as real < maxSpeed * Abs(d) then maxSpeed * d else next)
                        == Min(maxSpeed * d, next)
  {
    TargetMagnitude(maxSpeed, d);
  }

  /** Stepping back from above the target, and stopping at the target, never increases the speed. */
  lemma SnapNoFaster(v: real, d: real, maxSpeed: real, acceleration: real, dt: real)
    ensures Reduces(v, d, maxSpeed) && maxSpeed >= 0.0 && acceleration * dt >= 0.0 && d > 0.0 ==>
              Abs(Max(maxSpeed * d, ReduceStep(v, d, acceleration, dt))) <= Abs(v)
    ensures Reduces(v, d, maxSpeed) && maxSpeed >= 0.0 && acceleration * dt >= 0.0 && d < 0.0 ==>
              Abs(Min(maxSpeed * d, ReduceStep(v, d, acceleration, dt))) <= Abs(v)
  {
    StepSign(d, acceleration, dt);
    TargetMagnitude(maxSpeed, d);
  }

  lemma DampIsOdd(v: real, dampening: real, dt: real)
    ensures Damp(-v, dampening, dt) == -Damp(v, dampening, dt)
  {
    assert Sign(-v) == -Sign(v);
    assert dampening * dt * Sign(-v) as real == -(dampening * dt * Sign(v) as real);
  }

  /**
    The controller treats both directions alike: mirroring velocity and
    direction mirrors the result, under the source's rule and the corrected one.
  */
  lemma ApplyAccelerationIsOdd(v: real, d: real, maxSpeed: real, acceleration: real,
                               dampening: real, dt: real)
    ensures ApplyAcceleration(-v, -d, maxSpeed, acceleration, dampening, dt)
            == -ApplyAcceleration(v, d, maxSpeed, acceleration, dampening, dt)
    ensures ApplyAccelerationCorrected(-v, -d, maxSpeed, acceleration, dampening, dt)
            == -ApplyAccelerationCorrected(v, d, maxSpeed, acceleration, dampening, dt)
  {
    if d == 0.0 {
      DampIsOdd(v, dampening, dt);
    } else {
      assert maxSpeed * -d == -(maxSpeed * d);
      assert ReduceStep(-v, -d, acceleration, dt) == -ReduceStep(v, d, acceleration, dt) by {
        assert (-d) * acceleration * dt == -(d * acceleration * dt);
      }
      assert Sign(-v) == -Sign(v) && Sign(-d) == -Sign(d);
      assert Increases(-v, -d, maxSpeed) == Increases(v, d, maxSpeed);
    }
  }

  /**
    The two rules agree except where the source's result points against
    `d`, at or beyond the mirrored target; there the corrected rule gives the
    target itself.
  */
  lemma CorrectionChangesOnlyReversals(v: real, d: real, maxSpeed: real, acceleration: real,
                                       dampening: real, dt: real)
    ensures var w := ApplyAcceleration(v, d, maxSpeed, acceleration, dampening, dt);
            var c := ApplyAccelerationCorrected(v, d, maxSpeed, acceleration, dampening, dt);
            w == c || (Reduces(v, d, maxSpeed) && c == maxSpeed * d
                       && (d > 0.0 ==> w <= -(maxSpeed * d)) && (d < 0.0 ==> w >= -(maxSpeed * d)))
  {
    TargetMagnitude(maxSpeed, d);
  }

  /**
    The source's reduce branch reverses the direction of travel while the key
    stays held: at 5.5 with target 5 and a step of 120 * 0.1 = 12 it yields
    -6.5, and the next frame brings it back to 5.5, a cycle that never
    settles. The corrected rule snaps to 5.
  */
  lemma ReversesUnderHeldKey()
    ensures ApplyAcceleration(5.5, 1.0, 5.0, 120.0, 20.0, 0.1) == -6.5
    ensures ApplyAcceleration(-6.5, 1.0, 5.0, 120.0, 20.0, 0.1) == 5.5
    ensures ApplyAccelerationCorrected(5.5, 1.0, 5.0, 120.0, 20.0, 0.1) == 5.0
  {
  }

  /**
    The increase branch is not clamped: at the default tuning a velocity of
    4.95 steps to 6.95, above maxSpeed, and is brought back to 5 one frame
    later by the reduce branch.
  */
  lemma IncreaseMayOvershoot()
    ensures ApplyAcceleration(4.95, 1.0, 5.0, 20.0, 20.0, 0.1) == 6.95
    ensures ApplyAcceleration(6.95, 1.0, 5.0, 20.0, 20.0, 0.1) == 5.0
  {
  }

  /** The velocity along one axis after `n` frames with the same direction component and frame time. */
  function Hold(v: real, d: real, maxSpeed: real, acceleration: real, dampening: real,
                dt: real, n: nat): real
    decreases n
  {
    if n == 0 then v
    else Hold(ApplyAcceleration(v, d, maxSpeed, acceleration, dampening, dt),
              d, maxSpeed, acceleration, dampening, dt, n - 1)
  }

  /** Hold, under the corrected rule. */
  function HoldCorrected(v: real, d: real, maxSpeed: real, acceleration: real, dampening: real,
                         dt: real, n: nat): real
    decreases n
  {
    if n == 0 then v
    else HoldCorrected(ApplyAccelerationCorrected(v, d, maxSpeed, acceleration, dampening, dt),
                       d, maxSpeed, acceleration, dampening, dt, n - 1)
  }

  /** Mirroring is kept over any number of frames. */
  lemma {:induction false} HoldIsOdd(v: real, d: real, maxSpeed: real, acceleration: real,
                                     dampening: real, dt: real, n: nat)
    ensures Hold(-v, -d, maxSpeed, acceleration, dampening, dt, n)
            == -Hold(v, d, maxSpeed, acceleration, dampening, dt, n)
    decreases n
  {
    if n > 0 {
      ApplyAccelerationIsOdd(v, d, maxSpeed, acceleration, dampening, dt);
      HoldIsOdd(ApplyAcceleration(v, d, maxSpeed, acceleration, dampening, dt),
                d, maxSpeed, acceleration, dampening, dt, n - 1);
    }
  }

  /** Mirroring is kept over any number of frames under the corrected rule. */
  lemma {:induction false} HoldCorrectedIsOdd(v: real, d: real, maxSpeed: real, acceleration: real,
                                              dampening: real, dt: real, n: nat)
    ensures HoldCorrected(-v, -d, maxSpeed, acceleration, dampening, dt, n)
            == -HoldCorrected(v, d, maxSpeed, acceleration, dampening, dt, n)
    decreases n
  {
    if n > 0 {
      ApplyAccelerationIsOdd(v, d, maxSpeed, acceleration, dampening, dt);
      HoldCorrectedIsOdd(ApplyAccelerationCorrected(v, d, maxSpeed, acceleration, dampening, dt),
                         d, maxSpeed, acceleration, dampening, dt, n - 1);
    }
  }

  /** `n` frames' worth of a per-frame amount `k`, that is n * k. */
  function Frames(n: nat, k: real): real
  {
    if n == 0 then 0.0 else Frames(n - 1, k) + k
  }

  lemma {:induction false} FramesIsProduct(n: nat, k: real)
    ensures Frames(n, k) == n as real * k
  {
    if n > 0 { FramesIsProduct(n - 1, k); }
  }

  lemma {:induction false} FramesNonNegative(n: nat, k: real)
    requires k >= 0.0
    ensures Frames(n, k) >= 0.0
  {
    if n > 0 { FramesNonNegative(n - 1, k); }
  }

  /** One frame of dampening followed by `before` more is `total` = before + k frames' worth. */
  lemma CoastArithmetic(v: real, k: real, v1: real, before: real, total: real, rest: real)
    requires k >= 0.0 && before >= 0.0 && total == before + k
    requires v1 == if v > 0.0 then Max(0.0, v - k) else if v < 0.0 then Min(0.0, v + k) else 0.0
    requires rest == if v1 >= 0.0 then Max(0.0, v1 - before) else Min(0.0, v1 + before)
    ensures rest == if v >= 0.0 then Max(0.0, v - total) else Min(0.0, v + total)
  {
  }

  /**
    With no key held the velocity decays by dampening * dt per frame and
    then rests at exactly 0: after `n` frames its magnitude is
    max(0, |v| - Frames(n, dampening * dt)), where Frames(n, k) = n * k
    (FramesIsProduct), and its sign never flips.
  */
  lemma {:induction false} CoastToRest(v: real, maxSpeed: real, acceleration: real,
                                       dampening: real, dt: real, n: nat)
    requires dampening * dt >= 0.0
    ensures Hold(v, 0.0, maxSpeed, acceleration, dampening, dt, n)
            == if v >= 0.0 then Max(0.0, v - Frames(n, dampening * dt))
               else Min(0.0, v + Frames(n, dampening * dt))
    decreases n
  {
    var k := dampening * dt;
    if n > 0 {
      var v1 := ApplyAcceleration(v, 0.0, maxSpeed, acceleration, dampening, dt);
      CoastToRest(v1, maxSpeed, acceleration, dampening, dt, n - 1);
      var rest := Hold(v1, 0.0, maxSpeed, acceleration, dampening, dt, n - 1);
      assert Hold(v, 0.0, maxSpeed, acceleration, dampening, dt, n) == rest;
      FramesNonNegative(n - 1, k);
      CoastArithmetic(v, k, v1, Frames(n - 1, k), Frames(n, k), rest);
    }
  }

  /** Once at the target, holding the key keeps the velocity there, under either rule. */
  lemma {:induction false} TargetIsStable(d: real, maxSpeed: real, acceleration: real,
                                          dampening: real, dt: real, n: nat)
    requires d != 0.0
    ensures Hold(maxSpeed * d, d, maxSpeed, acceleration, dampening, dt, n) == maxSpeed * d
    ensures HoldCorrected(maxSpeed * d, d, maxSpeed, acceleration, dampening, dt, n) == maxSpeed * d
    decreases n
  {
    if n > 0 {
      TargetIsStable(d, maxSpeed, acceleration, dampening, dt, n - 1);
    }
  }

  /** The first of n + 1 frames under the corrected rule. */
  lemma HoldCorrectedStep(v: real, d: real, maxSpeed: real, acceleration: real,
                          dampening: real, dt: real, n: nat)
    ensures HoldCorrected(v, d, maxSpeed, acceleration, dampening, dt, n + 1)
            == HoldCorrected(ApplyAccelerationCorrected(v, d, maxSpeed, acceleration, dampening, dt),
                             d, maxSpeed, acceleration, dampening, dt, n)
  {
  }

  /** Below the target, one frame adds a full step. */
  lemma SteerFromBelow(v: real, d: real, maxSpeed: real, acceleration: real, dampening: real, dt: real)
    requires d > 0.0 && maxSpeed >= 0.0 && d * acceleration * dt > 0.0
    requires v < maxSpeed * d
    ensures ApplyAccelerationCorrected(v, d, maxSpeed, acceleration, dampening, dt) == v + d * acceleration * dt
  {
    TargetMagnitude(maxSpeed, d);
    assert Increases(v, d, maxSpeed);
  }

  /** A step from below that passes the target is snapped back to it on the next frame. */
  lemma OvershootSnaps(v: real, d: real, maxSpeed: real, acceleration: real, dampening: real, dt: real)
    requires d > 0.0 && maxSpeed >= 0.0
    requires v < maxSpeed * d < v + d * acceleration * dt
    ensures ApplyAccelerationCorrected(v + d * acceleration * dt, d, maxSpeed, acceleration, dampening, dt)
            == maxSpeed * d
  {
    TargetMagnitude(maxSpeed, d);
    var v1 := v + d * acceleration * dt;
    assert Reduces(v1, d, maxSpeed);
    assert ReduceStep(v1, d, acceleration, dt) == v;
  }

  /** Above the target, one frame either snaps to it or removes a full step without passing it. */
  lemma SteerFromAbove(v: real, d: real, maxSpeed: real, acceleration: real, dampening: real, dt: real)
    requires d > 0.0 && maxSpeed >= 0.0 && d * acceleration * dt > 0.0
    requires v > maxSpeed * d
    ensures var v1 := ApplyAccelerationCorrected(v, d, maxSpeed, acceleration, dampening, dt);
            v1 == maxSpeed * d || (v1 == v - d * acceleration * dt && v1 >= maxSpeed * d)
  {
    TargetMagnitude(maxSpeed, d);
    assert Reduces(v, d, maxSpeed);
  }

  /** CorrectedSteerSettles for a positive direction component. */
  lemma {:induction false} SteerSettlesPositive(v: real, d: real, maxSpeed: real, acceleration: real,
                                                dampening: real, dt: real, n: nat)
    requires d > 0.0 && maxSpeed >= 0.0 && d * acceleration * dt > 0.0
    requires Frames(n, d * acceleration * dt) >= Abs(maxSpeed * d - v)
    ensures HoldCorrected(v, d, maxSpeed, acceleration, dampening, dt, n + 1) == maxSpeed * d
    decreases n
  {
    var t := maxSpeed * d;
    var s := d * acceleration * dt;
    var v1 := ApplyAccelerationCorrected(v, d, maxSpeed, acceleration, dampening, dt);
    HoldCorrectedStep(v, d, maxSpeed, acceleration, dampening, dt, n);
    if v == t {
      TargetIsStable(d, maxSpeed, acceleration, dampening, dt, n);
    } else {
      assert n > 0;
      assert Frames(n, s) == Frames(n - 1, s) + s;
      if v < t {
        SteerFromBelow(v, d, maxSpeed, acceleration, dampening, dt);
        if v1 <= t {
          SteerSettlesPositive(v1, d, maxSpeed, acceleration, dampening, dt, n - 1);
        } else {
          OvershootSnaps(v, d, maxSpeed, acceleration, dampening, dt);
          HoldCorrectedStep(v1, d, maxSpeed, acceleration, dampening, dt, n - 1);
          TargetIsStable(d, maxSpeed, acceleration, dampening, dt, n - 1);
        }
      } else {
        SteerFromAbove(v, d, maxSpeed, acceleration, dampening, dt);
        if v1 == t {
          TargetIsStable(d, maxSpeed, acceleration, dampening, dt, n);
        } else {
          SteerSettlesPositive(v1, d, maxSpeed, acceleration, dampening, dt, n - 1);
        }
      }
    }
  }

  /** CorrectedSteerSettles with the distance covered written as Frames. */
  lemma SteerSettlesFrames(v: real, d: real, maxSpeed: real, acceleration: real,
                           dampening: real, dt: real, n: nat)
    requires d != 0.0 && maxSpeed >= 0.0 && acceleration * dt > 0.0
    requires Frames(n, Abs(d * acceleration * dt)) >= Abs(maxSpeed * d - v)
    ensures HoldCorrected(v, d, maxSpeed, acceleration, dampening, dt, n + 1) == maxSpeed * d
  {
    if d > 0.0 {
      assert d * acceleration * dt == d * (acceleration * dt);
      assert Abs(d * acceleration * dt) == d * acceleration * dt;
      SteerSettlesPositive(v, d, maxSpeed, acceleration, dampening, dt, n);
    } else {
      var mv, md := -v, -d;
      var t := maxSpeed * d;
      assert md * acceleration * dt == md * (acceleration * dt) > 0.0;
      assert Abs(d * acceleration * dt) == md * acceleration * dt;
      assert maxSpeed * md == -t;
      SteerSettlesPositive(mv, md, maxSpeed, acceleration, dampening, dt, n);
      HoldCorrectedIsOdd(v, d, maxSpeed, acceleration, dampening, dt, n + 1);
      var mirrored := HoldCorrected(mv, md, maxSpeed, acceleration, dampening, dt, n + 1);
      assert mirrored == -t;
      assert mirrored == -HoldCorrected(v, d, maxSpeed, acceleration, dampening, dt, n + 1);
    }
  }

  /**
    Under the corrected rule, holding a key at a steady frame rate brings the
    velocity to exactly maxSpeed * d and keeps it there: when n steps cover
    the distance to the target, n + 1 frames are enough (the last one being
    the snap). The source's rule does not have this property (see
    ReversesUnderHeldKey).
  */
  lemma CorrectedSteerSettles(v: real, d: real, maxSpeed: real, acceleration: real,
                              dampening: real, dt: real, n: nat)
    requires d != 0.0 && maxSpeed >= 0.0 && acceleration * dt > 0.0
    requires n as real * Abs(d * acceleration * dt) >= Abs(maxSpeed * d - v)
    ensures HoldCorrected(v, d, maxSpeed, acceleration, dampening, dt, n + 1) == maxSpeed * d
  {
    FramesIsProduct(n, Abs(d * acceleration * dt));
    SteerSettlesFrames(v, d, maxSpeed, acceleration, dampening, dt, n);
  }

  /**
    When one step along `d` is shorter than twice the target magnitude, the
    source's rule never reverses, so it agrees with the corrected rule.
  */
  lemma SmallStepAgree(v: real, d: real, maxSpeed: real, acceleration: real, dampening: real, dt: real)
    requires maxSpeed >= 0.0 && acceleration * dt > 0.0
    requires Abs(d * acceleration * dt) < 2.0 * (maxSpeed * Abs(d))
    ensures ApplyAcceleration(v, d, maxSpeed, acceleration, dampening, dt)
            == ApplyAccelerationCorrected(v, d, maxSpeed, acceleration, dampening, dt)
  {
    CorrectionChangesOnlyReversals(v, d, maxSpeed, acceleration, dampening, dt);
    TargetMagnitude(maxSpeed, d);
    StepSign(d, acceleration, dt);
    if Reduces(v, d, maxSpeed) {
      assert d * acceleration * dt == d * (acceleration * dt);
    }
  }

  /** Over any number of frames with such a step, the two rules give the same velocity. */
  lemma {:induction false} SmallStepHoldAgree(v: real, d: real, maxSpeed: real, acceleration: real,
                                              dampening: real, dt: real, n: nat)
    requires maxSpeed >= 0.0 && acceleration * dt > 0.0
    requires Abs(d * acceleration * dt) < 2.0 * (maxSpeed * Abs(d))
    ensures Hold(v, d, maxSpeed, acceleration, dampening, dt, n)
            == HoldCorrected(v, d, maxSpeed, acceleration, dampening, dt, n)
    decreases n
  {
    if n > 0 {
      SmallStepAgree(v, d, maxSpeed, acceleration, dampening, dt);
      SmallStepHoldAgree(ApplyAcceleration(v, d, maxSpeed, acceleration, dampening, dt),
                         d, maxSpeed, acceleration, dampening, dt, n - 1);
    }
  }

  /**
    The source's rule settles too when the step is shorter than twice the
    target magnitude: holding a key brings the velocity to exactly
    maxSpeed * d, and n + 1 frames are enough when n steps cover the
    distance to the target.
  */
  lemma CodeSteerSettles(v: real, d: real, maxSpeed: real, acceleration: real,
                         dampening: real, dt: real, n: nat)
    requires d != 0.0 && maxSpeed >= 0.0 && acceleration * dt > 0.0
    requires Abs(d * acceleration * dt) < 2.0 * (maxSpeed * Abs(d))
    requires n as real * Abs(d * acceleration * dt) >= Abs(maxSpeed * d - v)
    ensures Hold(v, d, maxSpeed, acceleration, dampening, dt, n + 1) == maxSpeed * d
  {
    CorrectedSteerSettles(v, d, maxSpeed, acceleration, dampening, dt, n);
    SmallStepHoldAgree(v, d, maxSpeed, acceleration, dampening, dt, n + 1);
  }
}
