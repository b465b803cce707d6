/**
  The Movement component: the per-frame controller that owns the tuning,
  the camera bounds and the diagonal constant, and drives the body's
  position and velocity. The engine's body is represented by the fields
  `position` (the transform's position) and `velocity` (the rigid body's
  velocity); key states, the frame time, the body's scale and the camera
  lookup are passed in.
*/
module Controller {
  import opened Vectors
  import opened Direction
  import opened Acceleration
  import opened Collision

  datatype Option<T> = None | Some(value: T)

  class Movement {
    // tuning, public in the component
    var acceleration: real        // velocity gained per second while a key is held
    var dampening: real           // velocity lost per second while idle
    var maxSpeed: real            // target speed along a held direction
    var bounceCoefficient: real   // fraction of velocity kept, reversed, at an edge

    var screen: Bound
    var screenInitialized: bool
    var diagMagnitude: real

    // the engine body
    var position: Vec2
    var velocity: Vec2

    /** A fresh component with the default tuning, before Start has run. */
    constructor (position: Vec2, velocity: Vec2)
      ensures acceleration == 20.0 && dampening == 20.0 && maxSpeed == 5.0 && bounceCoefficient == 0.5
      ensures !screenInitialized && screen == Bound(0.0, 0.0, 0.0, 0.0) && diagMagnitude == 0.0
      ensures this.position == position && this.velocity == velocity
    {
      acceleration := 20.0;
      dampening := 20.0;
      maxSpeed := 5.0;
      bounceCoefficient := 0.5;
      screen := Bound(0.0, 0.0, 0.0, 0.0);
      screenInitialized := false;
      diagMagnitude := 0.0;
      this.position := position;
      this.velocity := velocity;
    }

    /**
      Start: records the diagonal constant and, when the main camera is
      found (`cameraSize` is its orthographic size), derives the bounds and
      marks them initialised. Without a camera the bounds stay unset.
    */
    method Start(diag: real, cameraSize: Option<real>)
      modifies this`diagMagnitude, this`screen, this`screenInitialized
      ensures diagMagnitude == diag
      ensures cameraSize.None? ==> screen == old(screen) && screenInitialized == old(screenInitialized)
      ensures cameraSize.Some? ==> screen == CameraBounds(cameraSize.value) && screenInitialized
    {
      diagMagnitude := diag;
      if cameraSize.None? {
        return;
      }
      var size := cameraSize.value;
      screen := Bound(0.0, 0.0, 0.0, 0.0);
      screen := screen.(top := size);
      screen := screen.(bottom := -size);
      screen := screen.(left := screen.bottom * 2.0);
      screen := screen.(right := screen.top * 2.0);
      screenInitialized := true;
    }

    /** Both velocity components after one frame of applyAcceleration along `direction`. */
    function Accelerated(v: Vec2, direction: Vec2, dt: real): Vec2
      reads this
    {
      Vec2(ApplyAcceleration(v.x, direction.x, maxSpeed, acceleration, dampening, dt),
           ApplyAcceleration(v.y, direction.y, maxSpeed, acceleration, dampening, dt))
    }

    /**
      checkCollision: the four edge tests, each reading the position as it
      was on entry, each reflecting the velocity passed in as it stands; the
      clamped position is written back at the end. A no-op while the bounds
      are unset.
    */
    method CheckCollision(scale: Vec2, v: Vec2) returns (bounced: Vec2)
      modifies this`position
      ensures !screenInitialized ==> position == old(position) && bounced == v
      ensures screenInitialized ==>
                Body(position, bounced)
                == Resolve(screen, old(position), v, HalfExtent(scale.x), HalfExtent(scale.y), bounceCoefficient)
    {
      bounced := v;
      if !screenInitialized {
        return;
      }
      var xSizeOffset := scale.x / 100.0 / 2.0;
      var ySizeOffset := scale.y / 100.0 / 2.0;
      var p := position;

      // top
      if position.y + ySizeOffset > screen.top {
        p := p.(y := screen.top - ySizeOffset);
        bounced := bounced.(y := bounced.y * -bounceCoefficient);
      }
      // bottom
      if position.y - ySizeOffset < screen.bottom {
        p := p.(y := screen.bottom + ySizeOffset);
        bounced := bounced.(y := bounced.y * -bounceCoefficient);
      }
      // right
      if position.x + xSizeOffset > screen.right {
        p := p.(x := screen.right - xSizeOffset);
        bounced := bounced.(x := bounced.x * -bounceCoefficient);
      }
      // left
      if position.x - xSizeOffset < screen.left {
        p := p.(x := screen.left + xSizeOffset);
        bounced := bounced.(x := bounced.x * -bounceCoefficient);
      }

      position := p;
    }

    /**
      Update: sample the direction, accelerate each axis, resolve the edges
      and commit the velocity to the body.
    */
    method Update(keys: Keys, dt: real, scale: Vec2)
      modifies this`position, this`velocity
      ensures var v := Accelerated(old(velocity), GetDirection(keys, diagMagnitude), dt);
              if screenInitialized then
                Body(position, velocity)
                == Resolve(screen, old(position), v, HalfExtent(scale.x), HalfExtent(scale.y), bounceCoefficient)
              else
                position == old(position) && velocity == v
    {
      var v := velocity;
      var direction := GetDirection(keys, diagMagnitude);

      v := v.(x := ApplyAcceleration(v.x, direction.x, maxSpeed, acceleration, dampening, dt));
      v := v.(y := ApplyAcceleration(v.y, direction.y, maxSpeed, acceleration, dampening, dt));

      v := CheckCollision(scale, v);

      velocity := v;
    }
  }
}
