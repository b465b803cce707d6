/**
  The boundary resolver: the camera's visible rectangle, derived once from
  the orthographic size, and the per-frame clamp-and-bounce against its four
  edges.
*/
module Collision {
  import opened Vectors

  /** The Bound struct: the edges of the camera view in world units. */
  datatype Bound = Bound(top: real, left: real, bottom: real, right: real)

  /** The body's position and velocity as the resolver leaves them. */
  datatype Body = Body(position: Vec2, velocity: Vec2)

  /** One axis of the body: its coordinate and its velocity component. */
  datatype Axis = Axis(pos: real, vel: real)

  /**
    The bounds Start derives from the camera's orthographic size (the half
    height of the view): centred on the origin, and twice as wide as tall.
  */
  function CameraBounds(size: real): (b: Bound)
    ensures b.top == size
    ensures b.bottom == -b.top && b.left == -b.right
    ensures b.right - b.left == 2.0 * (b.top - b.bottom)
  {
    var bottom := -size;
    var top := size;
    Bound(top, bottom * 2.0, bottom, top * 2.0)
  }

  /** The half-extent of the body along one axis: its scale, in sprite pixels at 100 per unit, halved. */
  function HalfExtent(scale: real): real
  {
    scale / 100.0 / 2.0
  }

  /**
    The two edge tests of one axis. Both read the original coordinate; the
    velocity is multiplied by -bounce for each edge hit, and when both edges
    are hit the low edge, written last, decides the coordinate.
  */
  function ResolveAxis(a: Axis, half: real, low: real, high: real, bounce: real): (r: Axis)
    // inside the bounds: nothing changes
    ensures low <= a.pos - half && a.pos + half <= high ==> r == a
    // past the high edge only: clamped to touch it, velocity reflected and scaled
    ensures a.pos + half > high && a.pos - half >= low ==> r == Axis(high - half, -bounce * a.vel)
    // past the low edge only: likewise
    ensures a.pos - half < low && a.pos + half <= high ==> r == Axis(low + half, -bounce * a.vel)
    // wider than the bounds and past both: the low edge wins, the velocity is reflected twice
    ensures a.pos + half > high && a.pos - half < low ==> r == Axis(low + half, bounce * bounce * a.vel)
    // whenever the body fits between the edges it ends up between them
    ensures 2.0 * half <= high - low ==> low <= r.pos - half && r.pos + half <= high
  {
    var hitHigh := a.pos + half > high;
    var hitLow := a.pos - half < low;
    var pos := if hitLow then low + half else if hitHigh then high - half else a.pos;
    var vel := if hitHigh then a.vel * -bounce else a.vel;
    var vel := if hitLow then vel * -bounce else vel;
    Axis(pos, vel)
  }

  /**
    checkCollision on initialised bounds: the y axis against the top and
    bottom edges, the x axis against the right and left edges, each axis on
    its own.
  */
  function Resolve(screen: Bound, position: Vec2, velocity: Vec2, hx: real, hy: real,
                   bounce: real): (r: Body)
    // an axis whose coordinate is within its edges is left alone, whatever the other axis does
    ensures screen.left <= position.x - hx && position.x + hx <= screen.right ==>
              r.position.x == position.x && r.velocity.x == velocity.x
    ensures screen.bottom <= position.y - hy && position.y + hy <= screen.top ==>
              r.position.y == position.y && r.velocity.y == velocity.y
    // a velocity component is kept, reflected once, or (past both edges) reflected twice
    ensures r.velocity.x == velocity.x || r.velocity.x == -bounce * velocity.x
            || r.velocity.x == bounce * bounce * velocity.x
    ensures r.velocity.y == velocity.y || r.velocity.y == -bounce * velocity.y
            || r.velocity.y == bounce * bounce * velocity.y
  {
    var y := ResolveAxis(Axis(position.y, velocity.y), hy, screen.bottom, screen.top, bounce);
    var x := ResolveAxis(Axis(position.x, velocity.x), hx, screen.left, screen.right, bounce);
    Body(Vec2(x.pos, y.pos), Vec2(x.vel, y.vel))
  }

  /** The body lies within the bounds. */
  predicate Inside(screen: Bound, position: Vec2, hx: real, hy: real) {
    && screen.bottom <= position.y - hy && position.y + hy <= screen.top
    && screen.left <= position.x - hx && position.x + hx <= screen.right
  }

  /**
    When the body fits the view, resolution puts it inside the bounds, and an
    already resolved state is left alone by a second resolution.
  */
  lemma ResolveIsIdempotent(screen: Bound, position: Vec2, velocity: Vec2, hx: real, hy: real,
                            bounce: real)
    requires 2.0 * hy <= screen.top - screen.bottom && 2.0 * hx <= screen.right - screen.left
    ensures var once := Resolve(screen, position, velocity, hx, hy, bounce);
            Inside(screen, once.position, hx, hy)
            && Resolve(screen, once.position, once.velocity, hx, hy, bounce) == once
  {
  }

  /** A body inside the bounds is not touched. */
  lemma InsideIsUntouched(screen: Bound, position: Vec2, velocity: Vec2, hx: real, hy: real,
                          bounce: real)
    requires Inside(screen, position, hx, hy)
    ensures Resolve(screen, position, velocity, hx, hy, bounce) == Body(position, velocity)
  {
  }

  /**
    A hit on the top edge: with the view (top 5, bottom -5, left -10,
    right 10), half-extents 0.1 and bounce 0.5, a body at (0, 5.05) moving at
    (0, 3) is put back at y = 4.9 and moves at (0, -1.5).
  */
  lemma TopHitExample()
    ensures Resolve(Bound(5.0, -10.0, -5.0, 10.0), Vec2(0.0, 5.05), Vec2(0.0, 3.0), 0.1, 0.1, 0.5)
            == Body(Vec2(0.0, 4.9), Vec2(0.0, -1.5))
  {
  }

  /** A corner overlap (past the top and the right edge) is corrected on both axes in the same call. */
  lemma CornerHitExample()
    ensures Resolve(Bound(5.0, -10.0, -5.0, 10.0), Vec2(10.05, 5.05), Vec2(4.0, 3.0), 0.1, 0.1, 0.5)
            == Body(Vec2(9.9, 4.9), Vec2(-2.0, -1.5))
  {
  }
}
