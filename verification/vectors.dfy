/** Two-component real vectors: the model's stand-in for the engine's single-precision Vector2. */
module Vectors {

  datatype Vec2 = Vec2(x: real, y: real)

  /** Math.Sign on a float: -1, 0 or +1. */
  function Sign(x: real): (s: int)
    ensures s == -1 || s == 0 || s == 1
    ensures s == 0 <==> x == 0.0
    ensures s == 1 <==> x > 0.0
  {
    if x > 0.0 then 1 else if x < 0.0 then -1 else 0
  }

  /** Math.Abs on a float. */
  function Abs(x: real): (a: real)
    ensures a >= 0.0
    ensures a == x || a == -x
  {
    if x < 0.0 then -x else x
  }

  function Max(a: real, b: real): (m: real)
    ensures m >= a && m >= b
    ensures m == a || m == b
  {
    if a >= b then a else b
  }

  function Min(a: real, b: real): (m: real)
    ensures m <= a && m <= b
    ensures m == a || m == b
  {
    if a <= b then a else b
  }
}
