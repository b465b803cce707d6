/**
  The direction sampler: the four movement keys W, S, D and A become a
  direction vector. Each axis is the net key press in {-1, 0, +1}; when both
  axes are non-zero both are scaled by the diagonal constant so that diagonal
  movement is as fast as axial movement.
*/
module Direction {
  import opened Vectors

  /** The state of the keys W (up), S (down), D (right) and A (left) in one frame. */
  datatype Keys = Keys(w: bool, s: bool, d: bool, a: bool)

  /** The net press along one axis: +1 for the positive key, -1 for the negative one, 0 for both or neither. */
  function Net(positive: bool, negative: bool): (n: real)
    ensures n == -1.0 || n == 0.0 || n == 1.0
    ensures n == 0.0 <==> positive == negative
    ensures n == 1.0 <==> positive && !negative
  {
    (if positive then 1.0 else 0.0) - (if negative then 1.0 else 0.0)
  }

  /** Both axes carry a net press, so the diagonal scaling applies. */
  predicate Diagonal(keys: Keys) {
    keys.w != keys.s && keys.d != keys.a
  }

  /**
    getDirection, with the diagonal constant `diag` (the cosine of 45 degrees
    in the source) passed in.
  */
  function GetDirection(keys: Keys, diag: real): (r: Vec2)
    // opposite keys cancel, and an axis without a net press stays 0
    ensures keys.w == keys.s ==> r.y == 0.0
    ensures keys.d == keys.a ==> r.x == 0.0
    // a single axis is exactly +1 or -1, in the direction of the key pressed
    ensures !Diagonal(keys) && keys.w != keys.s ==> r.y == (if keys.w then 1.0 else -1.0)
    ensures !Diagonal(keys) && keys.d != keys.a ==> r.x == (if keys.d then 1.0 else -1.0)
    // both axes: each is exactly +diag or -diag, keeping the sign of the net press
    ensures Diagonal(keys) ==> r.y == (if keys.w then diag else -diag)
    ensures Diagonal(keys) ==> r.x == (if keys.d then diag else -diag)
  {
    var y := Net(keys.w, keys.s);
    var x := Net(keys.d, keys.a);
    if x != 0.0 && y != 0.0 then Vec2(x * diag, y * diag) else Vec2(x, y)
  }

  /**
    When the diagonal constant is the cosine of 45 degrees (2 c^2 = 1) every
    direction has length 0 or 1: diagonal movement is no faster than axial.
  */
  lemma DirectionIsUnitOrZero(keys: Keys, diag: real)
    requires 2.0 * diag * diag == 1.0
    ensures var r := GetDirection(keys, diag);
            r.x * r.x + r.y * r.y == if keys.w == keys.s && keys.d == keys.a then 0.0 else 1.0
  {
    var r := GetDirection(keys, diag);
    if Diagonal(keys) {
      assert r.x * r.x == diag * diag && r.y * r.y == diag * diag;
    }
  }

  /** Pressing both keys of an axis is the same as pressing neither, whatever else is pressed. */
  lemma OppositeKeysCancel(keys: Keys, diag: real)
    ensures GetDirection(keys.(w := true, s := true), diag) == GetDirection(keys.(w := false, s := false), diag)
    ensures GetDirection(keys.(d := true, a := true), diag) == GetDirection(keys.(d := false, a := false), diag)
  {
  }
}
