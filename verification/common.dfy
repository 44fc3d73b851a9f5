/** Shared vocabulary of the tracker models: optional values, plane points
    and the integer conversions the tracker applies to real coordinates. */
module Common {

  /** A value that may be absent (Python's `None`). */
  datatype Option<+T> = None | Some(value: T)

  /** A point in the plane: screen coordinates, camera pixels or a gaze prediction. */
  datatype Point = Point(x: real, y: real)

  const Origin: Point := Point(0.0, 0.0)

  /** Absolute value of an integer difference (Python's `abs` on ints). */
  function Abs(x: int): (r: nat)
    ensures r == x || r == -x
  {
    if x < 0 then -x else x
  }

  /** Python's `int(x)` on a float: truncation toward zero. */
  function Trunc(x: real): (r: int)
    ensures 0.0 <= x ==> 0 <= r && r as real <= x < r as real + 1.0
    ensures x < 0.0 ==> r <= 0 && r as real - 1.0 < x <= r as real
  {
    if x >= 0.0 then x.Floor else -((-x).Floor)
  }

  /** `b` raised to the natural power `n`. */
  function Pow(b: real, n: nat): (r: real)
    ensures 0.0 <= b ==> 0.0 <= r
  {
    if n == 0 then 1.0 else b * Pow(b, n - 1)
  }
}
