/** A point or displacement in screen space. The source stores these as two
    consecutive entries of a flat number array; the model uses this record for
    the per-element view of those arrays. JavaScript numbers are modelled as
    exact reals. */
module Geometry {

  datatype Point = Point(x: real, y: real) {

    /** The point moved by (dx, dy). */
    function Shift(dx: real, dy: real): Point {
      Point(x + dx, y + dy)
    }
  }

  const Origin: Point := Point(0.0, 0.0)

  /** `n` copies of the zero displacement. */
  function ZeroPoints(n: nat): (z: seq<Point>)
    ensures |z| == n
    ensures forall k :: 0 <= k < n ==> z[k] == Origin
  {
    seq(n, _ => Origin)
  }
}
