/** The `Cage` object: an append-only flat array of homogeneous points, three
    numbers `x, y, 1` per cage vertex. Vertex `k` lives at indices `3*k`,
    `3*k + 1` and `3*k + 2`. `getPoints` is the record's one field. */
module Cage {
  import opened Geometry

  datatype Cage = Cage(points: seq<real>)

  /** The length is a multiple of 3 and every third component is 1. */
  ghost predicate Valid(c: Cage) {
    && |c.points| % 3 == 0
    && forall i :: 0 <= i < |c.points| && i % 3 == 2 ==> c.points[i] == 1.0
  }

  /** Number of vertices stored. */
  function Count(c: Cage): nat {
    |c.points| / 3
  }

  /** The (x, y) part of vertex `k`. */
  function Vertex(c: Cage, k: nat): Point
    requires k < Count(c)
  {
    Point(c.points[3 * k], c.points[3 * k + 1])
  }

  /** The `points` array read as a sequence of vertices, dropping the
      homogeneous component. */
  function Vertices(c: Cage): seq<Point> {
    seq(Count(c), k requires 0 <= k < Count(c) => Vertex(c, k))
  }

  /** The constructor: no points. */
  function Empty(): (c: Cage)
    ensures Valid(c) && Count(c) == 0 && Vertices(c) == []
  {
    Cage([])
  }

  /** `addPoint(x, y)`: push x, y and 1 onto `points`. */
  function AddPoint(c: Cage, x: real, y: real): (r: Cage)
    ensures |r.points| == |c.points| + 3
    ensures r.points[..|c.points|] == c.points
    ensures r.points[|c.points|] == x && r.points[|c.points| + 1] == y
    ensures r.points[|c.points| + 2] == 1.0
    ensures Valid(c) ==> Valid(r) && Count(r) == Count(c) + 1
  {
    Cage(c.points + [x, y, 1.0])
  }

  /** Appends the points of `ps`, in order, with `addPoint`. */
  function AddPoints(c: Cage, ps: seq<Point>): (r: Cage)
    ensures |r.points| == |c.points| + 3 * |ps|
    ensures r.points[..|c.points|] == c.points
    ensures Valid(c) ==> Valid(r) && Count(r) == Count(c) + |ps|
    decreases |ps|
  {
    if ps == [] then c else AddPoints(AddPoint(c, ps[0].x, ps[0].y), ps[1..])
  }

  /** In the per-vertex view, `addPoint` appends exactly one vertex. */
  lemma AddPointView(c: Cage, x: real, y: real)
    requires Valid(c)
    ensures Vertices(AddPoint(c, x, y)) == Vertices(c) + [Point(x, y)]
  {
  }

  /** Adding a sequence of points from any valid cage: the stored vertices are
      the old ones followed by exactly the inputs, in order. */
  lemma {:induction false} AddPointsView(c: Cage, ps: seq<Point>)
    requires Valid(c)
    ensures Vertices(AddPoints(c, ps)) == Vertices(c) + ps
    decreases |ps|
  {
    if ps != [] {
      AddPointView(c, ps[0].x, ps[0].y);
      AddPointsView(AddPoint(c, ps[0].x, ps[0].y), ps[1..]);
      assert [ps[0]] + ps[1..] == ps;
    }
  }

  /** Helper for `PointsRoundTrip`: in a valid cage, vertex `k` occupies `points[3k]`, `points[3k+1]` and
      the homogeneous `points[3k+2] == 1`. */
  lemma Layout(c: Cage, k: nat)
    requires Valid(c) && k < Count(c)
    ensures 3 * k + 2 < |c.points|
    ensures c.points[3 * k] == Vertices(c)[k].x && c.points[3 * k + 1] == Vertices(c)[k].y
    ensures c.points[3 * k + 2] == 1.0
  {
  }

  /** Round trip: after adding (x0, y0) ... (xn-1, yn-1) to a fresh cage,
      `points[3k]` is xk, `points[3k+1]` is yk and `points[3k+2]` is 1. */
  lemma PointsRoundTrip(ps: seq<Point>)
    ensures Vertices(AddPoints(Empty(), ps)) == ps
    ensures |AddPoints(Empty(), ps).points| == 3 * |ps|
    ensures forall k :: 0 <= k < |ps| ==>
              && AddPoints(Empty(), ps).points[3 * k] == ps[k].x
              && AddPoints(Empty(), ps).points[3 * k + 1] == ps[k].y
              && AddPoints(Empty(), ps).points[3 * k + 2] == 1.0
  {
    var r := AddPoints(Empty(), ps);
    AddPointsView(Empty(), ps);
    forall k | 0 <= k < |ps|
      ensures r.points[3 * k] == ps[k].x && r.points[3 * k + 1] == ps[k].y
      ensures r.points[3 * k + 2] == 1.0
    {
      Layout(r, k);
    }
  }
}
