/** The `Handles` object: a flat `handles` array holding x, y for every handle
    and a parallel flat `offsets` array holding that handle's accumulated
    dx, dy. Handle `k` lives at indices `2*k` and `2*k + 1` of both arrays.
    `getHandles` and `getOffsets` are the two fields of the record. */
module Handles {
  import opened Geometry

  datatype Handles = Handles(handles: seq<real>, offsets: seq<real>)

  /** The two arrays have equal, even length. */
  ghost predicate Valid(h: Handles) {
    |h.handles| == |h.offsets| && |h.handles| % 2 == 0
  }

  /** Number of handles stored. */
  function Count(h: Handles): nat {
    |h.handles| / 2
  }

  /** Position of handle `k`, read from `handles`. */
  function Position(h: Handles, k: nat): Point
    requires k < Count(h)
  {
    Point(h.handles[2 * k], h.handles[2 * k + 1])
  }

  /** Offset of handle `k`, read from `offsets`. */
  function Offset(h: Handles, k: nat): Point
    requires Valid(h) && k < Count(h)
  {
    Point(h.offsets[2 * k], h.offsets[2 * k + 1])
  }

  /** The `handles` array read as a sequence of points. */
  function Positions(h: Handles): seq<Point> {
    seq(Count(h), k requires 0 <= k < Count(h) => Position(h, k))
  }

  /** The `offsets` array read as a sequence of displacements. */
  function Offsets(h: Handles): seq<Point>
    requires Valid(h)
  {
    seq(Count(h), k requires 0 <= k < Count(h) => Offset(h, k))
  }

  /** The constructor: no handles, no offsets. */
  function Empty(): (h: Handles)
    ensures Valid(h) && Count(h) == 0
    ensures Positions(h) == [] && Offsets(h) == []
  {
    Handles([], [])
  }

  /** `addHandle(x, y)`: push x, y onto `handles` and 0, 0 onto `offsets`. */
  function AddHandle(h: Handles, x: real, y: real): (r: Handles)
    ensures |r.handles| == |h.handles| + 2 && |r.offsets| == |h.offsets| + 2
    ensures r.handles[..|h.handles|] == h.handles
    ensures r.offsets[..|h.offsets|] == h.offsets
    ensures r.handles[|h.handles|] == x && r.handles[|h.handles| + 1] == y
    ensures r.offsets[|h.offsets|] == 0.0 && r.offsets[|h.offsets| + 1] == 0.0
    ensures Valid(h) ==> Valid(r) && Count(r) == Count(h) + 1
  {
    Handles(h.handles + [x, y], h.offsets + [0.0, 0.0])
  }

  /** `offsetHandle(hid, dx, dy)`: add (dx, dy) to the offset of handle `hid`. */
  function OffsetHandle(h: Handles, hid: nat, dx: real, dy: real): (r: Handles)
    requires Valid(h) && hid < Count(h)
    ensures Valid(r) && r.handles == h.handles && |r.offsets| == |h.offsets|
    ensures r.offsets[2 * hid] == h.offsets[2 * hid] + dx
    ensures r.offsets[2 * hid + 1] == h.offsets[2 * hid + 1] + dy
    ensures forall i :: 0 <= i < |h.offsets| && i != 2 * hid && i != 2 * hid + 1 ==>
              r.offsets[i] == h.offsets[i]
  {
    var i := 2 * hid;
    h.(offsets := h.offsets[i := h.offsets[i] + dx][i + 1 := h.offsets[i + 1] + dy])
  }

  /** `n` zeros. */
  function Zeros(n: nat): (z: seq<real>)
    ensures |z| == n
    ensures forall i :: 0 <= i < n ==> z[i] == 0.0
  {
    seq(n, _ => 0.0)
  }

  /** Reference definition of `clearOffsets`: every offset becomes 0. */
  function Clear(h: Handles): Handles {
    h.(offsets := Zeros(|h.offsets|))
  }

  /** `clearOffsets()`: the loop that writes 0 into every offset slot. */
  method ClearOffsets(h: Handles) returns (r: Handles)
    ensures r.handles == h.handles
    ensures |r.offsets| == |h.offsets|
    ensures forall i :: 0 <= i < |r.offsets| ==> r.offsets[i] == 0.0
    ensures Valid(h) ==> Valid(r)
    ensures r == Clear(h)
  {
    var offsets := h.offsets;
    for i := 0 to |offsets|
      invariant |offsets| == |h.offsets|
      invariant forall j :: 0 <= j < i ==> offsets[j] == 0.0
    {
      offsets := offsets[i := 0.0];
    }
    r := h.(offsets := offsets);
  }

  /** Appends the points of `ps`, in order, with `addHandle`. */
  function AddHandles(h: Handles, ps: seq<Point>): (r: Handles)
    ensures Valid(h) ==> Valid(r) && Count(r) == Count(h) + |ps|
    decreases |ps|
  {
    if ps == [] then h else AddHandles(AddHandle(h, ps[0].x, ps[0].y), ps[1..])
  }

  /** In the per-handle view, `addHandle` appends one position and one zero
      offset and leaves every earlier handle alone. */
  lemma AddHandleView(h: Handles, x: real, y: real)
    requires Valid(h)
    ensures Positions(AddHandle(h, x, y)) == Positions(h) + [Point(x, y)]
    ensures Offsets(AddHandle(h, x, y)) == Offsets(h) + [Origin]
  {
  }

  /** Adding a sequence of points from any valid state: the stored positions
      are the old ones followed by exactly the inputs, in order, and every new
      handle starts with a zero offset. */
  lemma {:induction false} AddHandlesView(h: Handles, ps: seq<Point>)
    requires Valid(h)
    ensures Positions(AddHandles(h, ps)) == Positions(h) + ps
    ensures Offsets(AddHandles(h, ps)) == Offsets(h) + ZeroPoints(|ps|)
    decreases |ps|
  {
    if ps != [] {
      var h' := AddHandle(h, ps[0].x, ps[0].y);
      AddHandleView(h, ps[0].x, ps[0].y);
      AddHandlesView(h', ps[1..]);
      assert [ps[0]] + ps[1..] == ps;
      assert ZeroPoints(|ps|) == [Origin] + ZeroPoints(|ps| - 1);
    }
  }

  /** Round trip: the positions read back after adding `ps` to a fresh object
      are exactly `ps`, and all their offsets are zero. */
  lemma PositionsRoundTrip(ps: seq<Point>)
    ensures Positions(AddHandles(Empty(), ps)) == ps
    ensures Offsets(AddHandles(Empty(), ps)) == ZeroPoints(|ps|)
  {
    AddHandlesView(Empty(), ps);
  }

  /** In the per-handle view, `offsetHandle` shifts exactly the offset of
      handle `hid` by (dx, dy); positions and all other offsets are kept. */
  lemma OffsetHandleView(h: Handles, hid: nat, dx: real, dy: real)
    requires Valid(h) && hid < Count(h)
    ensures Positions(OffsetHandle(h, hid, dx, dy)) == Positions(h)
    ensures Offsets(OffsetHandle(h, hid, dx, dy)) == Offsets(h)[hid := Offset(h, hid).Shift(dx, dy)]
  {
  }

  /** Offsets accumulate: two displacements of one handle equal a single
      displacement by their sum. */
  lemma OffsetsAccumulate(h: Handles, hid: nat, a: real, b: real, c: real, d: real)
    requires Valid(h) && hid < Count(h)
    ensures OffsetHandle(OffsetHandle(h, hid, a, b), hid, c, d) == OffsetHandle(h, hid, a + c, b + d)
  {
  }

  /** Displacements of two handles (the same or different) commute. */
  lemma OffsetsCommute(h: Handles, i: nat, a: real, b: real, j: nat, c: real, d: real)
    requires Valid(h) && i < Count(h) && j < Count(h)
    ensures OffsetHandle(OffsetHandle(h, i, a, b), j, c, d) == OffsetHandle(OffsetHandle(h, j, c, d), i, a, b)
  {
  }

  /** `clearOffsets` zeroes every offset, keeps every position and the
      number of handles. */
  lemma ClearView(h: Handles)
    requires Valid(h)
    ensures Valid(Clear(h)) && Count(Clear(h)) == Count(h)
    ensures Positions(Clear(h)) == Positions(h)
    ensures Offsets(Clear(h)) == ZeroPoints(Count(h))
  {
  }

  /** Clearing twice is the same as clearing once. */
  lemma ClearIdempotent(h: Handles)
    ensures Clear(Clear(h)) == Clear(h)
  {
  }

  /** After `clearOffsets`, one `offsetHandle(hid, dx, dy)` leaves handle
      `hid` with offset exactly (dx, dy) and every other handle at zero. */
  lemma OffsetAfterClear(h: Handles, hid: nat, dx: real, dy: real)
    requires Valid(h) && hid < Count(h)
    ensures Offsets(OffsetHandle(Clear(h), hid, dx, dy)) == ZeroPoints(Count(h))[hid := Point(dx, dy)]
  {
  }
}
