# Cage-2D: the `Handles` and `Cage` point stores

Cage-2D lets a user draw a polygon ("cage") over an image and drag its
vertices to warp the image. This project models the two data structures that
hold that state, as immutable Dafny records over `seq<real>`:

- `Handles` (module `Handles`, file `handles.dfy`): a flat `handles` array of
  x, y pairs and a parallel flat `offsets` array of accumulated dx, dy pairs.
  Handle `k` occupies slots `2k` and `2k+1` of both arrays. The operations
  are the constructor (`Empty`), `addHandle` (`AddHandle`), `offsetHandle`
  (`OffsetHandle`) and `clearOffsets` (`ClearOffsets`, the loop, with `Clear`
  as its reference definition). `getHandles` and `getOffsets` return the
  arrays themselves; in the model they are the record's fields `handles` and
  `offsets`.
- `Cage` (module `Cage`, file `cage.dfy`): an append-only flat array of
  homogeneous points `x, y, 1`. The operations are the constructor (`Empty`)
  and `addPoint` (`AddPoint`). `getPoints` is the record's field `points`.

Each flat array also has a per-element view: `Handles.Positions`,
`Handles.Offsets` and `Cage.Vertices` read it back as a sequence of
`Geometry.Point`. The lemmas tie the operations to that view. Appending
points and reading them back is a round trip. `offsetHandle` shifts exactly
one element of the view. `clearOffsets` turns the offset view into zeros. The
invariants are these: both `Handles` arrays have equal, even length, and the
`Cage` array has a length divisible by 3 with every third entry equal to 1.
Every operation preserves them.

`AddHandles` and `AddPoints` apply `addHandle`/`addPoint` to a sequence of
points in order. They model any sequence of `addHandle`/`addPoint` calls.

## Model

| member | source | states |
|---|---|---|
| Handles.Empty | src/cage/Handles.ts:9-13 | a fresh object is valid and has no handles and no offsets |
| Handles.AddHandle | src/cage/Handles.ts:15-21 | both arrays grow by two; earlier entries are unchanged; `handles` gains exactly x, y and `offsets` gains exactly 0, 0; validity is preserved and the handle count grows by one |
| Handles.AddHandleView | src/cage/Handles.ts:15-21 | per handle, `addHandle` appends the position (x, y) and a zero offset, and every earlier handle keeps its position and offset |
| Handles.AddHandles | src/cage/Handles.ts:15-21 | any number of `addHandle` calls preserve validity and add one handle per call |
| Handles.AddHandlesView | src/cage/Handles.ts:15-21 | after adding a sequence of points, the positions are the old ones followed by exactly those points in order, and each new handle has a zero offset |
| Handles.PositionsRoundTrip | src/cage/Handles.ts:9-24 | reading the handles back after adding a sequence of points to a fresh object yields exactly that sequence, with all offsets zero |
| Handles.OffsetHandle | src/cage/Handles.ts:26-30 | for an in-range handle, slots 2·hid and 2·hid+1 of `offsets` gain dx and dy; every other slot, the `handles` array, both lengths and validity are unchanged |
| Handles.OffsetHandleView | src/cage/Handles.ts:26-30 | per handle, only handle hid's offset is shifted by (dx, dy); all positions and all other offsets stay the same |
| Handles.OffsetsAccumulate | src/cage/Handles.ts:26-30 | two displacements of one handle equal a single displacement by their sum (the offset accumulates, it is not overwritten) |
| Handles.OffsetsCommute | src/cage/Handles.ts:26-30 | displacements of any two handles give the same state in either order |
| Handles.ClearOffsets | src/cage/Handles.ts:32-36 | after the loop every offset is 0, the number of offsets is the same, `handles` is untouched, validity is kept, and the result equals the reference `Clear` |
| Handles.ClearView | src/cage/Handles.ts:32-36 | clearing keeps validity, the handle count and every position, and makes every handle's offset zero |
| Handles.ClearIdempotent | src/cage/Handles.ts:32-36 | clearing twice is the same as clearing once |
| Handles.OffsetAfterClear | src/cage/Handles.ts:26-36 | after clearing, one `offsetHandle(hid, dx, dy)` leaves handle hid at offset exactly (dx, dy) and every other handle at zero |
| Cage.Empty | src/cage/Cage.ts:4-6 | a fresh cage is valid and holds no points |
| Cage.AddPoint | src/cage/Cage.ts:8-12 | `points` grows by exactly 3; the earlier entries are unchanged; the new entries are x, y, 1; validity is preserved and the vertex count grows by one |
| Cage.AddPoints | src/cage/Cage.ts:8-12 | any number of `addPoint` calls keep the earlier entries, grow the array by 3 per point, preserve validity and add one vertex per call |
| Cage.AddPointView | src/cage/Cage.ts:8-12 | per vertex, `addPoint` appends exactly the vertex (x, y) and keeps every earlier vertex |
| Cage.AddPointsView | src/cage/Cage.ts:8-12 | after adding a sequence of points, the vertices are the old ones followed by exactly those points in order |
| Cage.PointsRoundTrip | src/cage/Cage.ts:4-14 | after adding (x0, y0) … (xn-1, yn-1) to a fresh cage, the array has length 3n, `points[3k]` is xk, `points[3k+1]` is yk and `points[3k+2]` is 1, and reading it back yields the input sequence |

## Left out

- Handles.OffsetHandle: requires `hid` to name an existing handle. The source does not check this. In JavaScript an out-of-range `hid` makes the array longer and fills the new slots with `NaN` or holes. A half-integer `hid` (such as 0.5) becomes an odd index after `hid *= 2`, so one displacement is spread over two neighbouring handles: the dy of one and the dx of the next. The length is unchanged unless `hid` is Count − 0.5 (for example 0.5 with one handle); then `offsets[2·Count]` becomes `NaN`, and `offsets` grows by one to an odd length that no longer matches `handles`. Other fractional or negative values write non-index properties (`hid = -0.5` writes `offsets[-1]` and also the real slot `offsets[0]`). None of that is modelled.
- Floating point: JavaScript numbers are modelled as exact reals, so `+=` is exact addition. Rounding, `NaN` and infinities are not modelled. In particular, Handles.OffsetsAccumulate and Handles.OffsetsCommute (including its same-handle case) hold only for exact addition; with doubles, `(o + a) + c` can differ from `o + (a + c)` and from `(o + c) + a`.
- The `animation` back-pointer of `Handles` (src/cage/Handles.ts:4,12) is stored and never read. It is left out.
- Aliasing: `getHandles`, `getOffsets` and `getPoints` return the live arrays, which a caller could then change. The `points` field of `Cage` is also public, so any holder of a `Cage` can reassign or edit it directly. The model uses immutable values, so these getters are the record fields, and the append-only property and the `Cage` invariant hold only for callers that change the array through `addPoint`.
- WebGL shader, buffer, uniform and texture handling (src/cage/Shader.ts, src/cage/Shaders.ts), canvas and render-loop setup (src/cage/App.ts), DOM event wiring (src/cage/Gui.ts) and the build script (make-cage.py) are rendering, I/O or tooling, with no pure behaviour to state.
- Mean-value-coordinate weights and the open/closed cage lifecycle: src/cage/Handles.ts and src/cage/Cage.ts contain neither, so both are outside this model.
