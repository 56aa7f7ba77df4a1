# Torus mesh and HSV colour model

This project models two functions of `src/lib/utils.ts`:

- `torus(row, column, irad, orad)` builds the four flat buffers of a parametric torus:
  - positions and normals, three numbers per vertex;
  - colours, four numbers per vertex;
  - triangle indices, six per grid cell.
- `hsva(h, s, v, a)` converts a hue, saturation, value and alpha into an RGBA colour, or `null`. `torus` calls it once per vertex.

The project has three modules:

- `Wrappers` (`wrappers.dfy`): the `Option` type.
- `Color` (`color.dfy`): `hsva`, defined over exact reals.
  - `HsvaAsWritten` follows the code literally. It uses JavaScript's sign-keeping `%` and an explicit `Undefined` entry for a table read outside the array.
  - `Hsva` reduces the hue with a floored remainder. It therefore gives a colour for every real hue.
  - The two functions are proved equal on every non-negative hue.
  - `Hsva` is also proved equal to an independent closed-form HSV formula (`ChannelColor`). That formula reads no table and needs no sector.
- `Mesh` (`mesh.dfy`): `torus`, as the method `Torus`.
  - The method pushes onto sequences in the same nested loops as the source.
  - It is proved to produce exactly the specification buffers `MeshData` and `IndexMesh`.
  - Lemmas about those specifications give:
    - the buffer lengths;
    - the bounds of every index;
    - the layout of each cell and each vertex in the flat buffers;
    - the seam: the last ring and the last tube point are sampled again, at the full-turn angle, rather than sharing the first ones' vertices.

`Math.cos` and `Math.sin` are the fields `cos` and `sin` of the `Shape` argument. A lemma assumes something about them only when it says so in its `requires` clause. `Math.PI` is the decimal `3.141592653589793`, the shortest decimal that reads back as `Math.PI`. Its value is exact here, not the double's.

Vertex colours are stated through a ghost `palette`. `palette[ii]` is the colour of tube point `ii`, the same on every ring. The predicate `Paints` ties each entry to `VertexColor`, the closed-form colour of hue `(360 / column) * ii`. `TorusHueAccepted` proves that this is exactly what `hsva` returns at that hue.

## Model

| member | source | states |
|---|---|---|
| Color.HsvaAsWritten | src/lib/utils.ts:195-220 | `null` exactly when `s > 1`, `v > 1` or `a > 1`, with no lower-bound check. Otherwise four entries whose last is `a`. Zero saturation gives `[v, v, v, a]` for every hue, negative ones included. Every entry is a number when the hue is non-negative. |
| Color.Hsva | src/lib/utils.ts:195-220 | `None` exactly when `s > 1`, `v > 1` or `a > 1`. Otherwise four numbers ending in `a`, and `[v, v, v, a]` when the saturation is zero. |
| Color.SectorColor | src/lib/utils.ts:206-218 | Always four entries ending in `a`. Grey `[v, v, v, a]` at zero saturation, all numbers for a reduced hue in [0, 360), and three `undefined` reads for a negative hue with non-zero saturation. |
| Color.JsRem | src/lib/utils.ts:204 | JavaScript's `h % 360`: `h` minus 360 times the quotient rounded toward zero. This equals the floored remainder for `h >= 0` and lies in (-360, 0] for `h < 0`. |
| Color.FloorRem | src/lib/utils.ts:204 | The remainder lies in [0, d) and differs from `x` by a whole multiple of `d`. |
| Color.HueSector | src/lib/utils.ts:205 | `Math.floor(th / 60)` lies in 0..5 for a hue in [0, 360), is negative for a negative hue, and brackets the hue within its 60-degree sector. |
| Color.HueFraction | src/lib/utils.ts:206 | `f = th / 60 - i` lies in [0, 1) and `th = 60 * (i + f)`. |
| Color.ToneRange | src/lib/utils.ts:207-209 | For `s` and `t` in [0, 1] and `v >= 0`: `0 <= m = v(1 - s) <= v(1 - s t) <= v`. So `n` and `k` lie between `m` and `v`. |
| Color.HsvaAgreesOnNonNegativeHue | src/lib/utils.ts:204-218 | For every `h >= 0`, the code as written and `Hsva` return the same colour. |
| Color.NegativeHueReadsOutsideTables | src/lib/utils.ts:204-205 | For hue -30 the code as written returns `[undefined, undefined, undefined, 1]`. The reduced model returns `[1, 0, 0.5, 1]`. |
| Color.NegativeHueUndefined | src/lib/utils.ts:204-205 | For every negative hue that is not a multiple of 360 and every non-zero saturation, the code as written reads `r[i]`, `g[i]` and `b[i]` as `undefined`. |
| Color.NegativeWholeTurns | src/lib/utils.ts:204-205 | A hue of `-360 q` gives the same result as hue 0 in the code as written, since `%` returns zero there. |
| Color.FloorRemShift | src/lib/utils.ts:204 | Adding whole multiples of `d` does not change the floored remainder. |
| Color.HsvaPeriodic | src/lib/utils.ts:204 | `Hsva(h + 360, s, v, a) == Hsva(h, s, v, a)` for every real `h`. |
| Color.HueColorUnreduced | src/lib/utils.ts:204 | On [0, 360] the closed form needs no reduction, so hues 360 and 0 give the same colour. |
| Color.ChannelPosition | src/lib/utils.ts:205-206 | The closed-form channel position is `((offset + i) mod 6) + f`, in terms of the sector `i` and fraction `f`. |
| Color.ChannelAtSector | src/lib/utils.ts:207-209 | Across sectors 0..5 the closed-form channel takes the values `n, m, m, k, v, v`. |
| Color.TablesMatchChannels | src/lib/utils.ts:214-216 | Each entry of the tables `[v,n,m,m,k,v]`, `[k,v,v,n,m,m]` and `[m,m,k,v,v,n]` is the closed-form channel with offsets 5, 3 and 1. |
| Color.SectorColorReadsTables | src/lib/utils.ts:213-217 | A chromatic colour of a reduced hue is `r[i], g[i], b[i], a` read from the three tables at its sector. |
| Color.ChannelInSector | src/lib/utils.ts:205-206 | A closed-form channel, expressed through the hue's sector and fraction. |
| Color.GreyChannels | src/lib/utils.ts:211-212 | At zero saturation every closed-form channel equals `v`. |
| Color.SectorColorMatchesChannels | src/lib/utils.ts:213-217 | The chromatic table colour equals the closed-form channels. |
| Color.HsvaMatchesChannelFormula | src/lib/utils.ts:195-220 | Whenever the range check passes, `Hsva` equals the closed-form HSV colour for every real hue. |
| Color.HsvaValueAndSaturation | src/lib/utils.ts:201-218 | For `s` and `v` in [0, 1], the largest channel is `v` and the smallest is `v(1 - s)`, so every channel lies in [0, 1]. |
| Color.PrimaryHues | src/lib/utils.ts:204-217 | Hues 0, 120 and 240 give pure red, green and blue. |
| Mesh.Hue | src/lib/utils.ts:173 | The hue `(360 / column) * ii` is non-negative, and at most 360 for `ii <= column`. |
| Mesh.VertexColor | src/lib/utils.ts:173-174 | A vertex colour has four numbers. |
| Mesh.TorusHueAccepted | src/lib/utils.ts:173-174 | For `0 <= ii <= column`, the call `hsva((360 / column) * ii, 1, 1, 1)` passes the range check, so the cast hides no `null`. It returns four numbers equal to `VertexColor(column, ii)`. |
| Mesh.PaletteOfTorus | src/lib/utils.ts:173-174 | A palette exists that gives each tube point the colour `torus` pushes for it. |
| Mesh.PaintsFourChannels | src/lib/utils.ts:174 | Every colour of such a palette has four numbers. |
| Mesh.Torus | src/lib/utils.ts:150-185 | The four returned buffers are exactly `MeshData` for positions, normals and colours, and `IndexMesh` for indices. Positions and normals have `3(row+1)(column+1)` numbers, colours `4(row+1)(column+1)` and indices `6 row column`. Every index lies in `[0, (row+1)(column+1))`. |
| Mesh.TorusVertices | src/lib/utils.ts:160-176 | The vertex loops leave the three buffers equal to the specification for all `row + 1` rings. |
| Mesh.TorusRing | src/lib/utils.ts:160-176 | One pass of the outer vertex loop extends each buffer from `i` rings to `i + 1` rings. |
| Mesh.PushRing | src/lib/utils.ts:164-175 | The inner vertex loop appends exactly one ring's data, `column + 1` vertices, to each buffer. |
| Mesh.PushVertex | src/lib/utils.ts:165-174 | One vertex appends its position, its normal and its colour. |
| Mesh.VertexAt | src/lib/utils.ts:165-170 | A vertex's position and normal in terms of the loop's `rr`, `ry` and `tr`. |
| Mesh.TorusIndices | src/lib/utils.ts:177-183 | The index loops produce exactly `IndexMesh(column, row)`, the cells in row-major order. |
| Mesh.CellStep | src/lib/utils.ts:178-181 | The two pushes of one iteration append that cell's six indices. |
| Mesh.RingStep | src/lib/utils.ts:171-174 | Pushing a vertex onto a partial ring gives the ring with one more vertex. |
| Mesh.MeshStep | src/lib/utils.ts:160-176 | One more ring appends that ring's data. |
| Mesh.VertexWidth | src/lib/utils.ts:171-174 | A vertex contributes 3 position numbers, 3 normal numbers and 4 colour numbers. |
| Mesh.RingDataLength | src/lib/utils.ts:164-175 | A ring of `n` vertices has `Width * n` numbers in each buffer. |
| Mesh.MeshDataLength | src/lib/utils.ts:160-176 | `n` rings have `Width * n * (column + 1)` numbers in each buffer. |
| Mesh.BufferLength | src/lib/utils.ts:160-176 | The full buffers have `3(row+1)(column+1)` position and normal numbers and `4(row+1)(column+1)` colour numbers. |
| Mesh.IndexMeshLength | src/lib/utils.ts:177-183 | `n` rows of cells produce `6 n column` indices. |
| Mesh.IndexRingBounds | src/lib/utils.ts:179-181 | Each index of cells `0..n-1` in row `i` lies in `[(column+1) i, (column+1)(i+2))`. |
| Mesh.IndicesInRange | src/lib/utils.ts:177-183 | Every emitted index lies in `[0, (row+1)(column+1))`. |
| Mesh.LargestIndex | src/lib/utils.ts:179-181 | The bound is attained: some index equals `(row+1)(column+1) - 1`, namely in cell `(row-1, column-1)`. |
| Mesh.IndexMeshPrefix | src/lib/utils.ts:177-183 | Fewer rows of cells give a prefix of the index buffer. |
| Mesh.IndexRingPrefix | src/lib/utils.ts:178-182 | Fewer cells of a row give a prefix of that row's indices. |
| Mesh.CellOffset | src/lib/utils.ts:177-181 | Cell `(i, ii)` starts at offset `6(i column + ii)`. |
| Mesh.CellPrefix | src/lib/utils.ts:177-181 | The indices before cell `(i, ii)`, followed by the cell, are a prefix of the first `i + 1` rows. |
| Mesh.CellLayout | src/lib/utils.ts:177-181 | For `i < row` and `ii < column`, with `r = (column+1) i + ii`, the six indices at offset `6(i column + ii)` are `r, r+column+1, r+1, r+column+1, r+column+2, r+1`. |
| Mesh.MeshDataPrefix | src/lib/utils.ts:160-176 | Fewer rings give a prefix of each vertex buffer. |
| Mesh.RingDataPrefix | src/lib/utils.ts:164-175 | The first `m` vertices of a ring, followed by vertex `m`, are a prefix of any longer part of the ring. |
| Mesh.VertexOffset | src/lib/utils.ts:160-176 | Vertex `(i, ii)` starts at offset `Width * ((column+1) i + ii)`. |
| Mesh.VertexPrefix | src/lib/utils.ts:160-176 | The data before vertex `(i, ii)`, followed by the vertex, is a prefix of the first `i + 1` rings. |
| Mesh.VertexLayout | src/lib/utils.ts:160-176 | Vertex `(i, ii)` occupies the `Width` numbers at offset `Width * ((column+1) i + ii)` of each buffer. |
| Mesh.VertexColorLayout | src/lib/utils.ts:173-174 | The four colour numbers of vertex `(i, ii)` are the entries of `hsva((360 / column) * ii, 1, 1, 1)` as written: all numbers, in order. |
| Mesh.SeamColor | src/lib/utils.ts:164-174 | The last tube point has the colour of the first, since hue 360 wraps to hue 0. |
| Mesh.SeamAngles | src/lib/utils.ts:160-164 | Ring `row` is sampled at ring angle `2 PI` and ring 0 at 0. Point `column` is sampled at tube angle `2 PI` and point 0 at 0. |
| Mesh.FirstVertex | src/lib/utils.ts:160-171 | With `cos 0 = 1` and `sin 0 = 0`, the first position is `(irad + orad, 0, 0)` and the first normal is `(1, 0, 0)`. |

## Left out

- The WebGL helpers `createShader`, `createProgram`, `createVbo`, `createIbo` and `setAttribute` (src/lib/utils.ts:8-140) are not modelled. They have no logic beyond WebGL calls.
- `createIbo` stores indices in an `Int16Array` (src/lib/utils.ts:110). So the `Int16Array` holds the `torus` indices unchanged only while `(row+1)(column+1) <= 32768`. `drawElements` reads that buffer as `UNSIGNED_SHORT` (src/works/w023/canvas.ts:166-170), so larger indices wrap back to their own values. The drawn mesh is therefore right while `(row+1)(column+1) <= 65536`; index 65536 would become 0. `Mesh.Torus` does not model either limit. Its indices are unbounded integers.
- IEEE floating point is not modelled: every quantity is an exact real.
- `Mesh.Torus` requires `row > 0` and `column > 0`, which the only caller meets with `torus(32, 32, 1.0, 2.0)` (src/works/w023/canvas.ts:69). The source performs no argument check, so the model has no error result for the other cases:
  - with `row = 0`, the ring angle is `(2 PI / 0) * 0`, which is `NaN`, so the one ring's positions and normals are `NaN`;
  - with `column = 0`, the tube angle `tr` and the hue are `NaN`. So the x and z components of positions and normals are `NaN`, while `ty` and `ry` stay finite. `hsva(NaN, 1, 1, 1)` reads `r[NaN]`, so each colour is `[undefined, undefined, undefined, 1]`;
  - with a negative `row` or `column`, no vertex and no cell is pushed (the outer loops or the inner ones never run), so `torus` returns four empty arrays;
  - with a non-integer `row` or `column`, the model's integer `Shape.row` and `Shape.column` do not apply. For `row = 2.5`, the vertex loop builds 3 rings (`i = 0..2`) and the index loop also emits 3 rows of cells. Row 2's cells then refer to a fourth ring that was never built, so indices go past the vertex count.
- `Math.cos` and `Math.sin` are not modelled. They are the uninterpreted parameters `cos` and `sin`. Statements about vertex values therefore hold for any such pair. The only trigonometric facts assumed are `cos 0 = 1` and `sin 0 = 0`, as the hypotheses of `FirstVertex`. `Math.cos` and `Math.sin` meet both exactly.
- `Mesh.Torus` splits the two vertex loops into the methods `TorusVertices`, `TorusRing`, `PushRing` and `PushVertex`. The buffers are values of type `seq` that each call returns extended, not arrays mutated in place; the source's arrays are local to `torus` and never aliased.
- `Mesh.Torus`: the vertex colours are stated through a ghost palette, one colour per tube point, rather than by unfolding `hsva` inside the buffer specification. `TorusHueAccepted` and `VertexColorLayout` tie the palette back to the code's `hsva` call.
- The reused variable `r` of the index loop (src/lib/utils.ts:179) is a local of each iteration in `TorusIndices`. Its earlier use as the ring angle is `RingAngle`.
- `src/works/w023/canvas.ts` is not part of this model. Its frame loop, its matrices (through `minMatrix`, which is not part of this model either) and its uploads are rendering glue.
- `app/src/canvas.ts`, `src/scroll/scroll.ts`, `src/index.ts`, `src/works/index.ts` and the webpack configurations are not modelled: they are DOM, animation or build code.
- Mesh.SeamAngles: the last ring and the last tube point are sampled at `2 PI` rather than 0. `Math.sin(2 * Math.PI)` is about `-2.4e-16`, not 0, so the seam vertices coincide with the first ones only approximately. The model does not state that approximation. The seam colour repeats exactly over reals (`Mesh.SeamColor`). In floating point it repeats only when `(360 / column) * column` is exactly 360, as for the only caller's `column = 32`. For `column = 39`, the last hue is `359.99999999999994`, which gives about `[1, 0, 8.9e-16, 1]` instead of `[1, 0, 0, 1]`.
- `hsva`: the code reduces the hue with JavaScript's `%`, so a negative hue that is not a multiple of 360 is not taken modulo 360 into [0, 360). `HsvaAsWritten` keeps the code's behaviour. `Hsva` is the reduction for every hue, and periodicity is proved about `Hsva` only.

## Findings

| source | as written | input that shows it | evidently intended | confidence | as-written member | corrected member |
|---|---|---|---|---|---|---|
| src/lib/utils.ts:204-205,217 | `th = h % 360` keeps the sign of `h`, so a negative hue that is not a multiple of 360 gives a negative sector `i`. Then `r[i]`, `g[i]` and `b[i]` are `undefined`. | `hsva(-30, 1, 1, 1)` returns `[undefined, undefined, undefined, 1]`. | The hue taken modulo 360 into [0, 360), giving `[1, 0, 0.5, 1]` (hue 330). | medium, not executed | Color.NegativeHueReadsOutsideTables (with Color.NegativeHueUndefined) | Color.Hsva (with Color.HsvaPeriodic and Color.HsvaAgreesOnNonNegativeHue) |
