/**
 * The torus mesh builder `torus` of src/lib/utils.ts.
 *
 * `torus(row, column, irad, orad)` samples `row + 1` rings and, on each,
 * `column + 1` points around the tube, pushing three position numbers,
 * three normal numbers and four colour numbers per vertex; it then emits
 * two triangles, six indices, per grid cell. The buffers are flat: vertex
 * `(i, ii)` has id `(column + 1) * i + ii`, its position starts at offset
 * `3 * id` and the cell `(i, ii)` starts at offset `6 * (i * column + ii)`
 * of the index buffer.
 *
 * `Math.cos` and `Math.sin` are the parameters `cos` and `sin`: nothing is
 * assumed about them except where a lemma says so. Arithmetic is exact.
 */
module Mesh {
  import opened Wrappers
  import Color

  /** `Math.PI`, as the shortest decimal that reads back as that double. */
  const PI: real := 3.141592653589793

  /** The arguments of `torus`, with the trigonometric functions it calls. */
  datatype Shape = Shape(row: int, column: int, irad: real, orad: real, cos: real -> real, sin: real -> real)

  /** `Math.cos` as the shape supplies it. */
  function Cos(sh: Shape, x: real): real
  {
    sh.cos(x)
  }

  /** `Math.sin` as the shape supplies it. */
  function Sin(sh: Shape, x: real): real
  {
    sh.sin(x)
  }

  /** A grid with at least one ring step and one tube step. */
  predicate Sized(sh: Shape)
  {
    sh.row > 0 && sh.column > 0
  }

  /** The number of vertices of a `row` by `column` torus. */
  function VertexCount(row: int, column: int): int
  {
    (row + 1) * (column + 1)
  }

  /** The id of vertex `(i, ii)`: its rank in the order the vertices are pushed. */
  function VertexId(column: int, i: int, ii: int): int
  {
    (column + 1) * i + ii
  }

  /** The ring angle `r` of ring `i`. */
  function RingAngle(sh: Shape, i: int): real
    requires Sized(sh)
  {
    PI * 2.0 / sh.row as real * i as real
  }

  /** The tube angle `tr` of point `ii`. */
  function TubeAngle(sh: Shape, ii: int): real
    requires Sized(sh)
  {
    PI * 2.0 / sh.column as real * ii as real
  }

  /** The position `(tx, ty, tz)` of vertex `(i, ii)`. */
  function Position(sh: Shape, i: int, ii: int): seq<real>
    requires Sized(sh)
  {
    var rr := Cos(sh, RingAngle(sh, i));
    var ry := Sin(sh, RingAngle(sh, i));
    var tr := TubeAngle(sh, ii);
    [(rr * sh.irad + sh.orad) * Cos(sh, tr), ry * sh.irad, (rr * sh.irad + sh.orad) * Sin(sh, tr)]
  }

  /** The normal `(rx, ry, rz)` of vertex `(i, ii)`; it is not normalised. */
  function Normal(sh: Shape, i: int, ii: int): seq<real>
    requires Sized(sh)
  {
    var rr := Cos(sh, RingAngle(sh, i));
    var ry := Sin(sh, RingAngle(sh, i));
    var tr := TubeAngle(sh, ii);
    [rr * Cos(sh, tr), ry, rr * Sin(sh, tr)]
  }

  /** The hue `(360 / column) * ii` passed to `hsva` for point `ii`. */
  function Hue(column: int, ii: int): (h: real)
    requires column > 0 && 0 <= ii
    ensures 0.0 <= h
    ensures ii <= column ==> h <= 360.0
  {
    var step := 360.0 / column as real;
    assert step * column as real == 360.0;
    if ii <= column then
      Color.ScaleNonNegative(step, ii as real, column as real);
      step * ii as real
    else
      Color.ScaleNonNegative(step, 0.0, ii as real);
      step * ii as real
  }

  /** The colour of point `ii`, `hsva(h, 1, 1, 1)` in closed form: fully saturated, full value, opaque. */
  function VertexColor(column: int, ii: int): (c: seq<real>)
    requires column > 0 && 0 <= ii
    ensures |c| == 4
  {
    Color.HueColor(Hue(column, ii), 1.0, 1.0, 1.0)
  }

  /**
   * `palette` gives each point of a ring, and so the point of every ring
   * with the same index, the colour `torus` gives it. The
   * colours are matched point by point, on demand, so that a proof about
   * the buffers only expands the colours it mentions.
   */
  predicate Paints(column: int, palette: seq<seq<real>>)
  {
    && column > 0
    && |palette| == column + 1
    && forall ii {:trigger VertexColor(column, ii)} :: 0 <= ii <= column ==> palette[ii] == VertexColor(column, ii)
  }

  /** The three per-vertex buffers. */
  datatype Attribute = Positions | Normals | Colors

  /** The numbers each vertex contributes to a buffer. */
  function Width(at: Attribute): nat
  {
    if at == Colors then 4 else 3
  }

  /** Every colour of `palette` has four numbers. */
  predicate FourChannels(palette: seq<seq<real>>)
  {
    forall ii :: 0 <= ii < |palette| ==> |palette[ii]| == 4
  }

  /** What vertex `(i, ii)` pushes onto the buffer `at`, when point `ii` has colour `palette[ii]`. */
  function VertexData(sh: Shape, palette: seq<seq<real>>, at: Attribute, i: int, ii: int): seq<real>
    requires Sized(sh) && 0 <= ii < |palette|
  {
    match at
    case Positions => Position(sh, i, ii)
    case Normals => Normal(sh, i, ii)
    case Colors => palette[ii]
  }

  /** The buffer `at` for the first `n` points of ring `i`. */
  function RingData(sh: Shape, palette: seq<seq<real>>, at: Attribute, i: int, n: nat): seq<real>
    requires Sized(sh) && n <= |palette|
  {
    if n == 0 then [] else RingData(sh, palette, at, i, n - 1) + VertexData(sh, palette, at, i, n - 1)
  }

  /** The buffer `at` for the first `n` whole rings. */
  function MeshData(sh: Shape, palette: seq<seq<real>>, at: Attribute, n: nat): seq<real>
    requires Sized(sh) && |palette| == sh.column + 1
  {
    if n == 0 then [] else MeshData(sh, palette, at, n - 1) + RingData(sh, palette, at, n - 1, sh.column + 1)
  }

  /** The two triangles of grid cell `(i, ii)`, as pushed. */
  function Cell(column: int, i: int, ii: int): seq<int>
  {
    var r := VertexId(column, i, ii);
    [r, r + column + 1, r + 1, r + column + 1, r + column + 2, r + 1]
  }

  /** The indices of the first `n` cells of ring `i`. */
  function IndexRing(column: int, i: int, n: nat): (d: seq<int>)
    ensures |d| == 6 * n
  {
    if n == 0 then [] else IndexRing(column, i, n - 1) + Cell(column, i, n - 1)
  }

  /** The indices of the first `n` rings of cells. */
  function IndexMesh(column: nat, n: nat): seq<int>
  {
    if n == 0 then [] else IndexMesh(column, n - 1) + IndexRing(column, n - 1, column)
  }

  /**
   * `torus(row, column, irad, orad)`: the position, normal, colour and index
   * buffers of a `row` by `column` torus, vertex by vertex and then cell by cell.
   */
  method Torus(sh: Shape) returns (pos: seq<real>, nor: seq<real>, col: seq<real>, idx: seq<int>, ghost palette: seq<seq<real>>)
    requires Sized(sh)
    ensures Paints(sh.column, palette)
    ensures pos == MeshData(sh, palette, Positions, sh.row + 1)
    ensures nor == MeshData(sh, palette, Normals, sh.row + 1)
    ensures col == MeshData(sh, palette, Colors, sh.row + 1)
    ensures idx == IndexMesh(sh.column, sh.row)
    ensures |pos| == |nor| == 3 * VertexCount(sh.row, sh.column)
    ensures |col| == 4 * VertexCount(sh.row, sh.column)
    ensures |idx| == 6 * sh.row * sh.column
    ensures forall k :: 0 <= k < |idx| ==> 0 <= idx[k] < VertexCount(sh.row, sh.column)
  {
    palette := PaletteOfTorus(sh.column);
    pos, nor, col := TorusVertices(sh, palette);
    idx := TorusIndices(sh.column, sh.row);
    BufferLength(sh, palette, Positions);
    BufferLength(sh, palette, Normals);
    BufferLength(sh, palette, Colors);
    IndexMeshLength(sh.column, sh.row);
    IndicesInRange(sh.column, sh.row);
  }

  /** The first loop of `torus`: ring by ring, push the vertices of each ring. */
  method TorusVertices(sh: Shape, ghost palette: seq<seq<real>>) returns (pos: seq<real>, nor: seq<real>, col: seq<real>)
    requires Sized(sh) && Paints(sh.column, palette)
    ensures pos == MeshData(sh, palette, Positions, sh.row + 1)
    ensures nor == MeshData(sh, palette, Normals, sh.row + 1)
    ensures col == MeshData(sh, palette, Colors, sh.row + 1)
  {
    pos, nor, col := [], [], [];
    var i := 0;
    while i <= sh.row
      invariant 0 <= i <= sh.row + 1
      invariant pos == MeshData(sh, palette, Positions, i)
      invariant nor == MeshData(sh, palette, Normals, i)
      invariant col == MeshData(sh, palette, Colors, i)
    {
      pos, nor, col := TorusRing(sh, palette, i, pos, nor, col);
      i := i + 1;
    }
  }

  /** One step of the first loop of `torus`: the angle of ring `i`, then its points. */
  method TorusRing(sh: Shape, ghost palette: seq<seq<real>>, i: nat, pos: seq<real>, nor: seq<real>, col: seq<real>)
    returns (pos': seq<real>, nor': seq<real>, col': seq<real>)
    requires Sized(sh) && Paints(sh.column, palette)
    requires pos == MeshData(sh, palette, Positions, i)
    requires nor == MeshData(sh, palette, Normals, i)
    requires col == MeshData(sh, palette, Colors, i)
    ensures pos' == MeshData(sh, palette, Positions, i + 1)
    ensures nor' == MeshData(sh, palette, Normals, i + 1)
    ensures col' == MeshData(sh, palette, Colors, i + 1)
  {
    var r := RingAngle(sh, i);
    var rr := Cos(sh, r);
    var ry := Sin(sh, r);
    pos', nor', col' := PushRing(sh, palette, i, rr, ry, pos, nor, col);
    MeshStep(sh, palette, Positions, i);
    MeshStep(sh, palette, Normals, i);
    MeshStep(sh, palette, Colors, i);
  }

  /** The inner loop of the first loop of `torus`: the points of ring `i`, pushed after `pos`, `nor` and `col`. */
  method PushRing(sh: Shape, ghost palette: seq<seq<real>>, i: nat, rr: real, ry: real, pos: seq<real>, nor: seq<real>, col: seq<real>)
    returns (pos': seq<real>, nor': seq<real>, col': seq<real>)
    requires Sized(sh) && Paints(sh.column, palette)
    requires rr == Cos(sh, RingAngle(sh, i)) && ry == Sin(sh, RingAngle(sh, i))
    ensures pos' == pos + RingData(sh, palette, Positions, i, sh.column + 1)
    ensures nor' == nor + RingData(sh, palette, Normals, i, sh.column + 1)
    ensures col' == col + RingData(sh, palette, Colors, i, sh.column + 1)
  {
    pos', nor', col' := pos, nor, col;
    var ii := 0;
    while ii <= sh.column
      invariant 0 <= ii <= sh.column + 1
      invariant pos' == pos + RingData(sh, palette, Positions, i, ii)
      invariant nor' == nor + RingData(sh, palette, Normals, i, ii)
      invariant col' == col + RingData(sh, palette, Colors, i, ii)
    {
      RingStep(sh, palette, Positions, i, ii, pos, pos');
      RingStep(sh, palette, Normals, i, ii, nor, nor');
      RingStep(sh, palette, Colors, i, ii, col, col');
      pos', nor', col' := PushVertex(sh, palette, i, ii, rr, ry, pos', nor', col');
      ii := ii + 1;
    }
  }

  /** The second loop of `torus`: two triangles for each cell of the grid. */
  method TorusIndices(column: nat, row: nat) returns (idx: seq<int>)
    ensures idx == IndexMesh(column, row)
  {
    idx := [];
    var i := 0;
    while i < row
      invariant 0 <= i <= row
      invariant idx == IndexMesh(column, i)
    {
      var ii := 0;
      while ii < column
        invariant 0 <= ii <= column
        invariant idx == IndexMesh(column, i) + IndexRing(column, i, ii)
      {
        var r := VertexId(column, i, ii);
        CellStep(column, i, ii, r, idx);
        idx := idx + [r, r + column + 1, r + 1];
        idx := idx + [r + column + 1, r + column + 2, r + 1];
        ii := ii + 1;
      }
      i := i + 1;
    }
  }

  /**
   * One step of the inner loop of `torus`: point `ii` of ring `i`, whose
   * ring angle has cosine `rr` and sine `ry`, pushes its position, normal and
   * `hsva` colour.
   */
  method PushVertex(sh: Shape, ghost palette: seq<seq<real>>, i: int, ii: int, rr: real, ry: real, pos: seq<real>, nor: seq<real>, col: seq<real>)
    returns (pos': seq<real>, nor': seq<real>, col': seq<real>)
    requires Sized(sh) && Paints(sh.column, palette) && 0 <= ii <= sh.column
    requires rr == Cos(sh, RingAngle(sh, i)) && ry == Sin(sh, RingAngle(sh, i))
    ensures pos' == pos + VertexData(sh, palette, Positions, i, ii)
    ensures nor' == nor + VertexData(sh, palette, Normals, i, ii)
    ensures col' == col + VertexData(sh, palette, Colors, i, ii)
  {
    var tr := TubeAngle(sh, ii);
    var tx := (rr * sh.irad + sh.orad) * Cos(sh, tr);
    var ty := ry * sh.irad;
    var tz := (rr * sh.irad + sh.orad) * Sin(sh, tr);
    var rx := rr * Cos(sh, tr);
    var rz := rr * Sin(sh, tr);
    VertexAt(sh, palette, i, ii, rr, ry, tr);
    pos' := pos + [tx, ty, tz];
    nor' := nor + [rx, ry, rz];
    var tc := Color.HsvaAsWritten(Hue(sh.column, ii), 1.0, 1.0, 1.0);
    TorusHueAccepted(sh.column, ii);
    col' := col + [tc.value[0].value, tc.value[1].value, tc.value[2].value, tc.value[3].value];
  }

  /** Lemma: the vertex data spelled out from the angles' cosines and sines. */
  lemma VertexAt(sh: Shape, palette: seq<seq<real>>, i: int, ii: int, rr: real, ry: real, tr: real)
    requires Sized(sh) && 0 <= ii < |palette|
    requires rr == Cos(sh, RingAngle(sh, i)) && ry == Sin(sh, RingAngle(sh, i)) && tr == TubeAngle(sh, ii)
    ensures VertexData(sh, palette, Positions, i, ii) == [(rr * sh.irad + sh.orad) * Cos(sh, tr), ry * sh.irad, (rr * sh.irad + sh.orad) * Sin(sh, tr)]
    ensures VertexData(sh, palette, Normals, i, ii) == [rr * Cos(sh, tr), ry, rr * Sin(sh, tr)]
  {
    var p := Position(sh, i, ii);
    assert p[0] == (rr * sh.irad + sh.orad) * Cos(sh, tr);
    assert p[1] == ry * sh.irad;
    assert p[2] == (rr * sh.irad + sh.orad) * Sin(sh, tr);
    var n := Normal(sh, i, ii);
    assert n[0] == rr * Cos(sh, tr) && n[1] == ry && n[2] == rr * Sin(sh, tr);
  }

  /** Lemma: pushing the two triangles of cell `(i, ii)` extends ring `i` by that cell. */
  lemma CellStep(column: nat, i: nat, ii: nat, r: int, idx: seq<int>)
    requires r == VertexId(column, i, ii)
    requires idx == IndexMesh(column, i) + IndexRing(column, i, ii)
    ensures idx + [r, r + column + 1, r + 1] + [r + column + 1, r + column + 2, r + 1]
      == IndexMesh(column, i) + IndexRing(column, i, ii + 1)
  {
    var first, second := [r, r + column + 1, r + 1], [r + column + 1, r + column + 2, r + 1];
    assert Cell(column, i, ii) == first + second;
    calc {
      idx + first + second;
      IndexMesh(column, i) + (IndexRing(column, i, ii) + (first + second));
      IndexMesh(column, i) + IndexRing(column, i, ii + 1);
    }
  }

  /** Lemma: a buffer holds `Width(at)` numbers for each of the `VertexCount` vertices. */
  lemma BufferLength(sh: Shape, palette: seq<seq<real>>, at: Attribute)
    requires Sized(sh) && Paints(sh.column, palette)
    ensures |MeshData(sh, palette, at, sh.row + 1)| == Width(at) * VertexCount(sh.row, sh.column)
  {
    PaintsFourChannels(sh.column, palette);
    MeshDataLength(sh, palette, at, sh.row + 1);
  }

  /** Lemma: a vertex pushes `Width(at)` numbers onto the buffer `at`. */
  lemma VertexWidth(sh: Shape, palette: seq<seq<real>>, at: Attribute, i: int, ii: int)
    requires Sized(sh) && 0 <= ii < |palette| && FourChannels(palette)
    ensures |VertexData(sh, palette, at, i, ii)| == Width(at)
  {
  }

  /** Lemma: the first `n` points of a ring push `Width(at)` numbers each. */
  lemma {:induction false} RingDataLength(sh: Shape, palette: seq<seq<real>>, at: Attribute, i: int, n: nat)
    requires Sized(sh) && n <= |palette| && FourChannels(palette)
    ensures |RingData(sh, palette, at, i, n)| == Width(at) * n
  {
    if n > 0 {
      RingDataLength(sh, palette, at, i, n - 1);
    }
  }

  /** Lemma: the first `n` rings push `Width(at)` numbers for each of their `column + 1` points. */
  lemma {:induction false} MeshDataLength(sh: Shape, palette: seq<seq<real>>, at: Attribute, n: nat)
    requires Sized(sh) && |palette| == sh.column + 1 && FourChannels(palette)
    ensures |MeshData(sh, palette, at, n)| == Width(at) * (n * (sh.column + 1))
  {
    if n > 0 {
      var w, c := Width(at), sh.column + 1;
      MeshDataLength(sh, palette, at, n - 1);
      RingDataLength(sh, palette, at, n - 1, c);
      assert w * ((n - 1) * c) + w * c == w * (n * c);
    }
  }

  /** Lemma: `n` rings of `column` cells hold six indices per cell. */
  lemma {:induction false} IndexMeshLength(column: nat, n: nat)
    ensures |IndexMesh(column, n)| == 6 * n * column
  {
    if n > 0 {
      IndexMeshLength(column, n - 1);
      assert 6 * (n - 1) * column + 6 * column == 6 * n * column;
    }
  }

  /** Lemma: the first `i + 1` rings are the first `i` rings followed by ring `i`. */
  lemma MeshStep(sh: Shape, palette: seq<seq<real>>, at: Attribute, i: nat)
    requires Sized(sh) && |palette| == sh.column + 1
    ensures MeshData(sh, palette, at, i + 1) == MeshData(sh, palette, at, i) + RingData(sh, palette, at, i, sh.column + 1)
  {
  }

  /** Lemma: pushing vertex `(i, ii)` onto a buffer that holds everything before it. */
  lemma RingStep(sh: Shape, palette: seq<seq<real>>, at: Attribute, i: nat, ii: nat, prefix: seq<real>, buffer: seq<real>)
    requires Sized(sh) && ii < |palette| && buffer == prefix + RingData(sh, palette, at, i, ii)
    ensures buffer + VertexData(sh, palette, at, i, ii) == prefix + RingData(sh, palette, at, i, ii + 1)
  {
  }

  /** Lemma: every colour of a torus palette has four numbers. */
  lemma PaintsFourChannels(column: int, palette: seq<seq<real>>)
    requires Paints(column, palette)
    ensures FourChannels(palette)
  {
    forall ii | 0 <= ii < |palette|
      ensures |palette[ii]| == 4
    {
      assert palette[ii] == VertexColor(column, ii);
    }
  }

  /** Lemma: a `column` by anything torus has a palette: the colours of its points `0..column`. */
  lemma PaletteOfTorus(column: int) returns (palette: seq<seq<real>>)
    requires column > 0
    ensures Paints(column, palette)
  {
    palette := seq(column + 1, ii requires 0 <= ii <= column => VertexColor(column, ii));
    forall ii | 0 <= ii <= column
      ensures palette[ii] == VertexColor(column, ii)
    {
    }
  }

  /**
   * Lemma: the hue `torus` passes for point `ii` is in [0, 360], so `hsva`
   * accepts it, `as number[]` never hides a `null` and every entry is a
   * number: the colour of the code as written.
   */
  lemma TorusHueAccepted(column: int, ii: int)
    requires column > 0 && 0 <= ii <= column
    ensures var tc := Color.HsvaAsWritten(Hue(column, ii), 1.0, 1.0, 1.0);
      && tc.Some?
      && (forall j :: 0 <= j < 4 ==> tc.value[j].Num?)
      && [tc.value[0].value, tc.value[1].value, tc.value[2].value, tc.value[3].value] == VertexColor(column, ii)
  {
    var h := Hue(column, ii);
    var c := Color.HueColor(h, 1.0, 1.0, 1.0);
    Color.HsvaAgreesOnNonNegativeHue(h, 1.0, 1.0, 1.0);
    Color.HsvaMatchesChannelFormula(h, 1.0, 1.0, 1.0);
    Color.HueColorUnreduced(h, 1.0, 1.0, 1.0);
    var tc := Color.HsvaAsWritten(h, 1.0, 1.0, 1.0);
    assert tc == Some(seq(4, j requires 0 <= j < 4 => Color.Num(c[j])));
    assert tc.value[0] == Color.Num(c[0]) && tc.value[1] == Color.Num(c[1]);
    assert tc.value[2] == Color.Num(c[2]) && tc.value[3] == Color.Num(c[3]);
  }

  /** Lemma: the cells of ring `i` refer to the vertices of rings `i` and `i + 1`. */
  lemma {:induction false} IndexRingBounds(column: int, i: int, n: nat)
    requires column > 0 && 0 <= i && n <= column
    ensures forall k :: 0 <= k < |IndexRing(column, i, n)| ==>
      VertexId(column, i, 0) <= IndexRing(column, i, n)[k] < VertexId(column, i + 2, 0)
  {
    if n > 0 {
      IndexRingBounds(column, i, n - 1);
      var r := VertexId(column, i, n - 1);
      assert r + column + 2 <= VertexId(column, i + 2, 0) - 1;
    }
  }

  /**
   * Lemma: every index of a `row` by `column` torus names a vertex, that
   * is, lies in [0, (row + 1) * (column + 1)).
   */
  lemma {:induction false} IndicesInRange(column: nat, row: nat)
    requires column > 0
    ensures forall k :: 0 <= k < |IndexMesh(column, row)| ==>
      0 <= IndexMesh(column, row)[k] < VertexCount(row, column)
  {
    if row > 0 {
      IndicesInRange(column, row - 1);
      IndexRingBounds(column, row - 1, column);
      assert VertexId(column, row + 1, 0) == VertexCount(row, column);
      assert VertexCount(row - 1, column) <= VertexCount(row, column);
    }
  }

  /** Lemma: the first `m` rings of cells are a prefix of the first `n`. */
  lemma {:induction false} IndexMeshPrefix(column: nat, m: nat, n: nat)
    requires m <= n
    ensures IndexMesh(column, m) <= IndexMesh(column, n)
  {
    if m < n {
      IndexMeshPrefix(column, m, n - 1);
    }
  }

  /** Lemma: the first `m` cells of a ring are a prefix of the first `n`. */
  lemma {:induction false} IndexRingPrefix(column: int, i: int, m: nat, n: nat)
    requires m <= n
    ensures IndexRing(column, i, m) <= IndexRing(column, i, n)
  {
    if m < n {
      IndexRingPrefix(column, i, m, n - 1);
    }
  }

  /** Lemma: when `r + v` starts `full`, `a + r + v` starts `a + full`. */
  lemma PrefixStep<T>(a: seq<T>, r: seq<T>, v: seq<T>, full: seq<T>)
    requires r + v <= full
    ensures a + r + v <= a + full
  {
    assert (a + full)[..|a| + |r| + |v|] == a + full[..|r| + |v|];
  }

  /** Lemma: a sequence that starts with `a + b` holds `b` right after `a`. */
  lemma SliceAfterPrefix<T>(a: seq<T>, b: seq<T>, c: seq<T>)
    requires a + b <= c
    ensures |a| + |b| <= |c| && c[|a| .. |a| + |b|] == b
  {
    assert c[|a| .. |a| + |b|] == (a + b)[|a| ..];
  }

  /**
   * Lemma: the six indices of cell `(i, ii)` start at offset
   * `6 * (i * column + ii)` of the index buffer: the two triangles
   * `(r, r + column + 1, r + 1)` and `(r + column + 1, r + column + 2, r + 1)`
   * with `r = (column + 1) * i + ii`.
   */
  lemma CellLayout(column: nat, row: nat, i: nat, ii: nat)
    requires i < row && ii < column
    ensures 6 * (i * column + ii) + 6 <= |IndexMesh(column, row)|
    ensures IndexMesh(column, row)[6 * (i * column + ii) .. 6 * (i * column + ii) + 6] == Cell(column, i, ii)
  {
    var before, ring, cell := IndexMesh(column, i), IndexRing(column, i, ii), Cell(column, i, ii);
    CellOffset(column, i, ii);
    CellPrefix(column, i, ii);
    IndexMeshPrefix(column, i + 1, row);
    SliceAfterPrefix(before + ring, cell, IndexMesh(column, row));
  }

  /** Lemma: the cells before cell `(i, ii)` hold `6 * (i * column + ii)` indices. */
  lemma CellOffset(column: nat, i: nat, ii: nat)
    ensures |IndexMesh(column, i) + IndexRing(column, i, ii)| == 6 * (i * column + ii)
  {
    IndexMeshLength(column, i);
  }

  /** Lemma: ring `i` of cells, up to and including cell `(i, ii)`, follows the rings before it. */
  lemma CellPrefix(column: nat, i: nat, ii: nat)
    requires ii < column
    ensures IndexMesh(column, i) + IndexRing(column, i, ii) + Cell(column, i, ii) <= IndexMesh(column, i + 1)
  {
    IndexRingPrefix(column, i, ii + 1, column);
    PrefixStep(IndexMesh(column, i), IndexRing(column, i, ii), Cell(column, i, ii), IndexRing(column, i, column));
  }

  /**
   * Lemma: the largest vertex id, `(row + 1) * (column + 1) - 1`, is in the
   * index buffer: it is the fifth index of the last cell.
   */
  lemma LargestIndex(column: nat, row: nat)
    requires column > 0 && row > 0
    ensures exists k :: 0 <= k < |IndexMesh(column, row)| && IndexMesh(column, row)[k] == VertexCount(row, column) - 1
  {
    var o := 6 * ((row - 1) * column + column - 1);
    CellLayout(column, row, row - 1, column - 1);
    assert IndexMesh(column, row)[o + 4] == Cell(column, row - 1, column - 1)[4];
  }

  /** Lemma: the first `m` rings of a buffer are a prefix of the first `n`. */
  lemma {:induction false} MeshDataPrefix(sh: Shape, palette: seq<seq<real>>, at: Attribute, m: nat, n: nat)
    requires Sized(sh) && |palette| == sh.column + 1 && m <= n
    ensures MeshData(sh, palette, at, m) <= MeshData(sh, palette, at, n)
  {
    if m < n {
      MeshDataPrefix(sh, palette, at, m, n - 1);
    }
  }

  /** Lemma: the first `m` points of a ring, then point `m`, are a prefix of the first `n` points. */
  lemma {:induction false} RingDataPrefix(sh: Shape, palette: seq<seq<real>>, at: Attribute, i: int, m: nat, n: nat)
    requires Sized(sh) && m < n <= |palette|
    ensures RingData(sh, palette, at, i, m) + VertexData(sh, palette, at, i, m) <= RingData(sh, palette, at, i, n)
  {
    if m < n - 1 {
      RingDataPrefix(sh, palette, at, i, m, n - 1);
    }
  }

  /**
   * Lemma: in the buffer `at` of a `row` by `column` torus, the data of
   * vertex `(i, ii)` starts at `Width(at)` times the vertex id.
   */
  lemma VertexLayout(sh: Shape, palette: seq<seq<real>>, at: Attribute, i: nat, ii: nat)
    requires Sized(sh) && |palette| == sh.column + 1 && FourChannels(palette)
    requires i <= sh.row && ii <= sh.column
    ensures var w, o := Width(at), Width(at) * VertexId(sh.column, i, ii);
      && o + w <= |MeshData(sh, palette, at, sh.row + 1)|
      && MeshData(sh, palette, at, sh.row + 1)[o .. o + w] == VertexData(sh, palette, at, i, ii)
  {
    VertexOffset(sh, palette, at, i, ii);
    VertexWidth(sh, palette, at, i, ii);
    VertexPrefix(sh, palette, at, i, ii);
    MeshDataPrefix(sh, palette, at, i + 1, sh.row + 1);
    SliceAfterPrefix(MeshData(sh, palette, at, i) + RingData(sh, palette, at, i, ii), VertexData(sh, palette, at, i, ii),
      MeshData(sh, palette, at, sh.row + 1));
  }

  /** Lemma: the vertices before vertex `(i, ii)` fill `Width(at)` times its id. */
  lemma VertexOffset(sh: Shape, palette: seq<seq<real>>, at: Attribute, i: nat, ii: nat)
    requires Sized(sh) && |palette| == sh.column + 1 && FourChannels(palette) && ii <= sh.column
    ensures |MeshData(sh, palette, at, i) + RingData(sh, palette, at, i, ii)| == Width(at) * VertexId(sh.column, i, ii)
  {
    MeshDataLength(sh, palette, at, i);
    RingDataLength(sh, palette, at, i, ii);
    var w, id := Width(at), VertexId(sh.column, i, ii);
    assert id == i * (sh.column + 1) + ii;
    assert w * id == w * (i * (sh.column + 1)) + w * ii;
  }

  /** Lemma: ring `i`, up to and including vertex `(i, ii)`, follows the rings before it. */
  lemma VertexPrefix(sh: Shape, palette: seq<seq<real>>, at: Attribute, i: nat, ii: nat)
    requires Sized(sh) && |palette| == sh.column + 1 && ii <= sh.column
    ensures MeshData(sh, palette, at, i) + RingData(sh, palette, at, i, ii) + VertexData(sh, palette, at, i, ii)
      <= MeshData(sh, palette, at, i + 1)
  {
    var before, whole := MeshData(sh, palette, at, i), RingData(sh, palette, at, i, sh.column + 1);
    assert MeshData(sh, palette, at, i + 1) == before + whole;
    RingDataPrefix(sh, palette, at, i, ii, sh.column + 1);
    PrefixStep(before, RingData(sh, palette, at, i, ii), VertexData(sh, palette, at, i, ii), whole);
  }

  /**
   * Lemma: the colour buffer of a torus holds, at vertex `(i, ii)`, the four
   * numbers `hsva((360 / column) * ii, 1, 1, 1)` returns.
   */
  lemma VertexColorLayout(sh: Shape, palette: seq<seq<real>>, i: nat, ii: nat)
    requires Sized(sh) && Paints(sh.column, palette)
    requires i <= sh.row && ii <= sh.column
    ensures var tc, o := Color.HsvaAsWritten(Hue(sh.column, ii), 1.0, 1.0, 1.0), 4 * VertexId(sh.column, i, ii);
      && tc.Some? && (forall j :: 0 <= j < 4 ==> tc.value[j].Num?)
      && o + 4 <= |MeshData(sh, palette, Colors, sh.row + 1)|
      && MeshData(sh, palette, Colors, sh.row + 1)[o .. o + 4]
        == [tc.value[0].value, tc.value[1].value, tc.value[2].value, tc.value[3].value]
  {
    PaintsFourChannels(sh.column, palette);
    VertexLayout(sh, palette, Colors, i, ii);
    TorusHueAccepted(sh.column, ii);
  }

  /** Lemma: the last point of a ring gets the colour of the first: hue 360 looks like hue 0. */
  lemma SeamColor(column: int, palette: seq<seq<real>>)
    requires Paints(column, palette)
    ensures palette[column] == palette[0]
  {
    assert palette[column] == VertexColor(column, column);
    assert palette[0] == VertexColor(column, 0);
    assert Hue(column, column) == 360.0;
    assert Hue(column, 0) == 0.0;
  }

  /**
   * Lemma: the seam vertices are computed, not shared: ring `row` is
   * sampled at the full-turn angle `PI * 2`, where ring 0 is sampled at
   * zero, and likewise point `column` of each ring against point 0.
   */
  lemma SeamAngles(sh: Shape)
    requires Sized(sh)
    ensures RingAngle(sh, 0) == 0.0 && RingAngle(sh, sh.row) == PI * 2.0
    ensures TubeAngle(sh, 0) == 0.0 && TubeAngle(sh, sh.column) == PI * 2.0
  {
  }

  /**
   * Lemma: with cos 0 = 1 and sin 0 = 0, the first vertex of a torus is at
   * `(irad + orad, 0, 0)` with normal `(1, 0, 0)`.
   */
  lemma FirstVertex(sh: Shape, palette: seq<seq<real>>)
    requires Sized(sh) && Paints(sh.column, palette)
    requires Cos(sh, 0.0) == 1.0 && Sin(sh, 0.0) == 0.0
    ensures |MeshData(sh, palette, Positions, sh.row + 1)| >= 3
    ensures MeshData(sh, palette, Positions, sh.row + 1)[0 .. 3] == [sh.irad + sh.orad, 0.0, 0.0]
    ensures |MeshData(sh, palette, Normals, sh.row + 1)| >= 3
    ensures MeshData(sh, palette, Normals, sh.row + 1)[0 .. 3] == [1.0, 0.0, 0.0]
  {
    PaintsFourChannels(sh.column, palette);
    VertexLayout(sh, palette, Positions, 0, 0);
    VertexLayout(sh, palette, Normals, 0, 0);
    assert RingAngle(sh, 0) == 0.0 && TubeAngle(sh, 0) == 0.0;
    var p, n := Position(sh, 0, 0), Normal(sh, 0, 0);
    assert p[0] == sh.irad + sh.orad && p[1] == 0.0 && p[2] == 0.0;
    assert n[0] == 1.0 && n[1] == 0.0 && n[2] == 0.0;
  }
}
