/**
 * Parts of the Quake 3 BSP importer (importer/bsp.cpp): the tesselation of a quadratic
 * Bezier patch into a grid of vertices and triangles, the winding of mesh faces, and the
 * expansion of RGB light maps to RGBA.
 *
 * Float arithmetic is modelled on reals.
 */
module BspImport {
  import opened Numeric

  // ---------------------------------------------------------------------------------------
  // Vertices and their arithmetic

  /** BSP::Vertex: position, texture and light-map coordinates, normal and an RGBA colour. */
  datatype BVertex = BVertex(position: Vec3, texCoord: Vec2, lmCoord: Vec2, normal: Vec3, color: seq<nat>)

  const ZERO_COLOR: seq<nat> := [0, 0, 0, 0]

  function Add3(a: Vec3, b: Vec3): Vec3 { Vec3(a.x + b.x, a.y + b.y, a.z + b.z) }
  function Mul3(a: Vec3, d: real): Vec3 { Vec3(a.x * d, a.y * d, a.z * d) }
  function Add2(a: Vec2, b: Vec2): Vec2 { Vec2(a.x + b.x, a.y + b.y) }
  function Mul2(a: Vec2, d: real): Vec2 { Vec2(a.x * d, a.y * d) }

  /** operator+: component-wise on the four attributes; the colour of the temporary stays zero. */
  function Add(v1: BVertex, v2: BVertex): (r: BVertex)
    ensures r.color == ZERO_COLOR
  {
    BVertex(Add3(v1.position, v2.position), Add2(v1.texCoord, v2.texCoord),
            Add2(v1.lmCoord, v2.lmCoord), Add3(v1.normal, v2.normal), ZERO_COLOR)
  }

  /** operator*: the four attributes scaled; the colour of the temporary stays zero. */
  function Mul(v: BVertex, d: real): (r: BVertex)
    ensures r.color == ZERO_COLOR
  {
    BVertex(Mul3(v.position, d), Mul2(v.texCoord, d), Mul2(v.lmCoord, d), Mul3(v.normal, d), ZERO_COLOR)
  }

  /** The quadratic Bezier curve through v1, v2, v3 at a: v1 b b + v2 2 b a + v3 a a with b = 1 - a. */
  function Bezier(v1: BVertex, v2: BVertex, v3: BVertex, a: real): (r: BVertex)
    ensures r.color == ZERO_COLOR
  {
    var b := 1.0 - a;
    Add(Add(Mul(Mul(v1, b), b), Mul(Mul(Mul(v2, 2.0), b), a)), Mul(Mul(v3, a), a))
  }

  /** The attributes that the arithmetic carries, all but the colour. */
  predicate SameAttributes(a: BVertex, b: BVertex)
  {
    a.position == b.position && a.texCoord == b.texCoord && a.lmCoord == b.lmCoord && a.normal == b.normal
  }

  /** The curve starts at its first control point and ends at its last. */
  lemma BezierEnds(v1: BVertex, v2: BVertex, v3: BVertex)
    ensures SameAttributes(Bezier(v1, v2, v3, 0.0), v1)
    ensures SameAttributes(Bezier(v1, v2, v3, 1.0), v3)
  {
  }

  /** Bezier depends on its control points only through the attributes. */
  lemma BezierAttributes(v1: BVertex, v2: BVertex, v3: BVertex, w1: BVertex, w2: BVertex, w3: BVertex, a: real)
    requires SameAttributes(v1, w1) && SameAttributes(v2, w2) && SameAttributes(v3, w3)
    ensures Bezier(v1, v2, v3, a) == Bezier(w1, w2, w3, a)
  {
  }

  // ---------------------------------------------------------------------------------------
  // The patch

  /** The nine control points v11 .. v33 of a patch, row by row. */
  datatype Controls = Controls(v11: BVertex, v12: BVertex, v13: BVertex,
                               v21: BVertex, v22: BVertex, v23: BVertex,
                               v31: BVertex, v32: BVertex, v33: BVertex)

  /** The biquadratic patch at (u, w): the curves through each control row at u, then across at w. */
  function PatchPoint(c: Controls, u: real, w: real): BVertex
  {
    Bezier(Bezier(c.v11, c.v12, c.v13, u), Bezier(c.v21, c.v22, c.v23, u), Bezier(c.v31, c.v32, c.v33, u), w)
  }

  /** The four corners of the patch are its corner control points. */
  lemma PatchCorners(c: Controls)
    ensures SameAttributes(PatchPoint(c, 0.0, 0.0), c.v11) && SameAttributes(PatchPoint(c, 0.0, 1.0), c.v31)
    ensures SameAttributes(PatchPoint(c, 1.0, 0.0), c.v13) && SameAttributes(PatchPoint(c, 1.0, 1.0), c.v33)
  {
    BezierEnds(c.v11, c.v12, c.v13);
    BezierEnds(c.v21, c.v22, c.v23);
    BezierEnds(c.v31, c.v32, c.v33);
    BezierEnds(Bezier(c.v11, c.v12, c.v13, 0.0), Bezier(c.v21, c.v22, c.v23, 0.0), Bezier(c.v31, c.v32, c.v33, 0.0));
    BezierEnds(Bezier(c.v11, c.v12, c.v13, 1.0), Bezier(c.v21, c.v22, c.v23, 1.0), Bezier(c.v31, c.v32, c.v33, 1.0));
  }

  /** The first row of the grid, which tesselate computes from v11, v21, v31 directly, is row u = 0 of the patch. */
  lemma FirstRowOfPatch(c: Controls, w: real)
    ensures Bezier(c.v11, c.v21, c.v31, w) == PatchPoint(c, 0.0, w)
  {
    BezierEnds(c.v11, c.v12, c.v13);
    BezierEnds(c.v21, c.v22, c.v23);
    BezierEnds(c.v31, c.v32, c.v33);
    BezierAttributes(c.v11, c.v21, c.v31,
                     Bezier(c.v11, c.v12, c.v13, 0.0), Bezier(c.v21, c.v22, c.v23, 0.0), Bezier(c.v31, c.v32, c.v33, 0.0), w);
  }

  lemma ParamZero(level: nat)
    requires level > 0
    ensures Param(0, level) == 0.0
  {
  }

  /** The parameter of grid line k of L + 1: k / L. */
  function Param(k: nat, level: nat): real
    requires level > 0
  {
    (k as real) / (level as real)
  }

  /** The vertex of grid line i (across the control rows) and column j: the patch at (i / L, j / L). */
  function PointAt(c: Controls, level: nat): (nat, nat) -> BVertex
    requires level > 0
  {
    (i: nat, j: nat) => PatchPoint(c, Param(i, level), Param(j, level))
  }

  /** The first n entries of row i of a grid whose entries are f(i, j). */
  function RowOf<T>(f: (nat, nat) -> T, i: nat, n: nat): (r: seq<T>)
    ensures |r| == n
  {
    if n == 0 then [] else RowOf(f, i, n - 1) + [f(i, n - 1)]
  }

  /** The first `rows` rows of l1 entries each of a grid whose entries are f(i, j), row after row. */
  function GridOf<T>(f: (nat, nat) -> T, l1: nat, rows: nat): (r: seq<T>)
    ensures |r| == rows * l1
  {
    if rows == 0 then [] else GridOf(f, l1, rows - 1) + RowOf(f, rows - 1, l1)
  }

  /** The first n vertices of grid row i. */
  function Row(c: Controls, level: nat, i: nat, n: nat): (r: seq<BVertex>)
    requires level > 0
  {
    RowOf(PointAt(c, level), i, n)
  }

  /** The first `rows` rows of the (L + 1) x (L + 1) grid. */
  function Grid(c: Controls, level: nat, rows: nat): (r: seq<BVertex>)
    requires level > 0
  {
    GridOf(PointAt(c, level), level + 1, rows)
  }

  /** Vertex j of row i of the grid is the patch at (i / L, j / L). */
  lemma GridAt(c: Controls, level: nat, rows: nat, i: nat, j: nat)
    requires level > 0 && i < rows && j <= level
    ensures |Grid(c, level, rows)| == rows * (level + 1)
    ensures 0 <= i * (level + 1) + j < rows * (level + 1)
    ensures Grid(c, level, rows)[i * (level + 1) + j] == PatchPoint(c, Param(i, level), Param(j, level))
  {
    GridOfAt(PointAt(c, level), level + 1, rows, i, j);
  }

  /** Entry i * l1 + j of the flattened grid is f(i, j). */
  lemma {:induction false} GridOfAt<T>(f: (nat, nat) -> T, l1: nat, rows: nat, i: nat, j: nat)
    requires i < rows && j < l1
    ensures 0 <= i * l1 + j < rows * l1
    ensures GridOf(f, l1, rows)[i * l1 + j] == f(i, j)
  {
    GridIndex(i, j, rows, l1);
    var k := i * l1 + j;
    var prev := GridOf(f, l1, rows - 1);
    var row := RowOf(f, rows - 1, l1);
    assert GridOf(f, l1, rows) == prev + row;
    if i < rows - 1 {
      GridOfAt(f, l1, rows - 1, i, j);
      AppendLeft(prev, row, k);
    } else {
      RowOfAt(f, i, l1, j);
      AppendRight(prev, row, j);
      assert k == |prev| + j;
    }
  }

  /** Where entry (i, j) of a grid of rows of l1 entries falls. */
  lemma GridIndex(i: nat, j: nat, rows: nat, l1: nat)
    requires i < rows && j < l1
    ensures 0 <= i * l1 && i * l1 + j < rows * l1
    ensures i < rows - 1 ==> i * l1 + j < (rows - 1) * l1
    ensures i == rows - 1 ==> i * l1 + j == (rows - 1) * l1 + j
  {
    assert (i + 1) * l1 == i * l1 + l1;
    MulLe(i + 1, rows, l1);
    if i < rows - 1 {
      MulLe(i + 1, rows - 1, l1);
    }
  }

  lemma AppendLeft<T>(a: seq<T>, b: seq<T>, k: int)
    requires 0 <= k < |a|
    ensures (a + b)[k] == a[k]
  {
  }

  lemma AppendRight<T>(a: seq<T>, b: seq<T>, j: nat)
    requires j < |b|
    ensures (a + b)[|a| + j] == b[j]
  {
  }

  lemma {:induction false} RowOfAt<T>(f: (nat, nat) -> T, i: nat, n: nat, j: nat)
    requires j < n
    ensures RowOf(f, i, n)[j] == f(i, j)
  {
    if j < n - 1 {
      RowOfAt(f, i, n - 1, j);
    }
  }

  // ---------------------------------------------------------------------------------------
  // The triangles of the grid

  /** The two triangles of grid cell (i, j), counter-clockwise as tesselate emits them. */
  function Quad(offset: nat, l1: nat, i: nat, j: nat): seq<nat>
  {
    [offset + i * l1 + j, offset + (i + 1) * l1 + (j + 1), offset + i * l1 + (j + 1),
     offset + (i + 1) * l1 + (j + 1), offset + i * l1 + j, offset + (i + 1) * l1 + j]
  }

  /** The triangles of the first n cells of cell row i. */
  function QuadRow(offset: nat, l1: nat, i: nat, n: nat): (r: seq<nat>)
    ensures |r| == 6 * n
  {
    if n == 0 then [] else QuadRow(offset, l1, i, n - 1) + Quad(offset, l1, i, n - 1)
  }

  /** The triangles of the first `rows` cell rows of a grid of L x L cells. */
  function Triangles(offset: nat, level: nat, rows: nat): (r: seq<nat>)
    ensures |r| == 6 * level * rows
  {
    if rows == 0 then [] else Triangles(offset, level, rows - 1) + QuadRow(offset, level + 1, rows - 1, level)
  }

  lemma MulLe(a: nat, b: nat, c: nat)
    requires a <= b
    ensures a * c <= b * c
  {
  }

  predicate InRange(s: seq<nat>, lo: nat, hi: nat)
  {
    forall k :: 0 <= k < |s| ==> lo <= s[k] < hi
  }

  lemma InRangeAppend(s: seq<nat>, t: seq<nat>, lo: nat, hi: nat)
    requires InRange(s, lo, hi) && InRange(t, lo, hi)
    ensures InRange(s + t, lo, hi)
  {
  }

  /** A cell's corners are grid vertices: each index lies in [offset, offset + (L + 1)^2). */
  lemma QuadInGrid(offset: nat, level: nat, i: nat, j: nat)
    requires i < level && j < level
    ensures InRange(Quad(offset, level + 1, i, j), offset, offset + (level + 1) * (level + 1))
  {
    var l1 := level + 1;
    MulLe(i + 1, level, l1);
    assert (i + 1) * l1 + (j + 1) <= level * l1 + level;
    assert level * l1 + level < l1 * l1;
  }

  lemma {:induction false} QuadRowInGrid(offset: nat, level: nat, i: nat, n: nat)
    requires i < level && n <= level
    ensures InRange(QuadRow(offset, level + 1, i, n), offset, offset + (level + 1) * (level + 1))
  {
    if n > 0 {
      QuadRowInGrid(offset, level, i, n - 1);
      QuadInGrid(offset, level, i, n - 1);
      InRangeAppend(QuadRow(offset, level + 1, i, n - 1), Quad(offset, level + 1, i, n - 1),
                    offset, offset + (level + 1) * (level + 1));
    }
  }

  /** Every index tesselate emits names one of the vertices it added. */
  lemma {:induction false} TrianglesInGrid(offset: nat, level: nat, rows: nat)
    requires rows <= level
    ensures InRange(Triangles(offset, level, rows), offset, offset + (level + 1) * (level + 1))
  {
    if rows > 0 {
      TrianglesInGrid(offset, level, rows - 1);
      QuadRowInGrid(offset, level, rows - 1, level);
      InRangeAppend(Triangles(offset, level, rows - 1), QuadRow(offset, level + 1, rows - 1, level),
                    offset, offset + (level + 1) * (level + 1));
    }
  }

  /** The vertex loops of tesselate: row 0 from v11, v21, v31, then rows 1 .. L through the row curves. */
  method PatchVertices(c: Controls, level: nat) returns (verts: seq<BVertex>)
    requires level > 0
    ensures verts == Grid(c, level, level + 1)
  {
    verts := FirstGridRow(c, level);
    assert verts == Grid(c, level, 1);
    for i := 1 to level + 1
      invariant verts == Grid(c, level, i)
    {
      var row := GridRow(c, level, i);
      verts := verts + row;
    }
  }

  /** The first vertex loop: the curve through v11, v21, v31, which is the patch at u = 0. */
  method FirstGridRow(c: Controls, level: nat) returns (verts: seq<BVertex>)
    requires level > 0
    ensures verts == Row(c, level, 0, level + 1)
  {
    verts := [];
    for j := 0 to level + 1
      invariant verts == Row(c, level, 0, j)
    {
      var a := Param(j, level);
      FirstRowOfPatch(c, a);
      ParamZero(level);
      verts := verts + [Bezier(c.v11, c.v21, c.v31, a)];
    }
  }

  /** One pass of the second vertex loop: the three row curves at i / L, then the curve across them. */
  method GridRow(c: Controls, level: nat, i: nat) returns (verts: seq<BVertex>)
    requires level > 0
    ensures verts == Row(c, level, i, level + 1)
  {
    var a := Param(i, level);
    var t0 := Bezier(c.v11, c.v12, c.v13, a);
    var t1 := Bezier(c.v21, c.v22, c.v23, a);
    var t2 := Bezier(c.v31, c.v32, c.v33, a);
    verts := [];
    for j := 0 to level + 1
      invariant verts == Row(c, level, i, j)
    {
      verts := verts + [Bezier(t0, t1, t2, Param(j, level))];
    }
  }

  /** BSPMesh: the vertex and index lists a patch face is tesselated into. */
  class BspMesh {
    var vertices: seq<BVertex>
    var indices: seq<nat>

    constructor ()
      ensures vertices == [] && indices == []
    {
      vertices, indices := [], [];
    }

    /**
     * tesselate: append the (L + 1)^2 grid vertices of the patch, row by row, and the 6 L^2
     * indices of its triangles, numbered from the old vertex count.
     */
    method Tesselate(c: Controls, level: nat)
      requires level > 0
      modifies this
      ensures vertices == old(vertices) + Grid(c, level, level + 1)
      ensures indices == old(indices) + Triangles(|old(vertices)|, level, level)
    {
      var offset := |vertices|;
      var verts := PatchVertices(c, level);
      vertices := vertices + verts;
      AddPatchIndices(offset, level);
    }

    /** The index loops of tesselate: two triangles per grid cell, cell rows in order. */
    method AddPatchIndices(offset: nat, level: nat)
      modifies `indices
      ensures indices == old(indices) + Triangles(offset, level, level)
    {
      var l1 := level + 1;
      for i := 0 to level
        invariant indices == old(indices) + Triangles(offset, level, i)
      {
        AddCellRow(offset, l1, i, level);
      }
    }

    /** The inner index loop of tesselate: the two triangles of each of the n cells of cell row i. */
    method AddCellRow(offset: nat, l1: nat, i: nat, n: nat)
      modifies `indices
      ensures indices == old(indices) + QuadRow(offset, l1, i, n)
    {
      for j := 0 to n
        invariant indices == old(indices) + QuadRow(offset, l1, i, j)
      {
        indices := indices + [offset + i * l1 + j, offset + (i + 1) * l1 + (j + 1), offset + i * l1 + (j + 1)];
        indices := indices + [offset + (i + 1) * l1 + (j + 1), offset + i * l1 + j, offset + (i + 1) * l1 + j];
      }
    }

    /**
     * A planar mesh face: append the mesh-vertex offsets triple by triple with the second and
     * third swapped, turning the file's clockwise triangles around.
     */
    method AddMeshFace(meshVertices: seq<nat>, meshVertexOffset: nat, meshVertexCount: nat)
      requires meshVertexCount % 3 == 0 && meshVertexOffset + meshVertexCount <= |meshVertices|
      modifies `indices
      ensures indices == old(indices) + SwapWinding(meshVertices[meshVertexOffset..meshVertexOffset + meshVertexCount])
    {
      ghost var face := meshVertices[meshVertexOffset..meshVertexOffset + meshVertexCount];
      var i := 0;
      while i < meshVertexCount
        invariant i <= meshVertexCount && i % 3 == 0
        invariant indices == old(indices) + SwapWinding(face[..i])
      {
        SwapWindingStep(face, i);
        indices := indices + [meshVertices[meshVertexOffset + i], meshVertices[meshVertexOffset + i + 2],
                              meshVertices[meshVertexOffset + i + 1]];
        i := i + 3;
      }
      assert face[..i] == face;
    }
  }

  /** Each triple (a, b, c) becomes (a, c, b). */
  function SwapWinding(s: seq<nat>): (r: seq<nat>)
    requires |s| % 3 == 0
    ensures |r| == |s|
  {
    if s == [] then [] else [s[0], s[2], s[1]] + SwapWinding(s[3..])
  }

  lemma {:induction false} SwapWindingAppend(s: seq<nat>, t: seq<nat>)
    requires |s| % 3 == 0 && |t| % 3 == 0
    ensures SwapWinding(s + t) == SwapWinding(s) + SwapWinding(t)
    decreases |s|
  {
    if s != [] {
      assert (s + t)[3..] == s[3..] + t;
      SwapWindingAppend(s[3..], t);
    } else {
      assert s + t == t;
    }
  }

  lemma SwapWindingStep(face: seq<nat>, i: nat)
    requires |face| % 3 == 0 && i % 3 == 0 && i < |face|
    ensures i + 3 <= |face|
    ensures SwapWinding(face[..i + 3]) == SwapWinding(face[..i]) + [face[i], face[i + 2], face[i + 1]]
  {
    assert face[..i + 3] == face[..i] + face[i..i + 3];
    SwapWindingAppend(face[..i], face[i..i + 3]);
  }

  /** Swapping twice restores the triangles. */
  lemma {:induction false} SwapWindingInvolution(s: seq<nat>)
    requires |s| % 3 == 0
    ensures SwapWinding(SwapWinding(s)) == s
    decreases |s|
  {
    if s != [] {
      SwapWindingInvolution(s[3..]);
      var r := SwapWinding(s);
      assert r[..3] == [s[0], s[2], s[1]] && r[3..] == SwapWinding(s[3..]);
      assert SwapWinding(r) == [s[0], s[1], s[2]] + SwapWinding(r[3..]);
      assert s == [s[0], s[1], s[2]] + s[3..];
    }
  }

  /** No index is gained or lost. */
  lemma {:induction false} SwapWindingPermutes(s: seq<nat>)
    requires |s| % 3 == 0
    ensures multiset(SwapWinding(s)) == multiset(s)
    decreases |s|
  {
    if s != [] {
      var rest := s[3..];
      SwapWindingPermutes(rest);
      FirstTriangle(s);
      SwappedTriangle(s[0], s[1], s[2]);
      assert multiset(SwapWinding(s)) == multiset([s[0], s[2], s[1]]) + multiset(SwapWinding(rest));
      assert multiset(s) == multiset([s[0], s[1], s[2]]) + multiset(rest);
    }
  }

  lemma FirstTriangle(s: seq<nat>)
    requires |s| >= 3
    ensures s == [s[0], s[1], s[2]] + s[3..]
  {
  }

  lemma SwappedTriangle(a: nat, b: nat, c: nat)
    ensures multiset([a, c, b]) == multiset([a, b, c])
  {
  }

  // ---------------------------------------------------------------------------------------
  // Light maps

  const LIGHTMAP_PIXELS: nat := 128 * 128

  /** Pixel i of an RGBA light map. */
  function Pixel(data: seq<bv8>, i: nat): seq<bv8>
    requires 4 * i + 4 <= |data|
  {
    data[4 * i..4 * i + 4]
  }

  lemma PixelOfPrefix(a: seq<bv8>, b: seq<bv8>, n: nat, p: nat)
    requires 4 * p + 4 <= n <= |a| && n <= |b| && a[..n] == b[..n]
    ensures Pixel(a, p) == Pixel(b, p)
  {
    assert Pixel(a, p) == a[..n][4 * p..4 * p + 4];
    assert Pixel(b, p) == b[..n][4 * p..4 * p + 4];
  }

  /** Pixel p of the expanded map holds the three bytes of pixel p of the file and an alpha of 255. */
  predicate PixelHolds(data: seq<bv8>, file: seq<bv8>, pos: nat, p: nat)
    requires |data| == 4 * LIGHTMAP_PIXELS && pos + 3 * LIGHTMAP_PIXELS <= |file| && p < LIGHTMAP_PIXELS
  {
    Pixel(data, p) == [file[pos + 3 * p], file[pos + 3 * p + 1], file[pos + 3 * p + 2], 255]
  }

  /**
   * loadLightMaps for one map: 128 x 128 RGB pixels read from the file at pos, each stored
   * as RGBA with an alpha of 255.
   */
  method LoadLightMap(file: seq<bv8>, pos: nat) returns (data: array<bv8>)
    requires pos + 3 * LIGHTMAP_PIXELS <= |file|
    ensures fresh(data) && data.Length == 4 * LIGHTMAP_PIXELS
    ensures forall p :: 0 <= p < LIGHTMAP_PIXELS ==> PixelHolds(data[..], file, pos, p)
  {
    data := new bv8[4 * LIGHTMAP_PIXELS];
    for i := 0 to LIGHTMAP_PIXELS
      invariant forall p :: 0 <= p < i ==> PixelHolds(data[..], file, pos, p)
    {
      ghost var prev := data[..];
      assert forall p :: 0 <= p < i ==> PixelHolds(prev, file, pos, p);
      data[i * 4] := file[pos + 3 * i];
      data[i * 4 + 1] := file[pos + 3 * i + 1];
      data[i * 4 + 2] := file[pos + 3 * i + 2];
      data[i * 4 + 3] := 255;
      assert PixelHolds(data[..], file, pos, i);
      assert data[..][..4 * i] == prev[..4 * i];
      forall p | 0 <= p < i
        ensures PixelHolds(data[..], file, pos, p)
      {
        assert PixelHolds(prev, file, pos, p);
        PixelOfPrefix(data[..], prev, 4 * i, p);
      }
    }
  }
}
