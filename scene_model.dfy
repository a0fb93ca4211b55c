/**
 * Axis-aligned bounding boxes (aabb_s) and the mesh asset (Mesh) of model.cpp.
 *
 * A box is a value (the source copies aabb_s freely), so its operations are functions that
 * return the updated box; a mesh is an object whose setters and clear() update it in place.
 * Float coordinates are reals; the matrix of aabb_s::transform is a function on points.
 */
module SceneModel {
  import opened Numeric
  import opened Wrappers

  datatype Aabb = Aabb(min: Vec3, max: Vec3)

  /**
   * The default box as model.hpp writes it: min at FLT_MAX and max at
   * std::numeric_limits<float>::min(), the smallest POSITIVE float, not the most negative one.
   */
  const DefaultAabbAsWritten := Aabb(Vec3(FLT_MAX, FLT_MAX, FLT_MAX), Vec3(FLT_MIN, FLT_MIN, FLT_MIN))

  /** The empty box the default is meant to be: min at FLT_MAX, max at -FLT_MAX (lowest()). */
  const DefaultAabb := Aabb(Vec3(FLT_MAX, FLT_MAX, FLT_MAX), Vec3(-FLT_MAX, -FLT_MAX, -FLT_MAX))

  function VMin(a: Vec3, b: Vec3): Vec3
  {
    Vec3(if a.x <= b.x then a.x else b.x, if a.y <= b.y then a.y else b.y, if a.z <= b.z then a.z else b.z)
  }

  function VMax(a: Vec3, b: Vec3): Vec3
  {
    Vec3(if a.x >= b.x then a.x else b.x, if a.y >= b.y then a.y else b.y, if a.z >= b.z then a.z else b.z)
  }

  /** Componentwise a <= b. */
  predicate Le(a: Vec3, b: Vec3)
  {
    a.x <= b.x && a.y <= b.y && a.z <= b.z
  }

  /** aabb_s::inside: the point lies in the closed box. */
  predicate Inside(b: Aabb, p: Vec3)
  {
    Le(b.min, p) && Le(p, b.max)
  }

  /** Box a lies within box c (bound by bound). */
  predicate Within(a: Aabb, c: Aabb)
  {
    Le(c.min, a.min) && Le(a.max, c.max)
  }

  /** A coordinate representable as a finite float. */
  predicate InFloatRange(p: Vec3)
  {
    Le(Vec3(-FLT_MAX, -FLT_MAX, -FLT_MAX), p) && Le(p, Vec3(FLT_MAX, FLT_MAX, FLT_MAX))
  }

  /** aabb_s::set(vec3): grow the box to take in the point. */
  function SetPoint(b: Aabb, p: Vec3): (r: Aabb)
    ensures Inside(r, p)
    ensures Within(b, r)
    ensures forall c :: Within(b, c) && Inside(c, p) ==> Within(r, c)
  {
    Aabb(VMin(p, b.min), VMax(p, b.max))
  }

  /** aabb_s::merge: the least box holding both boxes. */
  function Merge(a: Aabb, b: Aabb): (r: Aabb)
    ensures Within(a, r) && Within(b, r)
    ensures forall c :: Within(a, c) && Within(b, c) ==> Within(r, c)
  {
    Aabb(VMin(a.min, b.min), VMax(a.max, b.max))
  }

  /** aabb_s::set(aabb): grow this box to take in another; the same box as their merge. */
  function SetBox(b: Aabb, a: Aabb): (r: Aabb)
    ensures r == Merge(b, a)
  {
    Aabb(VMin(a.min, b.min), VMax(a.max, b.max))
  }

  /** Every point inside either box is inside their merge. */
  lemma MergeContains(a: Aabb, b: Aabb, p: Vec3)
    requires Inside(a, p) || Inside(b, p)
    ensures Inside(Merge(a, b), p)
  {
  }

  /** aabb_s::getPoint: corner i for i < 8 (bit pattern per the switch), the origin otherwise. */
  function GetPoint(b: Aabb, i: nat): (p: Vec3)
    requires i < 256
    ensures i == 0 ==> p == b.min
    ensures i == 7 ==> p == b.max
    ensures i >= 8 ==> p == Vec3(0.0, 0.0, 0.0)
    ensures i < 8 && Le(b.min, b.max) ==> Inside(b, p)
    ensures i < 8 ==> (p.x == b.min.x || p.x == b.max.x) && (p.y == b.min.y || p.y == b.max.y)
                        && (p.z == b.min.z || p.z == b.max.z)
  {
    match i
    case 0 => b.min
    case 1 => Vec3(b.min.x, b.min.y, b.max.z)
    case 2 => Vec3(b.min.x, b.max.y, b.min.z)
    case 3 => Vec3(b.max.x, b.min.y, b.min.z)
    case 4 => Vec3(b.max.x, b.max.y, b.min.z)
    case 5 => Vec3(b.max.x, b.min.y, b.max.z)
    case 6 => Vec3(b.min.x, b.max.y, b.max.z)
    case 7 => b.max
    case _ => Vec3(0.0, 0.0, 0.0)
  }

  /** The box grown by each point in turn, as a loop of set(vec3) calls builds it. */
  function Bound(acc: Aabb, pts: seq<Vec3>): Aabb
    decreases |pts|
  {
    if pts == [] then acc else Bound(SetPoint(acc, pts[0]), pts[1..])
  }

  /** Every point, and everything in the starting box, is inside the grown box. */
  lemma {:induction false} BoundContains(acc: Aabb, pts: seq<Vec3>)
    ensures Within(acc, Bound(acc, pts))
    ensures forall i :: 0 <= i < |pts| ==> Inside(Bound(acc, pts), pts[i])
    decreases |pts|
  {
    if pts != [] {
      var next := SetPoint(acc, pts[0]);
      BoundContains(next, pts[1..]);
      assert forall i :: 1 <= i < |pts| ==> pts[i] == pts[1..][i - 1];
    }
  }

  /** The grown box is the least one: any box holding the start and every point holds it. */
  lemma {:induction false} BoundLeast(acc: Aabb, pts: seq<Vec3>, c: Aabb)
    requires Within(acc, c)
    requires forall i :: 0 <= i < |pts| ==> Inside(c, pts[i])
    ensures Within(Bound(acc, pts), c)
    decreases |pts|
  {
    if pts != [] {
      assert Inside(c, pts[0]);
      BoundLeast(SetPoint(acc, pts[0]), pts[1..], c);
    }
  }

  /** From the intended default, growing by a finite point gives exactly that point's box. */
  lemma DefaultGrowsToPoint(p: Vec3)
    requires InFloatRange(p)
    ensures SetPoint(DefaultAabb, p) == Aabb(p, p)
  {
  }

  /** As written, a point with a coordinate below FLT_MIN does not give its own box. */
  lemma DefaultAsWrittenOvershoots()
    ensures SetPoint(DefaultAabbAsWritten, Vec3(-1.0, -1.0, -1.0)).max == Vec3(FLT_MIN, FLT_MIN, FLT_MIN)
    ensures SetPoint(DefaultAabbAsWritten, Vec3(-1.0, -1.0, -1.0)) != Aabb(Vec3(-1.0, -1.0, -1.0), Vec3(-1.0, -1.0, -1.0))
  {
  }

  function Corners(b: Aabb): (cs: seq<Vec3>)
    ensures |cs| == 8 && forall i :: 0 <= i < 8 ==> cs[i] == GetPoint(b, i)
  {
    [GetPoint(b, 0), GetPoint(b, 1), GetPoint(b, 2), GetPoint(b, 3),
     GetPoint(b, 4), GetPoint(b, 5), GetPoint(b, 6), GetPoint(b, 7)]
  }

  /**
   * aabb_s::transform: the box of the eight transformed corners, grown from the default box
   * (the intended one; see DefaultAabbAsWritten).
   */
  method Transform(b: Aabb, m: Vec3 -> Vec3) returns (r: Aabb)
    ensures r == Bound(DefaultAabb, seq(8, i requires 0 <= i < 8 => m(GetPoint(b, i))))
    ensures forall i :: 0 <= i < 8 ==> Inside(r, m(GetPoint(b, i)))
  {
    ghost var pts := seq(8, i requires 0 <= i < 8 => m(GetPoint(b, i)));
    r := DefaultAabb;
    var i := 0;
    while i < 8
      invariant 0 <= i <= 8
      invariant Bound(r, pts[i..]) == Bound(DefaultAabb, pts)
    {
      assert pts[i..][1..] == pts[i + 1..];
      r := SetPoint(r, m(GetPoint(b, i)));
      i := i + 1;
    }
    BoundContains(DefaultAabb, pts);
    assert forall i :: 0 <= i < 8 ==> pts[i] == m(GetPoint(b, i));
  }

  /** With the identity matrix, transforming a finite non-empty box gives the box back. */
  lemma IdentityTransform(b: Aabb)
    requires Le(b.min, b.max) && InFloatRange(b.min) && InFloatRange(b.max)
    ensures Bound(DefaultAabb, Corners(b)) == b
  {
    var cs := Corners(b);
    DefaultGrowsToPoint(b.min);
    BoundContains(DefaultAabb, cs);
    BoundLeast(DefaultAabb, cs, b);
  }

  // ---------------------------------------------------------------------------------------
  // Meshes

  datatype Topology = UNKNOWN | POINT_LIST | LINE_LIST | LINE_STRIP | TRIANGLE_LIST | TRIANGLE_STRIP | TRIANGLE_FAN

  /** The index or vertex count of one primitive of a topology, 0 for UNKNOWN. */
  function PerPrimitive(t: Topology): nat
  {
    match t
    case POINT_LIST => 1
    case LINE_LIST | LINE_STRIP => 2
    case TRIANGLE_LIST | TRIANGLE_STRIP | TRIANGLE_FAN => 3
    case UNKNOWN => 0
  }

  /**
   * getPrimitiveCount over the index count (with indices) or the vertex count: the number of
   * whole primitives of that many elements, 0 for UNKNOWN.
   */
  function PrimitiveCountOf(t: Topology, hasIndices: bool, indexCount: nat, vertexCount: nat): (r: nat)
    ensures var n := if hasIndices then indexCount else vertexCount;
            if t == UNKNOWN then r == 0
            else PerPrimitive(t) * r <= n < PerPrimitive(t) * (r + 1)
  {
    var n := if hasIndices then indexCount else vertexCount;
    match t
    case POINT_LIST => n
    case LINE_LIST | LINE_STRIP => n / 2
    case TRIANGLE_LIST | TRIANGLE_STRIP | TRIANGLE_FAN => n / 3
    case UNKNOWN => 0
  }

  class Mesh {
    var topology: Topology
    var indices: seq<nat>
    /** Vertex positions; the other vertex attributes are not part of this model. */
    var vertices: seq<Vec3>
    var hasIndices: bool
    var hasPositions: bool
    var hasNormals: bool
    var hasTangents: bool
    var hasTexCoords0: bool
    var hasTexCoords1: bool
    var hasColors0: bool
    var aabb: Aabb
    /** The custom data map: key to the byte size of its buffer. */
    var customData: map<string, nat>

    /** Indices that all address an existing vertex. */
    predicate IndicesValid()
      reads this
    {
      forall j :: 0 <= j < |indices| ==> indices[j] < |vertices|
    }

    constructor ()
      ensures topology == UNKNOWN && indices == [] && vertices == [] && customData == map[]
      ensures !hasIndices && !hasPositions && !hasNormals && !hasTangents
      ensures !hasTexCoords0 && !hasTexCoords1 && !hasColors0
    {
      topology := UNKNOWN;
      indices, vertices := [], [];
      hasIndices, hasPositions, hasNormals, hasTangents := false, false, false, false;
      hasTexCoords0, hasTexCoords1, hasColors0 := false, false, false;
      aabb := DefaultAabb;
      customData := map[];
    }

    function PrimitiveCount(): nat
      reads this
    {
      PrimitiveCountOf(topology, hasIndices, |indices|, |vertices|)
    }

    /**
     * The three vertex indices getTriangle reads for triangle i: entries 3i..3i+2 of the
     * index buffer with indices, the vertices 3i..3i+2 themselves without.
     */
    function TriangleIndices(i: nat): (r: seq<nat>)
      reads this
      requires if hasIndices then 3 * i + 2 < |indices| else 3 * i + 2 < |vertices|
      ensures |r| == 3
      ensures forall k :: 0 <= k < 3 ==> r[k] == (if hasIndices then indices[3 * i + k] else 3 * i + k)
      ensures IndicesValid() ==> forall k :: 0 <= k < 3 ==> r[k] < |vertices|
    {
      if hasIndices then indices[3 * i..3 * i + 3] else [3 * i, 3 * i + 1, 3 * i + 2]
    }

    /** clear(): back to an unknown, empty mesh with every has-flag false and the default box. */
    method Clear()
      modifies `topology, `indices, `vertices, `hasIndices, `hasPositions, `hasNormals, `hasTangents
      modifies `hasTexCoords0, `hasTexCoords1, `hasColors0, `aabb
      ensures topology == UNKNOWN && indices == [] && vertices == []
      ensures !hasIndices && !hasPositions && !hasNormals && !hasTangents
      ensures !hasTexCoords0 && !hasTexCoords1 && !hasColors0
      ensures aabb == DefaultAabb
    {
      topology := UNKNOWN;
      indices, vertices := [], [];
      hasIndices, hasPositions, hasNormals, hasTangents := false, false, false, false;
      hasTexCoords0, hasTexCoords1, hasColors0 := false, false, false;
      aabb := DefaultAabb;
    }

    /** getCustomData: the entry for the key, or null when there is none. */
    function GetCustomData(key: string): (r: Option<nat>)
      reads this
      ensures r.Some? <==> key in customData
      ensures r.Some? ==> r.value == customData[key]
    {
      if key in customData then Some(customData[key]) else None
    }

    /**
     * addCustomData: emplace an empty entry; an existing entry is kept as it is. Returns
     * the entry's byte size.
     */
    method AddCustomData(key: string) returns (bytes: nat)
      modifies `customData
      ensures key in customData && bytes == customData[key]
      ensures customData == if key in old(customData) then old(customData) else old(customData)[key := 0]
    {
      if key !in customData {
        customData := customData[key := 0];
      }
      bytes := customData[key];
    }

    /** deleteCustomData: drop the entry if there is one. */
    method DeleteCustomData(key: string)
      modifies `customData
      ensures customData == old(customData) - {key}
    {
      customData := customData - {key};
    }
  }

  /** Every triangle numbered below getPrimitiveCount can be fetched by getTriangle. */
  lemma TrianglesBelowCount(m: Mesh, i: nat)
    requires m.topology in {TRIANGLE_LIST, TRIANGLE_STRIP, TRIANGLE_FAN}
    requires i < m.PrimitiveCount()
    ensures if m.hasIndices then 3 * i + 2 < |m.indices| else 3 * i + 2 < |m.vertices|
  {
  }
}
