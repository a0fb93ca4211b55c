/**
 * The glTF exporter (exporter/gltf.cpp): the enumeration and MIME mappings, the binary
 * buffer that mesh data is packed into (its size computed up front, then filled accessor
 * by accessor at 4-byte aligned offsets), and the file names chosen for exported images.
 *
 * The bytes written into the buffer are not modelled, except for the texture coordinates of
 * the second set (see SaveUV1sAsWritten); the buffer is the running pointer and the buffer
 * views and accessors recorded for it.
 */
module GltfExport {
  import opened Numeric
  import opened Wrappers
  import opened PublicUtil
  import SceneModel
  import SceneGraph
  import ImageAsset
  import MaterialAsset

  const UINT64_MODULUS: nat := 0x1_0000_0000_0000_0000
  const ROUND_UP_CONST: nat := 4

  /** TINYGLTF_COMPONENT_TYPE_* */
  const UNSIGNED_BYTE: nat := 5121
  const UNSIGNED_SHORT: nat := 5123
  const UNSIGNED_INT: nat := 5125
  const FLOAT: nat := 5126

  // ---------------------------------------------------------------------------------------
  // Rounding up to the buffer alignment

  lemma {:induction false} Pow2Add(a: nat, b: nat)
    ensures Pow2(a + b) == Pow2(a) * Pow2(b)
    decreases a
  {
    if a > 0 {
      Pow2Add(a - 1, b);
    }
  }

  lemma Pow2Values()
    ensures Pow2(2) == 4 && Pow2(64) == UINT64_MODULUS
  {
    assert Pow2(2) == 4;
    assert Pow2(4) == 16;
    Pow2Add(4, 4);
    assert Pow2(8) == 0x100;
    Pow2Add(8, 8);
    assert Pow2(16) == 0x1_0000;
    Pow2Add(16, 16);
    assert Pow2(32) == 0x1_0000_0000;
    Pow2Add(32, 32);
  }

  /** The least multiple of 4 that is not below n. */
  function RoundUp4(n: nat): (r: nat)
    ensures r % ROUND_UP_CONST == 0 && n <= r < n + ROUND_UP_CONST
  {
    (n + 3) / 4 * 4
  }

  /**
   * The exporter's rountUpToMultipleOf(n, 4) on uint64: (n + 3) & -4. Below the word limit it
   * is RoundUp4.
   */
  function RountUpToMultipleOf(n: nat, m: nat): nat
    requires n < UINT64_MODULUS && m < UINT64_MODULUS
  {
    Pow2Values();
    RoundUpToMultipleOf(n, m, 64)
  }

  lemma RountUpToMultipleOfIsRoundUp4(n: nat)
    requires n + 3 < UINT64_MODULUS
    ensures RountUpToMultipleOf(n, ROUND_UP_CONST) == RoundUp4(n)
  {
    Pow2Values();
    RoundUpToMultipleOfPow2(n, 2, 64);
    var r := RountUpToMultipleOf(n, ROUND_UP_CONST);
    var q := RoundUp4(n);
    assert r % 4 == 0 && q % 4 == 0 && n <= r < n + 4 && n <= q < n + 4;
    MultiplesOfFourApart(r, q);
  }

  lemma MultiplesOfFourApart(r: nat, q: nat)
    requires r % 4 == 0 && q % 4 == 0 && r < q + 4 && q < r + 4
    ensures r == q
  {
    var a, b := r / 4, q / 4;
    assert r == 4 * a && q == 4 * b;
  }

  // ---------------------------------------------------------------------------------------
  // Buffer layout of a mesh

  /** What calcBufferSize and exportMesh read of a mesh. */
  datatype MeshData = MeshData(
    hasIndices: bool, indexCount: nat, vertexCount: nat,
    hasPositions: bool, hasNormals: bool, hasTangents: bool, hasColors0: bool,
    hasTexCoords0: bool, hasTexCoords1: bool,
    customBytes: seq<nat>)

  /** The largest value an index of the given byte width can hold. */
  function MaxIndexValue(width: nat): nat
  {
    if width == 1 then 0xFF else if width == 2 then 0xFFFF else 0xFFFF_FFFF
  }

  /**
   * saveIndices' index width: the narrowest of 1, 2 and 4 bytes whose largest value the
   * vertex count does not exceed, so every index (below the vertex count) stays strictly
   * below that value, which glTF reserves for primitive restart.
   */
  function IndexWidth(vertexCount: nat): (w: nat)
    ensures w == 1 || w == 2 || w == 4
    ensures vertexCount <= 0xFFFF_FFFF ==> vertexCount <= MaxIndexValue(w)
    ensures w == 2 ==> vertexCount > MaxIndexValue(1)
    ensures w == 4 ==> vertexCount > MaxIndexValue(2)
  {
    if vertexCount <= 0xFF then 1 else if vertexCount <= 0xFFFF then 2 else 4
  }

  /** A byte of the binary buffer. */
  newtype Byte = b: int | 0 <= b < 256

  /** 256^n: the number of values n bytes can hold. */
  function Pow256(n: nat): (r: nat)
    ensures r >= 1
  {
    if n == 0 then 1 else 256 * Pow256(n - 1)
  }

  lemma IndexWidthModulus(w: nat)
    requires w == 1 || w == 2 || w == 4
    ensures MaxIndexValue(w) + 1 == Pow256(w)
  {
    assert Pow256(1) == 0x100 && Pow256(2) == 0x1_0000;
    assert Pow256(4) == 0x1_0000_0000;
  }

  /** x as n little-endian bytes (the byte order glTF buffers use). */
  function LittleEndian(x: nat, n: nat): (bs: seq<Byte>)
    ensures |bs| == n
  {
    if n == 0 then [] else [(x % 256) as Byte] + LittleEndian(x / 256, n - 1)
  }

  /** The number that little-endian bytes spell. */
  function FromLittleEndian(bs: seq<Byte>): (x: nat)
    ensures x < Pow256(|bs|)
  {
    if bs == [] then 0 else bs[0] as nat + 256 * FromLittleEndian(bs[1..])
  }

  lemma {:induction false} LittleEndianRoundTrip(x: nat, n: nat)
    requires x < Pow256(n)
    ensures FromLittleEndian(LittleEndian(x, n)) == x
  {
    if n > 0 {
      var q, r := x / 256, x % 256;
      QuotientBelow(x, Pow256(n - 1));
      var bs := LittleEndian(x, n);
      assert bs[0] as nat == r && bs[1..] == LittleEndian(q, n - 1);
      LittleEndianRoundTrip(q, n - 1);
    }
  }

  lemma QuotientBelow(x: nat, p: nat)
    requires x < 256 * p
    ensures x / 256 < p && x == 256 * (x / 256) + x % 256
  {
  }

  /** saveIndices' store of one index: static_cast to the index width, written in buffer byte order. */
  function EncodeIndex(index: nat, width: nat): (bs: seq<Byte>)
    ensures |bs| == width
  {
    LittleEndian(index % Pow256(width), width)
  }

  /** The bytes saveIndices writes at the accessor's offset: each index at the index width in turn. */
  function EncodeIndices(indices: seq<nat>, width: nat): (bs: seq<Byte>)
    ensures |bs| == |indices| * width
  {
    if indices == [] then [] else EncodeIndices(indices[..|indices| - 1], width) + EncodeIndex(indices[|indices| - 1], width)
  }

  lemma MulLe(a: nat, b: nat, w: nat)
    requires a <= b
    ensures a * w <= b * w
  {
  }

  lemma ModSmall(x: nat, p: nat)
    requires x < p
    ensures x % p == x
  {
  }

  /** An index that fits the width is read back from its place in the encoding unchanged. */
  lemma DecodeEncodedIndex(indices: seq<nat>, width: nat, i: nat)
    requires i < |indices| && indices[i] < Pow256(width)
    ensures i * width + width <= |indices| * width
    ensures FromLittleEndian(EncodeIndices(indices, width)[i * width..i * width + width]) == indices[i]
  {
    var x := indices[i];
    ModSmall(x, Pow256(width));
    EncodeIndicesAt(indices, width, i);
    LittleEndianRoundTrip(x, width);
  }

  /** Index i occupies bytes i*width up to (i+1)*width of the encoding. */
  lemma {:induction false} EncodeIndicesAt(indices: seq<nat>, width: nat, i: nat)
    requires i < |indices|
    ensures i * width + width <= |indices| * width
    ensures EncodeIndices(indices, width)[i * width..i * width + width] == EncodeIndex(indices[i], width)
    decreases |indices|
  {
    MulLe(i + 1, |indices|, width);
    var init := indices[..|indices| - 1];
    var a := EncodeIndices(init, width);
    var all := EncodeIndices(indices, width);
    assert all == a + EncodeIndex(indices[|indices| - 1], width);
    if i < |init| {
      EncodeIndicesAt(init, width, i);
      assert all[i * width..i * width + width] == a[i * width..i * width + width];
    } else {
      assert all[i * width..i * width + width] == all[|a|..];
    }
  }

  function IndexBytes(m: MeshData): nat
  {
    if m.hasIndices then RoundUp4(m.indexCount * IndexWidth(m.vertexCount)) else 0
  }

  /** The vertex attributes: positions and normals 12 bytes, colours and tangents 16, each uv set 8. */
  function AttributeBytes(m: MeshData): nat
  {
    var n := m.vertexCount;
    AttrBytes(m.hasPositions, n, 12) + AttrBytes(m.hasColors0, n, 16) + AttrBytes(m.hasNormals, n, 12)
    + AttrBytes(m.hasTangents, n, 16) + AttrBytes(m.hasTexCoords0, n, 8) + AttrBytes(m.hasTexCoords1, n, 8)
  }

  /** One attribute: its elements rounded up to the buffer alignment, if the mesh has it. */
  function AttrBytes(has: bool, vertexCount: nat, elementSize: nat): nat
  {
    if has then RoundUp4(vertexCount * elementSize) else 0
  }

  function CustomBytes(sizes: seq<nat>): nat
  {
    if sizes == [] then 0 else CustomBytes(sizes[..|sizes| - 1]) + RoundUp4(sizes[|sizes| - 1])
  }

  /** calcBufferSize's contribution of one mesh. */
  function MeshBufferSize(m: MeshData): nat
  {
    IndexBytes(m) + AttributeBytes(m) + CustomBytes(m.customBytes)
  }

  /** calcBufferSize over the meshes of all models (animation data is not part of this model). */
  function CalcBufferSize(ms: seq<MeshData>): nat
  {
    if ms == [] then 0 else CalcBufferSize(ms[..|ms| - 1]) + MeshBufferSize(ms[|ms| - 1])
  }

  lemma CalcBufferSizeAppend(ms: seq<MeshData>, m: MeshData)
    ensures CalcBufferSize(ms + [m]) == CalcBufferSize(ms) + MeshBufferSize(m)
  {
    assert (ms + [m])[..|ms|] == ms;
  }

  lemma CustomBytesAppend(sizes: seq<nat>, s: nat)
    ensures CustomBytes(sizes + [s]) == CustomBytes(sizes) + RoundUp4(s)
  {
    assert (sizes + [s])[..|sizes|] == sizes;
  }

  // ---------------------------------------------------------------------------------------
  // The second texture-coordinate set

  datatype Vertex = Vertex(position: Vec3, uv0: Vec2, uv1: Vec2)

  /** saveUV1s as written: it copies texture_coordinates_0 into the TEXCOORD_1 data. */
  function SaveUV1sAsWritten(vs: seq<Vertex>): (r: seq<Vec2>)
    ensures |r| == |vs| && forall i :: 0 <= i < |vs| ==> r[i] == vs[i].uv0
  {
    seq(|vs|, i requires 0 <= i < |vs| => vs[i].uv0)
  }

  /** saveUV1s as intended: TEXCOORD_1 carries each vertex's second coordinate set. */
  function SaveUV1s(vs: seq<Vertex>): (r: seq<Vec2>)
    ensures |r| == |vs| && forall i :: 0 <= i < |vs| ==> r[i] == vs[i].uv1
  {
    seq(|vs|, i requires 0 <= i < |vs| => vs[i].uv1)
  }

  /** A vertex whose two coordinate sets differ loses its second set on export as written. */
  lemma SaveUV1sAsWrittenLosesSecondSet()
    ensures var vs := [Vertex(Vec3(0.0, 0.0, 0.0), Vec2(0.0, 0.0), Vec2(1.0, 1.0))];
            SaveUV1sAsWritten(vs) != SaveUV1s(vs) && SaveUV1s(vs)[0] == vs[0].uv1
  {
    var vs := [Vertex(Vec3(0.0, 0.0, 0.0), Vec2(0.0, 0.0), Vec2(1.0, 1.0))];
    assert SaveUV1sAsWritten(vs)[0] == Vec2(0.0, 0.0);
  }

  // ---------------------------------------------------------------------------------------
  // Image file names

  function DigitChar(d: nat): char
    requires d < 10
  {
    "0123456789"[d]
  }

  /** std::to_string of an unsigned number. */
  function Decimal(n: nat): (s: string)
    ensures |s| >= 1
    decreases n
  {
    if n < 10 then [DigitChar(n)] else Decimal(n / 10) + [DigitChar(n % 10)]
  }

  lemma {:induction false} DecimalInjective(a: nat, b: nat)
    requires Decimal(a) == Decimal(b)
    ensures a == b
    decreases a
  {
    if a >= 10 && b >= 10 {
      var da, db := Decimal(a), Decimal(b);
      assert da[..|da| - 1] == Decimal(a / 10) && db[..|db| - 1] == Decimal(b / 10);
      DecimalInjective(a / 10, b / 10);
      assert da[|da| - 1] == DigitChar(a % 10) && db[|db| - 1] == DigitChar(b % 10);
    }
  }

  /** The output path tried with a given appendix: dir/stem.ext, then dir/stem_1.ext, dir/stem_2.ext, ... */
  function OutFilepath(dir: string, stem: string, ext: string, appendix: nat): string
  {
    dir + "/" + OutStem(stem, ext, appendix)
  }

  function OutStem(stem: string, ext: string, appendix: nat): string
  {
    if appendix == 0 then stem + ext else stem + "_" + Decimal(appendix) + ext
  }

  lemma OutFilepathInjective(dir: string, stem: string, ext: string, a: nat, b: nat)
    requires OutFilepath(dir, stem, ext, a) == OutFilepath(dir, stem, ext, b)
    ensures a == b
  {
    var p, q := OutFilepath(dir, stem, ext, a), OutFilepath(dir, stem, ext, b);
    var head := dir + "/" + stem;
    if a != 0 && b != 0 {
      var da, db := Decimal(a), Decimal(b);
      assert p == head + "_" + da + ext && q == head + "_" + db + ext;
      assert |da| == |db|;
      assert da == p[|head| + 1..|head| + 1 + |da|];
      assert db == q[|head| + 1..|head| + 1 + |db|];
      DecimalInjective(a, b);
    }
  }

  /** The paths tried with appendices 0 .. n-1. */
  function PathsBelow(dir: string, stem: string, ext: string, n: nat): set<string>
  {
    if n == 0 then {} else PathsBelow(dir, stem, ext, n - 1) + {OutFilepath(dir, stem, ext, n - 1)}
  }

  /** The paths for appendices 0..n-1 are n distinct paths. */
  lemma {:induction false} PathsCount(dir: string, stem: string, ext: string, n: nat)
    ensures |PathsBelow(dir, stem, ext, n)| == n
  {
    if n > 0 {
      PathsCount(dir, stem, ext, n - 1);
      NextPathIsNew(dir, stem, ext, n - 1);
      AddNew(PathsBelow(dir, stem, ext, n - 1), OutFilepath(dir, stem, ext, n - 1));
    }
  }

  /** Every path below n is the path of some appendix below n. */
  lemma {:induction false} PathsBelowMembers(dir: string, stem: string, ext: string, n: nat, q: string)
    requires q in PathsBelow(dir, stem, ext, n)
    ensures exists a :: 0 <= a < n && OutFilepath(dir, stem, ext, a) == q
  {
    if q != OutFilepath(dir, stem, ext, n - 1) {
      PathsBelowMembers(dir, stem, ext, n - 1, q);
    }
  }

  lemma NextPathIsNew(dir: string, stem: string, ext: string, n: nat)
    ensures OutFilepath(dir, stem, ext, n) !in PathsBelow(dir, stem, ext, n)
  {
    var p := OutFilepath(dir, stem, ext, n);
    if p in PathsBelow(dir, stem, ext, n) {
      PathsBelowMembers(dir, stem, ext, n, p);
      var a :| 0 <= a < n && OutFilepath(dir, stem, ext, a) == p;
      OutFilepathInjective(dir, stem, ext, a, n);
    }
  }

  lemma AddNew(s: set<string>, x: string)
    requires x !in s
    ensures |s + {x}| == |s| + 1
  {
  }

  lemma {:induction false} SetOfSeqSize(s: seq<string>)
    ensures |Elements(s)| <= |s|
  {
    if s != [] {
      SetOfSeqSize(s[..|s| - 1]);
      assert Elements(s) == Elements(s[..|s| - 1]) + {s[|s| - 1]};
    }
  }

  function Elements(s: seq<string>): set<string>
  {
    set i | 0 <= i < |s| :: s[i]
  }

  lemma {:induction false} SubsetSize(a: set<string>, b: set<string>)
    requires a <= b
    ensures |a| <= |b|
    decreases |a|
  {
    if a != {} {
      var x :| x in a;
      SubsetSize(a - {x}, b - {x});
    }
  }

  /** There are only as many used paths as entries in the list, so some appendix up to |used| is free. */
  lemma UsedBound(used: seq<string>, dir: string, stem: string, ext: string, n: nat)
    requires forall a :: 0 <= a < n ==> OutFilepath(dir, stem, ext, a) in used
    ensures n <= |used|
  {
    PathsCount(dir, stem, ext, n);
    SetOfSeqSize(used);
    forall q | q in PathsBelow(dir, stem, ext, n)
      ensures q in Elements(used)
    {
      PathsBelowMembers(dir, stem, ext, n, q);
      var i :| 0 <= i < |used| && used[i] == q;
    }
    SubsetSize(PathsBelow(dir, stem, ext, n), Elements(used));
  }

  // ---------------------------------------------------------------------------------------
  // Enumeration mappings

  /** filenameToMimeType's lower-casing (::tolower on ASCII). */
  function ToLower(s: string): (r: string)
    ensures |r| == |s|
  {
    seq(|s|, i requires 0 <= i < |s| => if 'A' <= s[i] <= 'Z' then (s[i] as int + 32) as char else s[i])
  }

  /** filenameToMimeType on a file's extension: PNG, JPEG, BMP and GIF, in any letter case. */
  function FilenameToMimeType(ext: string): (mime: string)
    ensures mime != "" <==> ToLower(ext) in {".png", ".jpg", ".bmp", ".gif"}
  {
    var e := ToLower(ext);
    if e == ".png" then "image/png"
    else if e == ".jpg" then "image/jpeg"
    else if e == ".bmp" then "image/bmp"
    else if e == ".gif" then "image/gif"
    else ""
  }

  /** The MIME type depends only on the lower-cased extension: ".PNG" and ".png" are both PNG. */
  lemma {:induction false} MimeTypeIgnoresCase(ext: string)
    ensures FilenameToMimeType(ToLower(ext)) == FilenameToMimeType(ext)
    ensures FilenameToMimeType(".PNG") == "image/png"
  {
    assert ToLower(ToLower(ext)) == ToLower(ext);
    assert ToLower(".PNG") == ".png";
  }

  /** topologyToTinygltfMode: the glTF 2.0 primitive modes of section 3.7.2.1, -1 for UNKNOWN. */
  function TopologyToMode(t: SceneModel.Topology): (mode: int)
    ensures mode == -1 <==> t == SceneModel.UNKNOWN
    ensures mode in {-1, 0, 1, 3, 4, 5, 6}
  {
    match t
    case POINT_LIST => 0
    case LINE_LIST => 1
    case LINE_STRIP => 3
    case TRIANGLE_LIST => 4
    case TRIANGLE_STRIP => 5
    case TRIANGLE_FAN => 6
    case UNKNOWN => -1
  }

  /** textureWrapToTinygltfTextureWrapType: glTF has no border mode, which falls back to REPEAT (10497). */
  function WrapToGltf(w: ImageAsset.Wrap): (code: nat)
    ensures code in {10497, 33071, 33648}
    ensures w == ImageAsset.CLAMP_TO_BORDER || w == ImageAsset.REPEAT <==> code == 10497
  {
    match w
    case REPEAT => 10497
    case CLAMP_TO_EDGE => 33071
    case MIRRORED_REPEAT => 33648
    case CLAMP_TO_BORDER => 10497
  }

  /**
   * textureFilterToTinygltfTextureFilter: without mipmaps NEAREST 9728 or LINEAR 9729; with
   * mipmaps one of 9984..9987 by the (filter, mipmap filter) pair.
   */
  function FilterToGltf(filter: ImageAsset.Filter, mipmap: bool, mipmapFilter: ImageAsset.Filter): (code: nat)
    ensures !mipmap ==> code in {9728, 9729}
    ensures mipmap ==> 9984 <= code <= 9987
  {
    if !mipmap then
      (if filter == ImageAsset.NEAREST then 9728 else 9729)
    else if filter == ImageAsset.NEAREST && mipmapFilter == ImageAsset.NEAREST then 9984
    else if filter == ImageAsset.LINEAR && mipmapFilter == ImageAsset.NEAREST then 9985
    else if filter == ImageAsset.NEAREST && mipmapFilter == ImageAsset.LINEAR then 9986
    else 9987
  }

  /** getBlendMode: the glTF alphaMode names. */
  function BlendModeName(b: MaterialAsset.BlendMode): (name: string)
    ensures name in {"OPAQUE", "MASK", "BLEND"}
  {
    match b
    case OPAQUE => "OPAQUE"
    case MASK => "MASK"
    case BLEND => "BLEND"
  }

  /** interpolationToString: the glTF sampler interpolation names, "" for NONE. */
  function InterpolationName(i: SceneGraph.Interpolation): (name: string)
    ensures name == "" <==> i == SceneGraph.NONE
  {
    match i
    case NONE => ""
    case LINEAR => "LINEAR"
    case STEP => "STEP"
    case CUBIC_SPLINE => "CUBIC_SPLINE"
  }

  /** Distinct topologies, blend modes and interpolations get distinct glTF names and codes. */
  lemma ExportNamesDistinct(t: SceneModel.Topology, u: SceneModel.Topology, b: MaterialAsset.BlendMode,
                            c: MaterialAsset.BlendMode, i: SceneGraph.Interpolation, j: SceneGraph.Interpolation)
    ensures t != u ==> TopologyToMode(t) != TopologyToMode(u)
    ensures b != c ==> BlendModeName(b) != BlendModeName(c)
    ensures i != j ==> InterpolationName(i) != InterpolationName(j)
  {
  }

  /**
   * textureFormatToTinygltfImage: (bits, components) for the 8- and 16-bit integer formats;
   * other formats leave the image's fields as they were (None).
   */
  function FormatToGltfImage(f: ImageAsset.Format): (r: Option<(nat, nat)>)
    ensures r.Some? <==> ImageAsset.ChannelBytes(f) in {1, 2}
    ensures r.Some? ==> r.value.0 == 8 * ImageAsset.ChannelBytes(f) && r.value.1 == ImageAsset.Channels(f)
  {
    match f
    case R8_UNORM => Some((8, 1))
    case RG8_UNORM => Some((8, 2))
    case RGB8_UNORM | RGB8_SRGB => Some((8, 3))
    case RGBA8_UNORM | RGBA8_SRGB => Some((8, 4))
    case R16_UNORM => Some((16, 1))
    case RG16_UNORM => Some((16, 2))
    case RGB16_UNORM => Some((16, 3))
    case RGBA16_UNORM => Some((16, 4))
    case _ => None
  }

  // ---------------------------------------------------------------------------------------
  // The exporter's state

  datatype BufferView = BufferView(byteOffset: nat, byteLength: nat)
  datatype Accessor = Accessor(bufferView: nat, count: nat, componentType: nat)
  datatype ExportedImage = ExportedImage(uri: string, mimeType: string)

  class Exporter {
    /** The size the buffer was allocated with (calcBufferSize). */
    const bufferSize: nat
    /** gltfBuffer::mPointer: the next free byte. */
    var pointer: nat
    var bufferViews: seq<BufferView>
    var accessors: seq<Accessor>
    var images: seq<ExportedImage>
    var usedImageFilepaths: seq<string>

    /**
     * The written part of the buffer never passes its end, every view starts 4-byte aligned
     * and lies within the written part, and every accessor names an existing view.
     */
    predicate Valid()
      reads this
    {
      pointer <= bufferSize && pointer % ROUND_UP_CONST == 0
      && (forall i :: 0 <= i < |bufferViews| ==>
            bufferViews[i].byteOffset % ROUND_UP_CONST == 0
            && bufferViews[i].byteOffset + bufferViews[i].byteLength <= pointer)
      && (forall i :: 0 <= i < |accessors| ==> accessors[i].bufferView < |bufferViews|)
    }

    /** exportScene's set-up: a buffer of calcBufferSize bytes and empty lists. */
    constructor (meshes: seq<MeshData>)
      ensures Valid() && bufferSize == CalcBufferSize(meshes) && pointer == 0
      ensures bufferViews == [] && accessors == [] && images == [] && usedImageFilepaths == []
    {
      bufferSize := CalcBufferSize(meshes);
      pointer := 0;
      bufferViews, accessors, images, usedImageFilepaths := [], [], [], [];
    }

    /**
     * getAccessor: a view at the current pointer of the given length, an accessor on it, and
     * the pointer moved on by the length rounded up to 4 bytes. The caller then sets the
     * component type, passed in here.
     */
    method GetAccessor(size: nat, count: nat, componentType: nat) returns (index: nat)
      requires Valid() && pointer + RoundUp4(size) <= bufferSize
      modifies `pointer, `bufferViews, `accessors
      ensures Valid()
      ensures index == |old(accessors)|
      ensures bufferViews == old(bufferViews) + [BufferView(old(pointer), size)]
      ensures accessors == old(accessors) + [Accessor(|old(bufferViews)|, count, componentType)]
      ensures pointer == old(pointer) + RoundUp4(size)
    {
      bufferViews := bufferViews + [BufferView(pointer, size)];
      index := |accessors|;
      accessors := accessors + [Accessor(|bufferViews| - 1, count, componentType)];
      pointer := pointer + RoundUp4(size);
    }

    /** saveIndices: one accessor of indexCount indices at the index width of the mesh. */
    method SaveIndices(m: MeshData) returns (index: nat)
      requires Valid() && m.hasIndices && pointer + IndexBytes(m) <= bufferSize
      modifies `pointer, `bufferViews, `accessors
      ensures Valid() && pointer == old(pointer) + IndexBytes(m)
      ensures index == |old(accessors)| && |accessors| == index + 1
      ensures accessors[index].count == m.indexCount
      ensures accessors[index].componentType ==
                (if IndexWidth(m.vertexCount) == 1 then UNSIGNED_BYTE
                 else if IndexWidth(m.vertexCount) == 2 then UNSIGNED_SHORT else UNSIGNED_INT)
    {
      var width := IndexWidth(m.vertexCount);
      var componentType := if width == 1 then UNSIGNED_BYTE else if width == 2 then UNSIGNED_SHORT else UNSIGNED_INT;
      index := GetAccessor(m.indexCount * width, m.indexCount, componentType);
    }

    /** An attribute accessor of vertexCount elements of the given size, if the mesh has it. */
    method SaveAttribute(has: bool, vertexCount: nat, elementSize: nat)
      requires Valid() && pointer + AttrBytes(has, vertexCount, elementSize) <= bufferSize
      modifies `pointer, `bufferViews, `accessors
      ensures Valid() && pointer == old(pointer) + AttrBytes(has, vertexCount, elementSize)
    {
      if has {
        var _ := GetAccessor(vertexCount * elementSize, vertexCount, FLOAT);
      }
    }

    /** savePositions, saveNormals, saveTangents, saveColors, saveUV0s and saveUV1s in exportMesh's order. */
    method SaveVertexAttributes(m: MeshData)
      requires Valid() && pointer + AttributeBytes(m) <= bufferSize
      modifies `pointer, `bufferViews, `accessors
      ensures Valid() && pointer == old(pointer) + AttributeBytes(m)
    {
      var n := m.vertexCount;
      SaveAttribute(m.hasPositions, n, 12);
      SaveAttribute(m.hasNormals, n, 12);
      SaveAttribute(m.hasTangents, n, 16);
      SaveAttribute(m.hasColors0, n, 16);
      SaveAttribute(m.hasTexCoords0, n, 8);
      SaveAttribute(m.hasTexCoords1, n, 8);
    }

    /** saveCustomData for each non-empty custom data entry, in map order. */
    method SaveCustomData(sizes: seq<nat>)
      requires Valid() && pointer + CustomBytes(sizes) <= bufferSize
      modifies `pointer, `bufferViews, `accessors
      ensures Valid() && pointer == old(pointer) + CustomBytes(sizes)
    {
      var i := 0;
      while i < |sizes|
        invariant 0 <= i <= |sizes| && Valid()
        invariant pointer == old(pointer) + CustomBytes(sizes[..i])
      {
        CustomBytesStep(sizes, i);
        if sizes[i] != 0 {
          var _ := GetAccessor(sizes[i], sizes[i], UNSIGNED_BYTE);
        }
        i := i + 1;
      }
      assert sizes[..i] == sizes;
    }

    /** exportMesh: the pointer advances by exactly what calcBufferSize set aside for the mesh. */
    method ExportMesh(m: MeshData)
      requires Valid() && pointer + MeshBufferSize(m) <= bufferSize
      modifies `pointer, `bufferViews, `accessors
      ensures Valid() && pointer == old(pointer) + MeshBufferSize(m)
    {
      if m.hasIndices {
        var _ := SaveIndices(m);
      }
      SaveVertexAttributes(m);
      SaveCustomData(m.customBytes);
    }

    /**
     * The meshes of all models, exported into a buffer sized for them: the pointer ends
     * exactly at the precomputed size, so it never passes the end of the buffer.
     */
    method ExportMeshes(ms: seq<MeshData>)
      requires Valid() && pointer == 0 && bufferSize == CalcBufferSize(ms)
      modifies `pointer, `bufferViews, `accessors
      ensures Valid() && pointer == bufferSize
    {
      var i := 0;
      while i < |ms|
        invariant 0 <= i <= |ms| && Valid()
        invariant pointer == CalcBufferSize(ms[..i])
      {
        CalcBufferSizeStep(ms, i);
        ExportMesh(ms[i]);
        i := i + 1;
      }
      assert ms[..i] == ms;
    }

    /**
     * exportImage: the first of dir/stem.ext, dir/stem_1.ext, ... not yet used is recorded as
     * used, and an image with the path relative to dir and the extension's MIME type is added.
     */
    method ExportImage(dir: string, stem: string, ext: string) returns (index: nat)
      modifies `images, `usedImageFilepaths
      ensures index == |old(images)|
      ensures exists a: nat ::
                && OutFilepath(dir, stem, ext, a) !in old(usedImageFilepaths)
                && (forall b :: 0 <= b < a ==> OutFilepath(dir, stem, ext, b) in old(usedImageFilepaths))
                && usedImageFilepaths == old(usedImageFilepaths) + [OutFilepath(dir, stem, ext, a)]
                && images == old(images) + [ExportedImage(OutStem(stem, ext, a), FilenameToMimeType(ext))]
    {
      var appendix := FreeAppendix(usedImageFilepaths, dir, stem, ext);
      ghost var path := OutFilepath(dir, stem, ext, appendix);
      usedImageFilepaths := usedImageFilepaths + [OutFilepath(dir, stem, ext, appendix)];
      index := |images|;
      images := images + [ExportedImage(OutStem(stem, ext, appendix), FilenameToMimeType(ext))];
      assert path !in old(usedImageFilepaths) && usedImageFilepaths == old(usedImageFilepaths) + [path];
    }
  }

  /**
   * exportImage's search: the appendices 0, 1, 2, ... are tried in turn and the first whose
   * path is not in the used list is returned; one is always found within |used| + 1 tries.
   */
  method FreeAppendix(used: seq<string>, dir: string, stem: string, ext: string) returns (appendix: nat)
    ensures OutFilepath(dir, stem, ext, appendix) !in used
    ensures forall b :: 0 <= b < appendix ==> OutFilepath(dir, stem, ext, b) in used
    ensures appendix <= |used|
  {
    appendix := 0;
    var path := OutFilepath(dir, stem, ext, 0);
    while path in used
      invariant path == OutFilepath(dir, stem, ext, appendix)
      invariant forall b :: 0 <= b < appendix ==> OutFilepath(dir, stem, ext, b) in used
      decreases |used| - appendix
    {
      appendix := appendix + 1;
      assert forall b :: 0 <= b < appendix ==> OutFilepath(dir, stem, ext, b) in used by {
        forall b | 0 <= b < appendix
          ensures OutFilepath(dir, stem, ext, b) in used
        {
          if b == appendix - 1 {
            assert OutFilepath(dir, stem, ext, b) == path;
          }
        }
      }
      UsedBound(used, dir, stem, ext, appendix);
      path := OutFilepath(dir, stem, ext, appendix);
    }
    UsedBound(used, dir, stem, ext, appendix);
  }

  lemma {:induction false} CustomBytesPrefix(sizes: seq<nat>, k: nat)
    requires k <= |sizes|
    ensures CustomBytes(sizes[..k]) <= CustomBytes(sizes)
    decreases |sizes|
  {
    if k < |sizes| {
      var init := sizes[..|sizes| - 1];
      assert sizes[..k] == init[..k];
      CustomBytesPrefix(init, k);
    } else {
      assert sizes[..k] == sizes;
    }
  }

  lemma CalcBufferSizeStep(ms: seq<MeshData>, i: nat)
    requires i < |ms|
    ensures CalcBufferSize(ms[..i + 1]) == CalcBufferSize(ms[..i]) + MeshBufferSize(ms[i]) <= CalcBufferSize(ms)
  {
    CalcBufferSizeAppend(ms[..i], ms[i]);
    assert ms[..i + 1] == ms[..i] + [ms[i]];
    CalcBufferSizePrefix(ms, i + 1);
  }

  lemma CustomBytesStep(sizes: seq<nat>, i: nat)
    requires i < |sizes|
    ensures CustomBytes(sizes[..i + 1]) == CustomBytes(sizes[..i]) + RoundUp4(sizes[i]) <= CustomBytes(sizes)
  {
    CustomBytesAppend(sizes[..i], sizes[i]);
    assert sizes[..i + 1] == sizes[..i] + [sizes[i]];
    CustomBytesPrefix(sizes, i + 1);
  }

  lemma {:induction false} CalcBufferSizePrefix(ms: seq<MeshData>, k: nat)
    requires k <= |ms|
    ensures CalcBufferSize(ms[..k]) <= CalcBufferSize(ms)
    decreases |ms|
  {
    if k < |ms| {
      var init := ms[..|ms| - 1];
      assert ms[..k] == init[..k];
      CalcBufferSizePrefix(init, k);
    } else {
      assert ms[..k] == ms;
    }
  }
}
