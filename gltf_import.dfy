/**
 * The glTF importer (importer/gltf.cpp): the mappings from glTF codes back to the engine's
 * enumerations, and the loading of a mesh's index accessor. Each mapping is paired with the
 * exporter's mapping in the other direction by a round-trip lemma.
 */
module GltfImport {
  import opened Wrappers
  import SceneModel
  import ImageAsset
  import GltfExport
  import opened PublicUtil

  /** tinygltfModeToTopology: the glTF primitive modes 0, 1, 3, 4, 5, 6; any other is UNKNOWN. */
  function ModeToTopology(mode: nat): (t: SceneModel.Topology)
    ensures t != SceneModel.UNKNOWN <==> mode in {0, 1, 3, 4, 5, 6}
  {
    match mode
    case 0 => SceneModel.POINT_LIST
    case 1 => SceneModel.LINE_LIST
    case 3 => SceneModel.LINE_STRIP
    case 4 => SceneModel.TRIANGLE_LIST
    case 5 => SceneModel.TRIANGLE_STRIP
    case 6 => SceneModel.TRIANGLE_FAN
    case _ => SceneModel.UNKNOWN
  }

  /**
   * Every topology survives export and import, UNKNOWN included (its -1 arrives as
   * 0xFFFFFFFF); and every mode the importer knows is exported back unchanged.
   */
  lemma TopologyRoundTrip(t: SceneModel.Topology, mode: nat)
    ensures ModeToTopology(ToUint32(GltfExport.TopologyToMode(t))) == t
    ensures mode in {0, 1, 3, 4, 5, 6} ==> GltfExport.TopologyToMode(ModeToTopology(mode)) == mode
  {
    assert ToUint32(-1) == 0xFFFF_FFFF;
  }

  /** mimeTypeToExtension: the four MIME types the exporter writes, "" for any other. */
  function MimeTypeToExtension(mime: string): (ext: string)
    ensures ext != "" <==> mime in {"image/png", "image/jpeg", "image/bmp", "image/gif"}
  {
    if mime == "image/png" then ".png"
    else if mime == "image/jpeg" then ".jpg"
    else if mime == "image/bmp" then ".bmp"
    else if mime == "image/gif" then ".gif"
    else ""
  }

  /**
   * An extension with a known MIME type comes back lower-cased; a known MIME type survives
   * the way back through the exporter.
   */
  lemma MimeTypeRoundTrip(ext: string, mime: string)
    ensures GltfExport.FilenameToMimeType(ext) != "" ==>
              MimeTypeToExtension(GltfExport.FilenameToMimeType(ext)) == GltfExport.ToLower(ext)
    ensures MimeTypeToExtension(mime) != "" ==> GltfExport.FilenameToMimeType(MimeTypeToExtension(mime)) == mime
  {
    var e := MimeTypeToExtension(mime);
    if e != "" {
      assert GltfExport.ToLower(e) == e;
    }
  }

  /**
   * tinygltfImageToTextureFormat: three- and four-component images of 8 or 16 bits; every
   * other (bits, component) pair, including the unset -1 of an image the exporter could not
   * describe, is UNKNOWN.
   */
  function ImageToTextureFormat(bits: int, component: int): (f: ImageAsset.Format)
    ensures f != ImageAsset.UNKNOWN <==> bits in {8, 16} && component in {3, 4}
    ensures f != ImageAsset.UNKNOWN ==>
              ImageAsset.ChannelBytes(f) * 8 == bits && ImageAsset.Channels(f) == component && !ImageAsset.IsSrgb(f)
  {
    if bits == 8 && component == 3 then ImageAsset.RGB8_UNORM
    else if bits == 8 && component == 4 then ImageAsset.RGBA8_UNORM
    else if bits == 16 && component == 3 then ImageAsset.RGB16_UNORM
    else if bits == 16 && component == 4 then ImageAsset.RGBA16_UNORM
    else ImageAsset.UNKNOWN
  }

  /** The format the importer reads from what the exporter wrote (unset fields stay -1). */
  function ImportedFormat(written: Option<(nat, nat)>): ImageAsset.Format
  {
    match written
    case Some((bits, component)) => ImageToTextureFormat(bits, component)
    case None => ImageToTextureFormat(-1, -1)
  }

  /**
   * An exported image format is read back as its linear variant exactly when it has three or
   * four 8- or 16-bit channels; every other format is lost (UNKNOWN).
   */
  lemma FormatRoundTrip(f: ImageAsset.Format)
    ensures ImportedFormat(GltfExport.FormatToGltfImage(f)) ==
              if ImageAsset.ChannelBytes(f) in {1, 2} && ImageAsset.Channels(f) in {3, 4}
              then ImageAsset.ToUnorm(f) else ImageAsset.UNKNOWN
  {
  }

  /** tinygltfTextureWrapTypeTotTextureWrap: the three glTF wrap modes, REPEAT for any other code. */
  function WrapFromGltf(code: nat): (w: ImageAsset.Wrap)
    ensures w != ImageAsset.CLAMP_TO_BORDER
    ensures code !in {33071, 33648} ==> w == ImageAsset.REPEAT
  {
    match code
    case 10497 => ImageAsset.REPEAT
    case 33071 => ImageAsset.CLAMP_TO_EDGE
    case 33648 => ImageAsset.MIRRORED_REPEAT
    case _ => ImageAsset.REPEAT
  }

  /** Every wrap mode survives export and import except CLAMP_TO_BORDER, which becomes REPEAT. */
  lemma WrapRoundTrip(w: ImageAsset.Wrap)
    ensures WrapFromGltf(GltfExport.WrapToGltf(w)) == (if w == ImageAsset.CLAMP_TO_BORDER then ImageAsset.REPEAT else w)
  {
  }

  /** tinygltfTextureFilterTotTextureFilter: the minification half of a glTF filter code. */
  function FilterFromGltf(code: nat): (f: ImageAsset.Filter)
    ensures f == ImageAsset.NEAREST <==> code in {9728, 9984, 9986}
  {
    if code == 9728 || code == 9984 || code == 9986 then ImageAsset.NEAREST else ImageAsset.LINEAR
  }

  /** tinygltfTextureMipMapFilterTotTextureMipMapFilter: the mipmap half (NEAREST without mipmaps). */
  function MipmapFilterFromGltf(code: nat): (f: ImageAsset.Filter)
    ensures f == ImageAsset.NEAREST <==> code in {9728, 9729, 9984, 9985}
  {
    if code == 9728 || code == 9729 || code == 9984 || code == 9985 then ImageAsset.NEAREST else ImageAsset.LINEAR
  }

  /** tinygltfTextureHasMipmaps: only the four *_MIPMAP_* codes ask for mipmaps. */
  function HasMipmaps(code: nat): (r: bool)
    ensures r <==> 9984 <= code <= 9987
  {
    code == 9984 || code == 9985 || code == 9986 || code == 9987
  }

  /**
   * A sampler with mipmaps survives export and import whole: filter, mipmap filter and the
   * mipmap flag. Without mipmaps the filter survives and no mipmaps are reported.
   */
  lemma FilterRoundTrip(f: ImageAsset.Filter, mipmapFilter: ImageAsset.Filter)
    ensures var code := GltfExport.FilterToGltf(f, true, mipmapFilter);
            FilterFromGltf(code) == f && MipmapFilterFromGltf(code) == mipmapFilter && HasMipmaps(code)
    ensures var code := GltfExport.FilterToGltf(f, false, mipmapFilter);
            FilterFromGltf(code) == f && !HasMipmaps(code)
  {
  }

  // ---------------------------------------------------------------------------------------
  // Index loading

  /** The byte width of an index component type, 0 for any other type. */
  function ComponentWidth(componentType: nat): (w: nat)
    ensures componentType in {GltfExport.UNSIGNED_BYTE, GltfExport.UNSIGNED_SHORT, GltfExport.UNSIGNED_INT} <==> w > 0
  {
    if componentType == GltfExport.UNSIGNED_BYTE then 1
    else if componentType == GltfExport.UNSIGNED_SHORT then 2
    else if componentType == GltfExport.UNSIGNED_INT then 4
    else 0
  }

  /** The index stored at a byte position: a uint8, uint16 or uint32 in buffer byte order. */
  function IndexAt(data: seq<GltfExport.Byte>, p: nat, componentType: nat): (index: nat)
    requires p + ComponentWidth(componentType) <= |data|
    ensures index < GltfExport.Pow256(ComponentWidth(componentType))
  {
    GltfExport.FromLittleEndian(data[p..p + ComponentWidth(componentType)])
  }

  /**
   * loadIndices: nothing for accessor -1; otherwise the mesh's index list becomes exactly
   * count indices, index i read at byte i*stride, and the mesh is marked as indexed. The
   * source asserts that the accessor holds scalar unsigned integers and reads the buffer
   * unchecked, so both are demanded of the caller.
   */
  method LoadIndices(mesh: SceneModel.Mesh, accessorIndex: int, count: nat, componentType: nat,
                     stride: nat, data: seq<GltfExport.Byte>)
    requires accessorIndex != -1 ==>
               ComponentWidth(componentType) > 0
               && forall i :: 0 <= i < count ==> i * stride + ComponentWidth(componentType) <= |data|
    modifies mesh`indices, mesh`hasIndices
    ensures accessorIndex == -1 ==> mesh.indices == old(mesh.indices) && mesh.hasIndices == old(mesh.hasIndices)
    ensures accessorIndex != -1 ==>
              mesh.hasIndices && |mesh.indices| == count
              && forall i :: 0 <= i < count ==> mesh.indices[i] == IndexAt(data, i * stride, componentType)
  {
    if accessorIndex == -1 {
      return;
    }
    var indices := new nat[count];
    for i := 0 to count
      invariant forall j :: 0 <= j < i ==> indices[j] == IndexAt(data, j * stride, componentType)
    {
      indices[i] := IndexAt(data, i * stride, componentType);
    }
    mesh.indices := indices[..];
    mesh.hasIndices := true;
  }

  /**
   * Indices saved by the exporter load back unchanged: at the exporter's index width for the
   * mesh's vertex count, every index below that count is stored without truncation.
   */
  lemma IndicesRoundTrip(indices: seq<nat>, vertexCount: nat, i: nat)
    requires vertexCount <= 0xFFFF_FFFF && i < |indices|
    requires forall j :: 0 <= j < |indices| ==> indices[j] < vertexCount
    ensures var w := GltfExport.IndexWidth(vertexCount);
            var ct := if w == 1 then GltfExport.UNSIGNED_BYTE else if w == 2 then GltfExport.UNSIGNED_SHORT else GltfExport.UNSIGNED_INT;
            var data := GltfExport.EncodeIndices(indices, w);
            ComponentWidth(ct) == w && i * w + w <= |data| && IndexAt(data, i * w, ct) == indices[i]
  {
    var w := GltfExport.IndexWidth(vertexCount);
    GltfExport.IndexWidthModulus(w);
    GltfExport.DecodeEncodedIndex(indices, w, i);
  }
}
