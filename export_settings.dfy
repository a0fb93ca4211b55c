/** Scene export settings packed into a 32-bit word, and the extension dispatch of save_scene. */
module ExportSettings {

  /** The only named export format; the stored format is the raw low nibble. */
  const GLTF: bv32 := 0x1

  datatype Settings = Settings(
    format: bv32,
    embedImages: bool,
    embedBuffers: bool,
    writeBinary: bool,
    excludeLights: bool,
    excludeModels: bool,
    excludeCameras: bool)

  /** The default constructor: glTF, every flag off. */
  function Default(): (s: Settings)
    ensures s.format == GLTF && Encode(s) == GLTF
    ensures !s.embedImages && !s.embedBuffers && !s.writeBinary
    ensures !s.excludeLights && !s.excludeModels && !s.excludeCameras
  {
    Settings(GLTF, false, false, false, false, false, false)
  }

  function Bit(b: bool, shift: bv32): bv32
    requires shift < 32
  {
    if b then (1 as bv32) << shift else 0
  }

  /** encode(): the format in bits 0..3 and one bit for each flag in bits 4..9. */
  function Encode(s: Settings): (e: bv32)
  {
    s.format | Bit(s.embedImages, 4) | Bit(s.embedBuffers, 5) | Bit(s.writeBinary, 6)
      | Bit(s.excludeLights, 7) | Bit(s.excludeModels, 8) | Bit(s.excludeCameras, 9)
  }

  /** The constructor from an encoded word: the low nibble is the format, bits 4..9 the flags. */
  function Decode(e: bv32): (s: Settings)
    ensures s.format < 16
  {
    Settings(e & 0xf, e & 0x10 != 0, e & 0x20 != 0, e & 0x40 != 0,
      e & 0x80 != 0, e & 0x100 != 0, e & 0x200 != 0)
  }

  /** Settings whose format fits the low nibble survive an encode/decode round trip. */
  lemma DecodeEncode(s: Settings)
    requires s.format < 16
    ensures Decode(Encode(s)) == s
  {}

  /** Encoding a decoded word keeps exactly the ten used bits. */
  lemma EncodeDecode(e: bv32)
    ensures Encode(Decode(e)) == e & 0x3ff
  {}

  /** The format occupies the low nibble and nothing is encoded above bit 9. */
  lemma EncodedLayout(s: Settings)
    requires s.format < 16
    ensures Encode(s) & 0xf == s.format
    ensures Encode(s) & 0xffff_fc00 == 0
  {}

  /** The six flags own the distinct bits 4..9. */
  lemma FlagBits(s: Settings)
    ensures Encode(s) & 0x10 != 0 <== s.embedImages
    ensures Encode(s) & 0x20 != 0 <== s.embedBuffers
    ensures Encode(s) & 0x40 != 0 <== s.writeBinary
    ensures Encode(s) & 0x80 != 0 <== s.excludeLights
    ensures Encode(s) & 0x100 != 0 <== s.excludeModels
    ensures Encode(s) & 0x200 != 0 <== s.excludeCameras
  {}

  /** ::tolower in the C locale. */
  function ToLower(c: char): char
  {
    if 'A' <= c <= 'Z' then (c as int + 32) as char else c
  }

  function Lowered(s: string): (r: string)
    ensures |r| == |s| && forall i :: 0 <= i < |s| ==> r[i] == ToLower(s[i])
  {
    if s == [] then [] else [ToLower(s[0])] + Lowered(s[1..])
  }

  /** Index just after the last '/', i.e. where the filename starts. */
  function FilenameStart(p: string): (i: nat)
    ensures i <= |p| && (i > 0 ==> p[i - 1] == '/')
    ensures forall j :: i <= j < |p| ==> p[j] != '/'
  {
    if p == [] then 0
    else if p[|p| - 1] == '/' then |p|
    else FilenameStart(p[..|p| - 1])
  }

  /** Position of the last '.' in s, if any. */
  function LastDot(s: string): (r: int)
    ensures -1 <= r < |s|
    ensures r >= 0 ==> s[r] == '.'
    ensures forall j :: r < j < |s| ==> s[j] != '.'
  {
    if s == [] then -1
    else if s[|s| - 1] == '.' then |s| - 1
    else LastDot(s[..|s| - 1])
  }

  /** std::filesystem::path::extension on a '/'-separated path: from the last '.' of the
      filename on, empty when the filename has no dot, starts with its only dot, or is "." or "..". */
  function Extension(p: string): (ext: string)
    ensures ext == [] || (ext[0] == '.' && forall j :: 0 < j < |ext| ==> ext[j] != '.' && ext[j] != '/')
    ensures |ext| <= |p| && ext == p[|p| - |ext|..]
  {
    var name := p[FilenameStart(p)..];
    var d := LastDot(name);
    if name == "." || name == ".." || d <= 0 then [] else name[d..]
  }

  /** save_scene: hand over to the glTF writer for ".gltf"/".glb" in any letter case, else fail.
      The writer itself is a parameter. */
  function SaveScene(path: string, settings: Settings, saveGltf: (string, Settings) -> bool): (ok: bool)
    ensures ok ==> saveGltf(path, settings)
    ensures Lowered(Extension(path)) != ".gltf" && Lowered(Extension(path)) != ".glb" ==> !ok
  {
    var ext := Lowered(Extension(path));
    if ext == ".gltf" || ext == ".glb" then saveGltf(path, settings) else false
  }

  /** The extension of "dir/stem.ext" is ".ext", whatever the directory. */
  lemma ExtensionOfFile(dir: string, stem: string, ext: string)
    requires |stem| > 0 && forall j :: 0 <= j < |stem| ==> stem[j] != '/' && stem[j] != '.'
    requires |ext| > 0 && forall j :: 0 <= j < |ext| ==> ext[j] != '/' && ext[j] != '.'
    ensures Extension(dir + "/" + stem + "." + ext) == "." + ext
  {
    var name := stem + "." + ext;
    var p := dir + "/" + name;
    assert dir + "/" + stem + "." + ext == p;
    NameHasNoSlash(stem, ext, name);
    FilenameOf(dir, name);
    assert p[|dir| + 1..] == name;
    DotOf(stem, ext);
    assert name[|stem|..] == "." + ext;
    ExtensionFromParts(p, name, |stem|);
  }

  /** A filename built from a stem, a dot and an extension has no '/' when neither part has. */
  lemma NameHasNoSlash(stem: string, ext: string, name: string)
    requires forall j :: 0 <= j < |stem| ==> stem[j] != '/'
    requires forall j :: 0 <= j < |ext| ==> ext[j] != '/'
    requires name == stem + "." + ext
    ensures forall j :: 0 <= j < |name| ==> name[j] != '/'
  {
    forall j | 0 <= j < |name|
      ensures name[j] != '/'
    {
      if j < |stem| {
        assert name[j] == stem[j];
      } else if j > |stem| {
        assert name[j] == ext[j - |stem| - 1];
      }
    }
  }

  /** Extension read off its parts: the filename and the position of its last dot. */
  lemma ExtensionFromParts(p: string, name: string, d: int)
    requires FilenameStart(p) <= |p| && name == p[FilenameStart(p)..]
    requires d == LastDot(name) && 0 < d && |name| >= 3
    ensures Extension(p) == name[d..]
  {
    assert name != "." && name != "..";
  }

  lemma {:induction false} FilenameOf(dir: string, name: string)
    requires forall j :: 0 <= j < |name| ==> name[j] != '/'
    ensures FilenameStart(dir + "/" + name) == |dir| + 1
    decreases |name|
  {
    var p := dir + "/" + name;
    if name == [] {
      assert p[|p| - 1] == '/';
    } else {
      assert p[..|p| - 1] == dir + "/" + name[..|name| - 1];
      FilenameOf(dir, name[..|name| - 1]);
    }
  }

  lemma {:induction false} DotOf(stem: string, ext: string)
    requires forall j :: 0 <= j < |ext| ==> ext[j] != '.'
    ensures LastDot(stem + "." + ext) == |stem|
    decreases |ext|
  {
    var s := stem + "." + ext;
    if ext != [] {
      assert s[..|s| - 1] == stem + "." + ext[..|ext| - 1];
      DotOf(stem, ext[..|ext| - 1]);
    } else {
      assert s[|s| - 1] == '.';
    }
  }

  /** The lowered extension of "dir/stem.ext" is "." followed by the lowered ext. */
  lemma LoweredExtensionOfFile(dir: string, stem: string, ext: string)
    requires |stem| > 0 && forall j :: 0 <= j < |stem| ==> stem[j] != '/' && stem[j] != '.'
    requires |ext| > 0 && forall j :: 0 <= j < |ext| ==> ext[j] != '/' && ext[j] != '.'
    ensures Lowered(Extension(dir + "/" + stem + "." + ext)) == "." + Lowered(ext)
  {
    ExtensionOfFile(dir, stem, ext);
    assert ("." + ext)[1..] == ext;
  }

  /** ".GLB", ".Gltf" and friends dispatch to the writer just like their lower-case spellings. */
  lemma SaveSceneIgnoresCase(path: string, dir: string, stem: string, ext: string, settings: Settings, saveGltf: (string, Settings) -> bool)
    requires path == dir + "/" + stem + "." + ext
    requires |stem| > 0 && forall j :: 0 <= j < |stem| ==> stem[j] != '/' && stem[j] != '.'
    requires |ext| > 0 && forall j :: 0 <= j < |ext| ==> ext[j] != '/' && ext[j] != '.'
    requires Lowered(ext) == "glb" || Lowered(ext) == "gltf"
    ensures SaveScene(path, settings, saveGltf) == saveGltf(path, settings)
  {
    LoweredExtensionOfFile(dir, stem, ext);
    var low := Lowered(Extension(path));
    assert low == ".glb" || low == ".gltf";
  }
}
