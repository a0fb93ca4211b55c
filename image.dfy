/**
 * Image assets (image.cpp): the pixel formats and their sizes, one-time initialisation with
 * pixel data, and switching the 8-bit colour formats between linear and sRGB encoding.
 */
module ImageAsset {

  const UINT32_MODULUS := 0x1_0000_0000

  datatype Format =
    | UNKNOWN
    | R8_UNORM | RG8_UNORM | RGB8_UNORM | RGBA8_UNORM
    | RGB8_SRGB | RGBA8_SRGB
    | R16_UNORM | RG16_UNORM | RGB16_UNORM | RGBA16_UNORM
    | R32_FLOAT | RG32_FLOAT | RGB32_FLOAT | RGBA32_FLOAT
    | R64_FLOAT | RG64_FLOAT | RGB64_FLOAT | RGBA64_FLOAT

  /** The number of channels a format names (R, RG, RGB, RGBA), 0 for UNKNOWN. */
  function Channels(f: Format): nat
  {
    match f
    case UNKNOWN => 0
    case R8_UNORM | R16_UNORM | R32_FLOAT | R64_FLOAT => 1
    case RG8_UNORM | RG16_UNORM | RG32_FLOAT | RG64_FLOAT => 2
    case RGB8_UNORM | RGB8_SRGB | RGB16_UNORM | RGB32_FLOAT | RGB64_FLOAT => 3
    case RGBA8_UNORM | RGBA8_SRGB | RGBA16_UNORM | RGBA32_FLOAT | RGBA64_FLOAT => 4
  }

  /** The bytes of one channel: the bit width the format names, divided by 8. */
  function ChannelBytes(f: Format): nat
  {
    match f
    case UNKNOWN => 0
    case R8_UNORM | RG8_UNORM | RGB8_UNORM | RGBA8_UNORM | RGB8_SRGB | RGBA8_SRGB => 1
    case R16_UNORM | RG16_UNORM | RGB16_UNORM | RGBA16_UNORM => 2
    case R32_FLOAT | RG32_FLOAT | RGB32_FLOAT | RGBA32_FLOAT => 4
    case R64_FLOAT | RG64_FLOAT | RGB64_FLOAT | RGBA64_FLOAT => 8
  }

  /**
   * textureFormatToBytes: the size of one pixel, from a fixed table. It is the channel count
   * times the channel width, and 0 exactly for UNKNOWN.
   */
  function TextureFormatToBytes(f: Format): (n: nat)
    ensures n == Channels(f) * ChannelBytes(f)
    ensures n == 0 <==> f == UNKNOWN
    ensures n <= 32
  {
    match f
    case R8_UNORM => 1
    case RG8_UNORM => 2
    case RGB8_UNORM | RGB8_SRGB => 3
    case RGBA8_UNORM | RGBA8_SRGB => 4
    case R16_UNORM => 2
    case RG16_UNORM => 4
    case RGB16_UNORM => 6
    case RGBA16_UNORM => 8
    case R32_FLOAT => 4
    case RG32_FLOAT => 8
    case RGB32_FLOAT => 12
    case RGBA32_FLOAT => 16
    case R64_FLOAT => 8
    case RG64_FLOAT => 16
    case RGB64_FLOAT => 24
    case RGBA64_FLOAT => 32
    case UNKNOWN => 0
  }

  predicate IsSrgb(f: Format) { f == RGB8_SRGB || f == RGBA8_SRGB }

  /** setSRGB(true): the 8-bit RGB/RGBA linear formats become sRGB; any other stays. */
  function ToSrgb(f: Format): (r: Format)
    ensures IsSrgb(f) || f == RGB8_UNORM || f == RGBA8_UNORM ==> IsSrgb(r)
    ensures !(f == RGB8_UNORM || f == RGBA8_UNORM) ==> r == f
    ensures TextureFormatToBytes(r) == TextureFormatToBytes(f)
  {
    match f
    case RGB8_UNORM => RGB8_SRGB
    case RGBA8_UNORM => RGBA8_SRGB
    case _ => f
  }

  /** setSRGB(false): the sRGB formats go back to linear; any other stays. */
  function ToUnorm(f: Format): (r: Format)
    ensures !IsSrgb(r)
    ensures !IsSrgb(f) ==> r == f
    ensures TextureFormatToBytes(r) == TextureFormatToBytes(f)
  {
    match f
    case RGB8_SRGB => RGB8_UNORM
    case RGBA8_SRGB => RGBA8_UNORM
    case _ => f
  }

  /** Switching to sRGB and back restores a non-sRGB format; the other way round an sRGB one. */
  lemma SrgbRoundTrip(f: Format)
    ensures !IsSrgb(f) ==> ToUnorm(ToSrgb(f)) == f
    ensures IsSrgb(f) ==> ToSrgb(ToUnorm(f)) == f
  {
  }

  /** The byte count init stores: a 32-bit unsigned product. */
  function ImageSize(w: nat, h: nat, f: Format): (n: nat)
    requires w < UINT32_MODULUS && h < UINT32_MODULUS
    ensures n < UINT32_MODULUS
    ensures w * h * TextureFormatToBytes(f) < UINT32_MODULUS ==> n == w * h * TextureFormatToBytes(f)
  {
    (w * h * TextureFormatToBytes(f)) % UINT32_MODULUS
  }

  /** Sampler::Filter and Sampler::Wrap. */
  datatype Filter = NEAREST | LINEAR
  datatype Wrap = REPEAT | MIRRORED_REPEAT | CLAMP_TO_EDGE | CLAMP_TO_BORDER

  /** A texture as the material sees it: which texture coordinate set it samples, -1 by default. */
  datatype Texture = Texture(texCoordIndex: int)

  const DefaultTexture := Texture(-1)

  class Image {
    /** uint32 width and height; -1 (all ones) before init. */
    var width: nat
    var height: nat
    /** An int; -1 before init. */
    var sizeInBytes: int
    var format: Format
    var mipmaps: bool
    var data: seq<bv8>

    constructor ()
      ensures width == UINT32_MODULUS - 1 && height == UINT32_MODULUS - 1 && sizeInBytes == -1
      ensures format == UNKNOWN && !mipmaps && data == []
    {
      width, height, sizeInBytes := UINT32_MODULUS - 1, UINT32_MODULUS - 1, -1;
      format, mipmaps, data := UNKNOWN, false, [];
    }

    /** getPixelSizeInBytes. */
    function PixelSizeInBytes(): (n: nat)
      reads this
      ensures n == Channels(format) * ChannelBytes(format)
    {
      TextureFormatToBytes(format)
    }

    /**
     * init: refuse (the source throws) when there is already pixel data; otherwise store the
     * dimensions and format and copy w*h*pixelSize bytes from src. Sizes of 2^31 bytes or
     * more, where the int size field would go negative, are excluded.
     */
    method Init(w: nat, h: nat, f: Format, src: seq<bv8>) returns (ok: bool)
      requires w < UINT32_MODULUS && h < UINT32_MODULUS
      requires ImageSize(w, h, f) < 0x8000_0000 && ImageSize(w, h, f) <= |src|
      modifies this
      ensures ok <==> old(data) == []
      ensures !ok ==> width == old(width) && height == old(height) && sizeInBytes == old(sizeInBytes)
                      && format == old(format) && data == old(data) && mipmaps == old(mipmaps)
      ensures ok ==> width == w && height == h && format == f && mipmaps == old(mipmaps)
                     && sizeInBytes == ImageSize(w, h, f) && data == src[..ImageSize(w, h, f)]
      ensures ok ==> sizeInBytes == width * height * PixelSizeInBytes() % UINT32_MODULUS
    {
      if data != [] {
        return false;
      }
      width, height, format := w, h, f;
      sizeInBytes := ImageSize(w, h, f);
      data := src[..sizeInBytes];
      ok := true;
    }

    /** setSRGB. */
    method SetSrgb(srgb: bool)
      modifies `format
      ensures format == if srgb then ToSrgb(old(format)) else ToUnorm(old(format))
    {
      if srgb {
        format := ToSrgb(format);
      } else {
        format := ToUnorm(format);
      }
    }
  }
}
