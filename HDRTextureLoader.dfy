/**
 * `HDRTextureLoader.load(textureFrom:device:commandQueue:)`: an image turned into an RGBA texture
 * whose component type follows the image's component size. The decoded image is an input, and so
 * is what the foreign `drawRGBA8Bitmap` draws for 8-bit images.
 */
module HDRTextureLoader {
  import opened Common
  import opened ImageUtils

  /** The three texture formats the loader can choose. */
  datatype PixelFormat = RGBA32Float | RGBA16Float | RGBA8Unorm

  /**
   * The texture the loader returns: its format and size, whether it has mipmap levels, the row
   * pitch and bytes its level 0 was replaced with, and whether its mipmaps were generated.
   */
  datatype Texture = Texture(format: PixelFormat, width: nat, height: nat, mipmapped: bool,
                             bytesPerRow: nat, level0: seq<byte>, mipmapsGenerated: bool)

  /** Every texture is written with four channels. */
  const PixelChannelCount: nat := 4

  /**
   * The format for a component of `bpc` bytes: 32-bit float, 16-bit float or 8-bit normalised;
   * none for any other size, which the loader rejects. These are exactly the sizes for which
   * `copyBitmap` has a fill value.
   */
  function FormatFor(bpc: int): (r: Option<PixelFormat>)
    ensures r == Some(RGBA32Float) <==> bpc == 4
    ensures r == Some(RGBA16Float) <==> bpc == 2
    ensures r == Some(RGBA8Unorm) <==> bpc == 1
    ensures r.None? <==> AlphaOne(bpc).None?
  {
    if bpc == 4 then Some(RGBA32Float)
    else if bpc == 2 then Some(RGBA16Float)
    else if bpc == 1 then Some(RGBA8Unorm)
    else None
  }

  /**
   * `bytesPerPixel`: four components of `bpc` bytes; the 8-bit branch sets it again to four
   * single-byte components, which is the same number.
   */
  function BytesPerPixel(bpc: nat): (r: nat)
    ensures r == PixelChannelCount * bpc
  {
    if bpc == 1 then PixelChannelCount * 1 else bpc * PixelChannelCount
  }

  /** `bytesPerRow` */
  function BytesPerRow(img: BitmapImage): nat {
    BytesPerPixel(BytesPerComponent(img)) * img.width
  }

  /** `bytesPerImage`: the size of the staging buffer. */
  function BytesPerImage(img: BitmapImage): nat {
    BytesPerRow(img) * img.height
  }

  /**
   * What `copyBitmap` needs of the image on the float paths: no more than four source channels
   * (the destination pixel is four components wide) and source bytes for every pixel.
   */
  predicate SourceFits(img: BitmapImage) {
    && img.bitsPerComponent > 0
    && SrcChannelCount(img) <= PixelChannelCount
    && PixelCount(img) * SrcPixelBytes(img) <= |img.data|
  }

  /** A fresh staging buffer of n bytes. */
  function Zeros(n: nat): (r: seq<byte>)
    ensures |r| == n && forall i :: 0 <= i < n ==> r[i] == 0
  {
    seq(n, _ => 0 as byte)
  }

  /** The staging buffer after `copyBitmap` on a float path. */
  ghost function FloatPixels(img: BitmapImage): (r: seq<byte>)
    requires SourceFits(img)
    ensures |r| == BytesPerImage(img)
  {
    FloatPathFits(img);
    CopiedPixels(Zeros(BytesPerImage(img)), img, PixelChannelCount, true, PixelCount(img))
  }

  /** On a float path the staging buffer holds four components for every pixel. */
  lemma FloatPathFits(img: BitmapImage)
    requires SourceFits(img)
    ensures CopyFits(img, PixelChannelCount, BytesPerImage(img))
  {
    var bpc := BytesPerComponent(img);
    calc {
      PixelCount(img) * DstPixelBytes(img, PixelChannelCount);
      (img.width * img.height) * (PixelChannelCount * bpc);
      { MulRearrange(img.width, img.height, PixelChannelCount * bpc); }
      ((PixelChannelCount * bpc) * img.width) * img.height;
      BytesPerImage(img);
    }
  }

  lemma MulRearrange(w: nat, h: nat, k: nat)
    ensures (w * h) * k == (k * w) * h
  {
  }

  /**
   * `load`: the format is chosen from the component size (other sizes throw before anything is
   * allocated); a staging buffer of `bytesPerImage` bytes is filled by `drawRGBA8Bitmap` on the
   * 8-bit path and by `copyBitmap` into four channels otherwise; it replaces level 0 of a texture
   * that is mipmapped exactly when a command queue is given, and the mipmaps are then generated.
   */
  method Load(img: BitmapImage, hasCommandQueue: bool, drawn: seq<byte>) returns (r: Result<Texture>)
    requires BytesPerComponent(img) == 1 ==> |drawn| == BytesPerImage(img)
    requires BytesPerComponent(img) == 2 || BytesPerComponent(img) == 4 ==> SourceFits(img)
    ensures r.Err? <==> FormatFor(BytesPerComponent(img)).None?
    ensures r.Err? ==> r.error == UnsupportedFormat
    ensures r.Ok? ==> && r.value.format == FormatFor(BytesPerComponent(img)).value
                      && r.value.width == img.width && r.value.height == img.height
                      && r.value.bytesPerRow == PixelChannelCount * BytesPerComponent(img) * img.width
                      && |r.value.level0| == r.value.bytesPerRow * img.height
                      && r.value.mipmapped == hasCommandQueue
                      && r.value.mipmapsGenerated == hasCommandQueue
    ensures r.Ok? && r.value.format == RGBA8Unorm ==> r.value.level0 == drawn
    ensures r.Ok? && r.value.format != RGBA8Unorm ==> SourceFits(img) && r.value.level0 == FloatPixels(img)
  {
    var bytesPerComponent := img.bitsPerComponent / 8;
    var textureFormat := FormatFor(bytesPerComponent);
    if textureFormat.None? {
      return Err(UnsupportedFormat);
    }
    var bytesPerRow := BytesPerPixel(bytesPerComponent) * img.width;
    var bytesPerImage := bytesPerRow * img.height;
    var level0;
    if textureFormat.value == RGBA8Unorm {
      level0 := StageDrawn(bytesPerImage, drawn);
    } else {
      level0 := StageFloat(img);
    }
    r := Ok(Texture(textureFormat.value, img.width, img.height, hasCommandQueue,
                    bytesPerRow, level0, hasCommandQueue));
  }

  /** The 8-bit path: a zeroed staging buffer of n bytes into which `drawRGBA8Bitmap` drew `drawn`. */
  method StageDrawn(n: nat, drawn: seq<byte>) returns (data: seq<byte>)
    requires |drawn| == n
    ensures data == drawn
  {
    var rawData := new byte[n](_ => 0);
    CopyMemory(rawData, 0, drawn);
    assert rawData[..] == drawn;
    data := rawData[..];
  }

  /** The float paths: a zeroed staging buffer of `bytesPerImage` bytes, filled by `copyBitmap` into four channels. */
  method StageFloat(img: BitmapImage) returns (data: seq<byte>)
    requires SourceFits(img) && (BytesPerComponent(img) == 2 || BytesPerComponent(img) == 4)
    ensures data == FloatPixels(img)
  {
    var n := BytesPerImage(img);
    var rawData := new byte[n](_ => 0);
    assert rawData[..] == Zeros(n);
    assert CopyFits(img, PixelChannelCount, n) by {
      FloatPathFits(img);
    }
    var copied := CopyBitmap(rawData, PixelChannelCount, img);
    assert copied.Ok?;
    data := rawData[..];
  }

  /**
   * What byte b of pixel p of a float-path texture should hold: the source pixel's bytes first,
   * then the fill (the component value 1.0 as alpha, for a three-channel image), and the buffer's
   * initial bytes in any component the image does not have.
   */
  function FloatPixelExpected(img: BitmapImage, p: nat, b: nat): byte
    requires SourceFits(img) && (BytesPerComponent(img) == 2 || BytesPerComponent(img) == 4)
    requires p < PixelCount(img) && b < BytesPerPixel(BytesPerComponent(img))
  {
    var S := SrcPixelBytes(img);
    var fill := FillBytes(img, PixelChannelCount);
    if b < S then
      MulBelow(p, b, S, PixelCount(img));
      img.data[p * S + b]
    else if b < S + |fill| then fill[b - S]
    else 0
  }

  /** On a float path the fill is the alpha value 1.0 for a three-channel image and nothing otherwise. */
  lemma FloatFill(img: BitmapImage)
    requires SourceFits(img) && (BytesPerComponent(img) == 2 || BytesPerComponent(img) == 4)
    ensures SrcChannelCount(img) == 3 ==> FillBytes(img, PixelChannelCount) == AlphaOne(BytesPerComponent(img)).value
    ensures SrcChannelCount(img) != 3 ==> FillBytes(img, PixelChannelCount) == []
    ensures SrcChannelCount(img) == 3 ==> SrcPixelBytes(img) + |FillBytes(img, PixelChannelCount)| == BytesPerPixel(BytesPerComponent(img))
  {
  }

  /** Byte b of pixel p of a float-path texture is the one `FloatPixelExpected` describes. */
  lemma FloatPixelByte(img: BitmapImage, p: nat, b: nat)
    requires SourceFits(img) && (BytesPerComponent(img) == 2 || BytesPerComponent(img) == 4)
    requires p < PixelCount(img) && b < BytesPerPixel(BytesPerComponent(img))
    ensures p * BytesPerPixel(BytesPerComponent(img)) + b < |FloatPixels(img)|
    ensures FloatPixels(img)[p * BytesPerPixel(BytesPerComponent(img)) + b] == FloatPixelExpected(img, p, b)
  {
    assert DstPixelBytes(img, PixelChannelCount) == BytesPerPixel(BytesPerComponent(img));
    FloatCopiedByte(img, p, b);
  }

  /** The float-path staging buffer, byte by byte, before the component sizes are tied to the texture's. */
  lemma FloatCopiedByte(img: BitmapImage, p: nat, b: nat)
    requires SourceFits(img) && p < PixelCount(img) && b < DstPixelBytes(img, PixelChannelCount)
    ensures p * DstPixelBytes(img, PixelChannelCount) + b < |FloatPixels(img)|
    ensures b < SrcPixelBytes(img) ==> p * SrcPixelBytes(img) + b < |img.data|
    ensures FloatPixels(img)[p * DstPixelBytes(img, PixelChannelCount) + b]
         == if b < SrcPixelBytes(img) then img.data[p * SrcPixelBytes(img) + b]
            else if b < SrcPixelBytes(img) + |FillBytes(img, PixelChannelCount)| then FillBytes(img, PixelChannelCount)[b - SrcPixelBytes(img)]
            else 0
  {
    var dst := Zeros(BytesPerImage(img));
    FloatPathFits(img);
    assert FloatPixels(img) == CopiedPixels(dst, img, PixelChannelCount, true, PixelCount(img));
    CopiedPixelsByte(dst, img, PixelChannelCount, PixelCount(img), p, b);
  }
}
