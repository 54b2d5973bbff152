/**
 * `TextureCubeLoader.load(withImageNames:device:commandQueue:)`: six square images of one size
 * written, in order, into the six slices of an RGBA8 cube texture whose mipmaps are then
 * generated. Finding and decoding an image by name is an input: `images(name)` is the decoded
 * image and the bytes `drawRGBA8Bitmap` draws from it.
 */
module TextureCubeLoader {
  import opened Common

  /** A decoded face image: its size and its pixels as drawn into an RGBA8 buffer. */
  datatype FaceImage = FaceImage(width: nat, height: nat, rgba: seq<byte>)

  /** What the loader does to the texture, in order. */
  datatype TextureOp =
    | ReplaceSlice(slice: nat, bytes: seq<byte>, bytesPerRow: nat, bytesPerImage: nat)
    | GenerateMipmaps

  /** The cube texture returned: its edge length, whether it has mipmap levels, and what was done to it. */
  datatype CubeTexture = CubeTexture(size: nat, mipmapped: bool, ops: seq<TextureOp>)

  /** A cube has six faces. */
  const FaceCount: nat := 6

  /** Every face is RGBA8. */
  const BytesPerPixel: nat := 4

  /** The cube size: the first image's width. */
  function CubeSize(names: seq<string>, images: string -> FaceImage): nat
    requires |names| == FaceCount
  {
    images(names[0]).width
  }

  /** A face fits the cube when both its sides equal the cube size. */
  predicate FaceFits(img: FaceImage, size: nat) {
    img.width == size && img.height == size
  }

  /** Every one of the six faces, the first included, fits the cube. */
  predicate AllFacesFit(names: seq<string>, images: string -> FaceImage)
    requires |names| == FaceCount
  {
    forall k :: 0 <= k < FaceCount ==> FaceFits(images(names[k]), CubeSize(names, images))
  }

  /** The write of face k: the image named `names[k]` into slice k, with the rows and images of a size×size RGBA8 face. */
  function SliceWrite(names: seq<string>, images: string -> FaceImage, size: nat, k: nat): (r: TextureOp)
    requires k < |names|
    ensures r.ReplaceSlice? && r.slice == k && r.bytes == images(names[k]).rgba
    ensures r.bytesPerRow == BytesPerPixel * size && r.bytesPerImage == r.bytesPerRow * size
  {
    ReplaceSlice(k, images(names[k]).rgba, BytesPerPixel * size, BytesPerPixel * size * size)
  }

  /** The texture operations of a successful load: slices 0 to 5 in order, then one mipmap generation. */
  function CubeOps(names: seq<string>, images: string -> FaceImage): (r: seq<TextureOp>)
    requires |names| == FaceCount
    ensures |r| == FaceCount + 1 && r[FaceCount] == GenerateMipmaps
    ensures forall k :: 0 <= k < FaceCount ==> r[k] == SliceWrite(names, images, CubeSize(names, images), k)
  {
    seq(FaceCount, k requires 0 <= k < FaceCount => SliceWrite(names, images, CubeSize(names, images), k)) + [GenerateMipmaps]
  }

  /**
   * `load`: anything but six names throws; otherwise each face in turn is checked against the
   * first image's width and, when it fits, written into its slice; the first face that does not
   * fit throws (the texture is then dropped); after all six, the mipmaps are generated.
   */
  method Load(names: seq<string>, images: string -> FaceImage) returns (r: Result<CubeTexture>)
    ensures r.Err? && r.error == WrongFaceCount <==> |names| != FaceCount
    ensures r.Err? && r.error == FaceSizeMismatch <==> |names| == FaceCount && !AllFacesFit(names, images)
    ensures r.Err? ==> r.error == WrongFaceCount || r.error == FaceSizeMismatch
    ensures r.Ok? ==> |names| == FaceCount
                      && r.value == CubeTexture(CubeSize(names, images), true, CubeOps(names, images))
  {
    if |names| != FaceCount {
      return Err(WrongFaceCount);
    }
    var cubeSize := images(names[0]).width;
    var bytesPerRow := BytesPerPixel * cubeSize;
    var bytesPerImage := bytesPerRow * cubeSize;
    var ops: seq<TextureOp> := [];
    for slice := 0 to FaceCount
      invariant ops == seq(slice, k requires 0 <= k < slice => SliceWrite(names, images, cubeSize, k))
      invariant forall k :: 0 <= k < slice ==> FaceFits(images(names[k]), cubeSize)
    {
      var image := images(names[slice]);
      if image.width != cubeSize || image.height != cubeSize {
        return Err(FaceSizeMismatch);
      }
      ops := ops + [ReplaceSlice(slice, image.rgba, bytesPerRow, bytesPerImage)];
    }
    ops := ops + [GenerateMipmaps];
    r := Ok(CubeTexture(cubeSize, true, ops));
  }

  /**
   * What a loaded cube holds: slice k was written exactly once, with face k's pixels, at a row
   * pitch of four bytes per pixel; no slice is written after the mipmaps are generated.
   */
  lemma CubeSlicesWrittenOnce(names: seq<string>, images: string -> FaceImage, k: nat)
    requires |names| == FaceCount && k < FaceCount
    ensures var ops := CubeOps(names, images);
            && (forall j :: 0 <= j < |ops| && ops[j].ReplaceSlice? && ops[j].slice == k ==> j == k)
            && ops[k].bytes == images(names[k]).rgba
            && ops[k].bytesPerRow == BytesPerPixel * CubeSize(names, images)
            && (forall j :: 0 <= j < |ops| && ops[j] == GenerateMipmaps ==> j == FaceCount)
  {
    var ops := CubeOps(names, images);
    forall j | 0 <= j < |ops| && ops[j].ReplaceSlice? && ops[j].slice == k
      ensures j == k
    {
      if j < FaceCount {
        assert ops[j] == SliceWrite(names, images, CubeSize(names, images), j);
      }
    }
  }
}
