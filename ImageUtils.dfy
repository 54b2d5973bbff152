/**
 * `ImageUtils.copyBitmap`: the pixels of an image copied into a raw destination buffer whose
 * pixels may be one channel wider; that extra channel is then filled with the value 1 of the
 * component type. The image's bytes are read as tightly packed pixels.
 */
module ImageUtils {
  import opened Common
  import Attributes

  /** What `copyBitmap` reads of a `CGImage`: its size, its bit layout and its pixel bytes. */
  datatype BitmapImage = BitmapImage(width: nat, height: nat, bitsPerPixel: nat, bitsPerComponent: nat, data: seq<byte>)

  function PixelCount(img: BitmapImage): nat {
    img.width * img.height
  }

  /** `bitsPerPixel / bitsPerComponent` */
  function SrcChannelCount(img: BitmapImage): nat
    requires img.bitsPerComponent > 0
  {
    img.bitsPerPixel / img.bitsPerComponent
  }

  /** `bitsPerComponent / 8` */
  function BytesPerComponent(img: BitmapImage): nat {
    img.bitsPerComponent / 8
  }

  /** The extra channel is filled exactly when the destination has one channel more than the source. */
  predicate ShouldFill(img: BitmapImage, dstChannelCount: nat)
    requires img.bitsPerComponent > 0
  {
    dstChannelCount == SrcChannelCount(img) + 1
  }

  /**
   * The in-memory bytes of 1 in a component of `bpc` bytes: `Float` 1.0, half-float 1.0 and the
   * byte 1 (not 255), little-endian; no value for any other size.
   */
  function AlphaOne(bpc: int): (r: Option<seq<byte>>)
    ensures r.Some? <==> bpc == 1 || bpc == 2 || bpc == 4
    ensures r.Some? ==> |r.value| == bpc
  {
    if bpc == 4 then Some([0x00, 0x00, 0x80, 0x3F])
    else if bpc == 2 then Some([0x00, 0x3C])
    else if bpc == 1 then Some([0x01])
    else None
  }

  /** The bytes written after each pixel's colour: the fill when there is one, else nothing. */
  function FillBytes(img: BitmapImage, dstChannelCount: nat): seq<byte>
    requires img.bitsPerComponent > 0
  {
    if ShouldFill(img, dstChannelCount) && AlphaOne(BytesPerComponent(img)).Some?
    then AlphaOne(BytesPerComponent(img)).value
    else []
  }

  /** `s` with `bytes` written from offset `at`: what `copyMemory(from:byteCount:)` does. */
  function Spliced(s: seq<byte>, at: nat, bytes: seq<byte>): (r: seq<byte>)
    requires at + |bytes| <= |s|
    ensures |r| == |s|
  {
    s[..at] + bytes + s[at + |bytes|..]
  }

  /** Byte i of the spliced sequence: from `bytes` inside the written span, else as it was. */
  lemma SplicedAt(s: seq<byte>, at: nat, bytes: seq<byte>)
    requires at + |bytes| <= |s|
    ensures forall i :: 0 <= i < |s| ==> Spliced(s, at, bytes)[i] == (if at <= i < at + |bytes| then bytes[i - at] else s[i])
  {
  }

  /** What the spans of n pixels need: a pixel's colour and fill fit in it, and the buffers hold n pixels. */
  predicate SpansFit(dst: seq<byte>, src: seq<byte>, srcPixel: nat, dstPixel: nat, fill: seq<byte>, n: nat) {
    srcPixel + |fill| <= dstPixel && n * srcPixel <= |src| && n * dstPixel <= |dst|
  }

  /** One pixel written over `prev`: its colour copied to `at`, then the fill right after it. */
  function PixelWritten(prev: seq<byte>, colour: seq<byte>, at: nat, fill: seq<byte>): (r: seq<byte>)
    requires at + |colour| + |fill| <= |prev|
    ensures |r| == |prev|
  {
    Spliced(Spliced(prev, at, colour), at + |colour|, fill)
  }

  /** Byte i after the pixel is written: from the colour, from the fill, or as it was. */
  lemma PixelWrittenAt(prev: seq<byte>, colour: seq<byte>, at: nat, fill: seq<byte>, i: nat)
    requires at + |colour| + |fill| <= |prev| && i < |prev|
    ensures PixelWritten(prev, colour, at, fill)[i]
         == (if at <= i < at + |colour| then colour[i - at]
             else if at + |colour| <= i < at + |colour| + |fill| then fill[i - at - |colour|]
             else prev[i])
  {
    SplicedAt(prev, at, colour);
    SplicedAt(Spliced(prev, at, colour), at + |colour|, fill);
  }

  /**
   * The destination once the first n pixels are done, as `copyBitmap` leaves it: pixel after
   * pixel, each written over the result for the pixels before it.
   */
  ghost function Copied(dst: seq<byte>, src: seq<byte>, srcPixel: nat, dstPixel: nat, fill: seq<byte>, n: nat): (r: seq<byte>)
    requires SpansFit(dst, src, srcPixel, dstPixel, fill, n)
    ensures |r| == |dst|
    decreases n
  {
    if n == 0 then dst
    else
      var p := n - 1;
      PixelSpans(p, n, srcPixel, dstPixel);
      PixelWritten(Copied(dst, src, srcPixel, dstPixel, fill, p), src[p * srcPixel..p * srcPixel + srcPixel], p * dstPixel, fill)
  }

  /**
   * The same destination, byte by byte, with no loop: a byte at offset r of destination pixel
   * q < n is byte r of source pixel q when r < srcPixel, byte r - srcPixel of the fill when it
   * falls in the fill, and its old value otherwise; bytes of later pixels keep their old values.
   */
  ghost function CopiedByte(dst: seq<byte>, src: seq<byte>, srcPixel: nat, dstPixel: nat, fill: seq<byte>, n: nat, i: nat): byte
    requires SpansFit(dst, src, srcPixel, dstPixel, fill, n) && i < |dst|
  {
    if dstPixel == 0 || i / dstPixel >= n then dst[i]
    else if i % dstPixel < srcPixel then
      MulBelow(i / dstPixel, i % dstPixel, srcPixel, n);
      src[(i / dstPixel) * srcPixel + i % dstPixel]
    else if i % dstPixel < srcPixel + |fill| then fill[i % dstPixel - srcPixel]
    else dst[i]
  }

  /** q * k + r < n * k when q < n and r < k. */
  lemma MulBelow(q: nat, r: nat, k: nat, n: nat)
    requires q < n && r < k
    ensures q * k + r < n * k
  {
    assert n * k == q * k + (n - q) * k;
    Attributes.MulAtLeastOne(n - q, k);
  }

  lemma MulMonotone(a: nat, b: nat, k: nat)
    requires a <= b
    ensures a * k <= b * k
  {
    assert b * k == a * k + (b - a) * k;
  }

  /** The first and the last pixel's spans of p + 1 pixels fit in those of n when p < n. */
  lemma PixelSpans(p: nat, n: nat, srcPixel: nat, dstPixel: nat)
    requires p < n
    ensures (p + 1) * srcPixel <= n * srcPixel && (p + 1) * dstPixel <= n * dstPixel
    ensures p * srcPixel + srcPixel == (p + 1) * srcPixel && p * dstPixel + dstPixel == (p + 1) * dstPixel
    ensures 0 <= p * srcPixel && 0 <= p * dstPixel
  {
    MulMonotone(p + 1, n, srcPixel);
    MulMonotone(p + 1, n, dstPixel);
  }

  /** The pixel index of a byte, compared with p: below p's bytes, inside them, or above. */
  lemma PixelOfByte(i: nat, p: nat, d: nat)
    requires d > 0
    ensures i < p * d ==> i / d < p
    ensures p * d <= i < p * d + d ==> i / d == p && i % d == i - p * d
    ensures p * d + d <= i ==> i / d > p
  {
    var q, r := i / d, i % d;
    assert i == q * d + r && r < d;
    if p <= q {
      MulMonotone(p, q, d);
    }
    if q <= p {
      MulMonotone(q, p, d);
    }
    if p * d <= i < p * d + d {
      Attributes.DivModOfSlot(p, i - p * d, d);
    }
    if p + 1 <= q {
      MulMonotone(p + 1, q, d);
    }
  }

  /** The pixel loop and the byte-by-byte description agree on every byte. */
  lemma {:induction false} CopiedIsCopiedByte(dst: seq<byte>, src: seq<byte>, srcPixel: nat, dstPixel: nat, fill: seq<byte>, n: nat, i: nat)
    requires SpansFit(dst, src, srcPixel, dstPixel, fill, n) && i < |dst|
    ensures Copied(dst, src, srcPixel, dstPixel, fill, n)[i] == CopiedByte(dst, src, srcPixel, dstPixel, fill, n, i)
    decreases n
  {
    if n > 0 {
      var p := n - 1;
      CopiedStep(dst, src, srcPixel, dstPixel, fill, p);
      CopiedIsCopiedByte(dst, src, srcPixel, dstPixel, fill, p, i);
      var prev := Copied(dst, src, srcPixel, dstPixel, fill, p);
      var colour := src[p * srcPixel..p * srcPixel + srcPixel];
      var at := p * dstPixel;
      PixelWrittenAt(prev, colour, at, fill, i);
      if dstPixel == 0 || i < at || at + dstPixel <= i {
        assert CopiedByte(dst, src, srcPixel, dstPixel, fill, n, i) == CopiedByte(dst, src, srcPixel, dstPixel, fill, p, i) by {
          if dstPixel > 0 {
            PixelOfByte(i, p, dstPixel);
          }
        }
      } else {
        var r := i - at;
        assert i / dstPixel == p && i % dstPixel == r by {
          PixelOfByte(i, p, dstPixel);
        }
        assert prev[i] == dst[i];
        if r < srcPixel {
          assert colour[r] == src[p * srcPixel + r];
        }
      }
    }
  }

  /** Byte b of the colour of pixel p < n sits at `p * dstPixel + b` and comes from `p * srcPixel + b`. */
  lemma CopiedColour(dst: seq<byte>, src: seq<byte>, srcPixel: nat, dstPixel: nat, fill: seq<byte>, n: nat, p: nat, b: nat)
    requires SpansFit(dst, src, srcPixel, dstPixel, fill, n)
    requires p < n && b < srcPixel
    ensures 0 <= p * srcPixel && 0 <= p * dstPixel
    ensures p * srcPixel + b < |src| && p * dstPixel + b < |dst|
    ensures Copied(dst, src, srcPixel, dstPixel, fill, n)[p * dstPixel + b] == src[p * srcPixel + b]
  {
    PixelSpans(p, n, srcPixel, dstPixel);
    MulBelow(p, b, srcPixel, n);
    MulBelow(p, b, dstPixel, n);
    PixelOfByte(p * dstPixel + b, p, dstPixel);
    CopiedIsCopiedByte(dst, src, srcPixel, dstPixel, fill, n, p * dstPixel + b);
  }

  /** Byte b of the fill of pixel p < n sits right after that pixel's colour. */
  lemma CopiedFill(dst: seq<byte>, src: seq<byte>, srcPixel: nat, dstPixel: nat, fill: seq<byte>, n: nat, p: nat, b: nat)
    requires SpansFit(dst, src, srcPixel, dstPixel, fill, n)
    requires p < n && b < |fill|
    ensures 0 <= p * srcPixel && 0 <= p * dstPixel
    ensures p * dstPixel + srcPixel + b < |dst|
    ensures Copied(dst, src, srcPixel, dstPixel, fill, n)[p * dstPixel + srcPixel + b] == fill[b]
  {
    PixelSpans(p, n, srcPixel, dstPixel);
    MulBelow(p, srcPixel + b, dstPixel, n);
    PixelOfByte(p * dstPixel + srcPixel + b, p, dstPixel);
    CopiedIsCopiedByte(dst, src, srcPixel, dstPixel, fill, n, p * dstPixel + srcPixel + b);
  }

  /** Inside a pixel, the bytes after the colour and the fill keep their old values. */
  lemma CopiedGap(dst: seq<byte>, src: seq<byte>, srcPixel: nat, dstPixel: nat, fill: seq<byte>, n: nat, p: nat, b: nat)
    requires SpansFit(dst, src, srcPixel, dstPixel, fill, n)
    requires p < n && srcPixel + |fill| <= b < dstPixel
    ensures 0 <= p * srcPixel && 0 <= p * dstPixel
    ensures p * dstPixel + b < |dst|
    ensures Copied(dst, src, srcPixel, dstPixel, fill, n)[p * dstPixel + b] == dst[p * dstPixel + b]
  {
    PixelSpans(p, n, srcPixel, dstPixel);
    MulBelow(p, b, dstPixel, n);
    PixelOfByte(p * dstPixel + b, p, dstPixel);
    CopiedIsCopiedByte(dst, src, srcPixel, dstPixel, fill, n, p * dstPixel + b);
  }

  /** Bytes past the n-th destination pixel keep their old values. */
  lemma CopiedBeyond(dst: seq<byte>, src: seq<byte>, srcPixel: nat, dstPixel: nat, fill: seq<byte>, n: nat, i: nat)
    requires SpansFit(dst, src, srcPixel, dstPixel, fill, n)
    requires n * dstPixel <= i < |dst|
    ensures Copied(dst, src, srcPixel, dstPixel, fill, n)[i] == dst[i]
  {
    if dstPixel > 0 && n > 0 {
      PixelOfByte(i, n - 1, dstPixel);
      assert (n - 1) * dstPixel + dstPixel == n * dstPixel;
    }
    CopiedIsCopiedByte(dst, src, srcPixel, dstPixel, fill, n, i);
  }

  /** Byte b of destination pixel p < n: from the source pixel, from the fill, or as it was. */
  lemma CopiedPixelByte(dst: seq<byte>, src: seq<byte>, srcPixel: nat, dstPixel: nat, fill: seq<byte>, n: nat, p: nat, b: nat)
    requires SpansFit(dst, src, srcPixel, dstPixel, fill, n)
    requires p < n && b < dstPixel
    ensures 0 <= p * srcPixel && 0 <= p * dstPixel
    ensures p * dstPixel + b < |dst| && (b < srcPixel ==> p * srcPixel + b < |src|)
    ensures Copied(dst, src, srcPixel, dstPixel, fill, n)[p * dstPixel + b]
         == if b < srcPixel then src[p * srcPixel + b]
            else if b < srcPixel + |fill| then fill[b - srcPixel]
            else dst[p * dstPixel + b]
  {
    if b < srcPixel {
      CopiedColour(dst, src, srcPixel, dstPixel, fill, n, p, b);
    } else if b < srcPixel + |fill| {
      CopiedFill(dst, src, srcPixel, dstPixel, fill, n, p, b - srcPixel);
    } else {
      CopiedGap(dst, src, srcPixel, dstPixel, fill, n, p, b);
    }
  }

  /** `copyMemory(from:byteCount:)` into `dst` at offset `at`. */
  method CopyMemory(dst: array<byte>, at: nat, bytes: seq<byte>)
    requires at + |bytes| <= dst.Length
    modifies dst
    ensures dst[..] == Spliced(old(dst[..]), at, bytes)
  {
    for k := 0 to |bytes|
      invariant forall i :: 0 <= i < dst.Length ==> dst[i] == (if at <= i < at + k then bytes[i - at] else old(dst[i]))
    {
      dst[at + k] := bytes[k];
    }
    SplicedAt(old(dst[..]), at, bytes);
  }

  /** Bytes per source pixel: `srcChannelCount * bytesPerComponent`. */
  function SrcPixelBytes(img: BitmapImage): nat
    requires img.bitsPerComponent > 0
  {
    SrcChannelCount(img) * BytesPerComponent(img)
  }

  /** Bytes per destination pixel: `dstChannelCount * bytesPerComponent`. */
  function DstPixelBytes(img: BitmapImage, dstChannelCount: nat): nat {
    dstChannelCount * BytesPerComponent(img)
  }

  /**
   * What the caller of `copyBitmap` must provide: a non-zero component size (it divides by it),
   * a destination pixel at least as wide as a source pixel, source bytes for every pixel, and
   * room in the destination for every pixel.
   */
  predicate CopyFits(img: BitmapImage, dstChannelCount: nat, dstLength: nat) {
    && img.bitsPerComponent > 0
    && dstChannelCount >= SrcChannelCount(img)
    && PixelCount(img) * SrcPixelBytes(img) <= |img.data|
    && PixelCount(img) * DstPixelBytes(img, dstChannelCount) <= dstLength
  }

  lemma CopyFitsSpans(img: BitmapImage, dstChannelCount: nat, dst: seq<byte>, withFill: bool, n: nat)
    requires CopyFits(img, dstChannelCount, |dst|) && n <= PixelCount(img)
    ensures SpansFit(dst, img.data, SrcPixelBytes(img), DstPixelBytes(img, dstChannelCount),
                     if withFill then FillBytes(img, dstChannelCount) else [], n)
  {
    var bpc := BytesPerComponent(img);
    MulMonotone(SrcChannelCount(img), dstChannelCount, bpc);
    if ShouldFill(img, dstChannelCount) {
      assert DstPixelBytes(img, dstChannelCount) == (SrcChannelCount(img) + 1) * bpc == SrcPixelBytes(img) + bpc;
    }
    MulMonotone(n, PixelCount(img), SrcPixelBytes(img));
    MulMonotone(n, PixelCount(img), DstPixelBytes(img, dstChannelCount));
  }

  /** The destination after `copyBitmap` has handled n pixels, with or without the fill. */
  ghost function CopiedPixels(dst: seq<byte>, img: BitmapImage, dstChannelCount: nat, withFill: bool, n: nat): (r: seq<byte>)
    requires CopyFits(img, dstChannelCount, |dst|) && n <= PixelCount(img)
    ensures |r| == |dst|
  {
    CopyFitsSpans(img, dstChannelCount, dst, withFill, n);
    Copied(dst, img.data, SrcPixelBytes(img), DstPixelBytes(img, dstChannelCount),
           if withFill then FillBytes(img, dstChannelCount) else [], n)
  }

  /** Byte b of pixel p after `copyBitmap` with the fill: colour bytes, then the fill, then what was there. */
  lemma CopiedPixelsByte(dst: seq<byte>, img: BitmapImage, dstChannelCount: nat, n: nat, p: nat, b: nat)
    requires CopyFits(img, dstChannelCount, |dst|) && n <= PixelCount(img)
    requires p < n && b < DstPixelBytes(img, dstChannelCount)
    ensures 0 <= p * DstPixelBytes(img, dstChannelCount) && 0 <= p * SrcPixelBytes(img)
    ensures p * DstPixelBytes(img, dstChannelCount) + b < |dst|
    ensures b < SrcPixelBytes(img) ==> p * SrcPixelBytes(img) + b < |img.data|
    ensures CopiedPixels(dst, img, dstChannelCount, true, n)[p * DstPixelBytes(img, dstChannelCount) + b]
         == if b < SrcPixelBytes(img) then img.data[p * SrcPixelBytes(img) + b]
            else if b < SrcPixelBytes(img) + |FillBytes(img, dstChannelCount)| then FillBytes(img, dstChannelCount)[b - SrcPixelBytes(img)]
            else dst[p * DstPixelBytes(img, dstChannelCount) + b]
  {
    PixelSpans(p, n, SrcPixelBytes(img), DstPixelBytes(img, dstChannelCount));
    CopyFitsSpans(img, dstChannelCount, dst, true, n);
    CopiedPixelByte(dst, img.data, SrcPixelBytes(img), DstPixelBytes(img, dstChannelCount), FillBytes(img, dstChannelCount), n, p, b);
  }

  /**
   * The pixel loop of `copyBitmap`, on the sizes it has worked out: each pixel's colour bytes,
   * then, when filling, the bytes of 1 — or a throw when the component size has none.
   */
  method CopyPixels(dst: array<byte>, src: seq<byte>, srcPixel: nat, dstPixel: nat, n: nat,
                    shouldFill: bool, one: Option<seq<byte>>)
    returns (r: Result<()>)
    requires SpansFit(dst[..], src, srcPixel, dstPixel, if shouldFill && one.Some? then one.value else [], n)
    modifies dst
    ensures r.Err? <==> shouldFill && one.None? && n > 0
    ensures r.Err? ==> r.error == UnsupportedFormat
    ensures r.Ok? ==> dst[..] == Copied(old(dst[..]), src, srcPixel, dstPixel,
                                        if shouldFill && one.Some? then one.value else [], n)
    ensures r.Err? ==> SpansFit(old(dst[..]), src, srcPixel, dstPixel, [], 1)
                       && dst[..] == Copied(old(dst[..]), src, srcPixel, dstPixel, [], 1)
  {
    ghost var fill := if shouldFill && one.Some? then one.value else [];
    ghost var dst0 := dst[..];
    for p := 0 to n
      invariant SpansFit(dst0, src, srcPixel, dstPixel, fill, p)
      invariant dst[..] == Copied(dst0, src, srcPixel, dstPixel, fill, p)
      invariant p > 0 ==> !(shouldFill && one.None?)
    {
      assert SpansFit(dst0, src, srcPixel, dstPixel, fill, p + 1) by {
        PixelSpans(p, n, srcPixel, dstPixel);
      }
      CopiedStep(dst0, src, srcPixel, dstPixel, fill, p);
      var from, at := p * srcPixel, p * dstPixel;
      r := CopyOnePixel(dst, src[from..from + srcPixel], at, shouldFill, one);
      if r.Err? {
        return;
      }
    }
    r := Ok(());
  }

  /** Copied over p + 1 pixels is pixel p written over Copied over p pixels. */
  lemma CopiedStep(dst: seq<byte>, src: seq<byte>, srcPixel: nat, dstPixel: nat, fill: seq<byte>, p: nat)
    requires SpansFit(dst, src, srcPixel, dstPixel, fill, p + 1)
    ensures 0 <= p * srcPixel && 0 <= p * dstPixel
    ensures p * srcPixel + srcPixel <= |src| && p * dstPixel + srcPixel + |fill| <= |dst|
    ensures SpansFit(dst, src, srcPixel, dstPixel, fill, p)
    ensures Copied(dst, src, srcPixel, dstPixel, fill, p + 1)
         == PixelWritten(Copied(dst, src, srcPixel, dstPixel, fill, p),
                         src[p * srcPixel..p * srcPixel + srcPixel], p * dstPixel, fill)
  {
    PixelSpans(p, p + 1, srcPixel, dstPixel);
  }

  /**
   * One turn of the pixel loop: the colour bytes go to `at`; when filling, the bytes of 1 follow
   * them, or, when the component size has none, the turn throws after the colour bytes.
   */
  method CopyOnePixel(dst: array<byte>, colour: seq<byte>, at: nat, shouldFill: bool, one: Option<seq<byte>>)
    returns (r: Result<()>)
    requires at + |colour| + |if shouldFill && one.Some? then one.value else []| <= dst.Length
    modifies dst
    ensures r.Err? <==> shouldFill && one.None?
    ensures r.Err? ==> r.error == UnsupportedFormat
    ensures r.Ok? ==> dst[..] == PixelWritten(old(dst[..]), colour, at, if shouldFill && one.Some? then one.value else [])
    ensures r.Err? ==> dst[..] == PixelWritten(old(dst[..]), colour, at, [])
  {
    CopyMemory(dst, at, colour);
    ghost var mid := dst[..];
    if shouldFill {
      if one.None? {
        SplicedNothing(mid, at + |colour|);
        return Err(UnsupportedFormat);
      }
      CopyMemory(dst, at + |colour|, one.value);
    } else {
      SplicedNothing(mid, at + |colour|);
    }
    r := Ok(());
  }

  lemma SplicedNothing(s: seq<byte>, at: nat)
    requires at <= |s|
    ensures Spliced(s, at, []) == s
  {
    assert s[..at] + s[at..] == s;
  }

  /**
   * `copyBitmap(to:dstChannelCount:fromImage:)`. Every pixel's colour bytes are copied; when the
   * fill is on, the component after them is set to 1, and a component size other than 1, 2 or 4
   * throws on the first pixel, after that pixel's colour bytes were copied.
   */
  method CopyBitmap(dst: array<byte>, dstChannelCount: nat, img: BitmapImage) returns (r: Result<()>)
    requires CopyFits(img, dstChannelCount, dst.Length)
    modifies dst
    ensures r.Err? <==> ShouldFill(img, dstChannelCount) && AlphaOne(BytesPerComponent(img)).None? && PixelCount(img) > 0
    ensures r.Err? ==> r.error == UnsupportedFormat
    ensures r.Ok? ==> dst[..] == CopiedPixels(old(dst[..]), img, dstChannelCount, true, PixelCount(img))
    ensures r.Err? ==> dst[..] == CopiedPixels(old(dst[..]), img, dstChannelCount, false, 1)
  {
    CopyFitsSpans(img, dstChannelCount, dst[..], true, PixelCount(img));
    r := CopyPixels(dst, img.data, SrcPixelBytes(img), DstPixelBytes(img, dstChannelCount), PixelCount(img),
                    ShouldFill(img, dstChannelCount), AlphaOne(BytesPerComponent(img)));
  }
}
