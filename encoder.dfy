/** The encode step shared by the three backends' JPEG loops: compress the
    bitmap (and rotate the JPEG by 270 degrees when asked to), place the codec
    bytes at offset 4 of a fresh 512 KiB buffer and write the total length
    into bytes 0..4. libjpeg-turbo is modelled by an opaque `Codec`. */
module Encoder {
  import opened Types
  import opened Framing

  /** The image description handed to the compressor (turbojpeg::Image, BGRA). */
  datatype Image = Image(pixels: seq<byte>, width: nat, pitch: nat, height: nat)

  /** The foreign codec. `compress` is libjpeg-turbo at the given quality
      (4:2:0 subsampling, no optimisation) and `rot270` its lossless
      270-degree transform of a JPEG stream; `None` is a codec error. */
  datatype Codec = Codec(
    compress: (Image, int) -> Option<seq<byte>>,
    rot270: seq<byte> -> Option<seq<byte>>)

  /** `compress_to_slice` into a slice of `capacity` bytes: the codec's output
      when it fits, an error otherwise. */
  function CompressToSlice(codec: Codec, image: Image, quality: int, capacity: nat): (r: Option<seq<byte>>)
    ensures r.Some? ==> |r.value| <= capacity && codec.compress(image, quality) == r
    ensures r.None? ==> codec.compress(image, quality).None? || |codec.compress(image, quality).value| > capacity
  {
    var out := codec.compress(image, quality);
    if out.Some? && |out.value| <= capacity then out else None
  }

  /** `transform_to_slice` with Rot270 into a slice of `capacity` bytes. */
  function TransformToSlice(codec: Codec, src: seq<byte>, capacity: nat): (r: Option<seq<byte>>)
    ensures r.Some? ==> |r.value| <= capacity && codec.rot270(src) == r
    ensures r.None? ==> codec.rot270(src).None? || |codec.rot270(src).value| > capacity
  {
    var out := codec.rot270(src);
    if out.Some? && |out.value| <= capacity then out else None
  }

  /** The codec bytes that end up at offset 4 of the output buffer. Without
      rotation the compressor writes straight into the 512 KiB - 4 bytes after
      the header. With rotation it first writes into the whole 512 KiB scratch
      buffer, and the transform then reads that entire buffer (the new JPEG
      followed by whatever earlier frames left behind it) and writes into the
      slice after the header. */
  function Payload(codec: Codec, image: Image, rotate: bool, quality: int, scratch: seq<byte>): (r: Option<seq<byte>>)
    requires |scratch| == BufSize
    ensures r.Some? ==> |r.value| <= BufSize - 4
    ensures r.Some? && !rotate ==> codec.compress(image, quality) == r
    ensures r.Some? && rotate ==> codec.compress(image, quality).Some? && r == codec.rot270(ScratchAfter(codec, image, quality, scratch))
    ensures !rotate ==> (r.None? <==> CompressToSlice(codec, image, quality, BufSize - 4).None?)
    ensures rotate ==> (r.None? <==>
      CompressToSlice(codec, image, quality, BufSize).None? ||
      TransformToSlice(codec, ScratchAfter(codec, image, quality, scratch), BufSize - 4).None?)
  {
    if rotate then
      match CompressToSlice(codec, image, quality, BufSize)
      case None => None
      case Some(jpeg) => TransformToSlice(codec, jpeg + scratch[|jpeg|..], BufSize - 4)
    else
      CompressToSlice(codec, image, quality, BufSize - 4)
  }

  /** The scratch buffer after the compressor wrote a JPEG into it (unchanged
      when it did not). */
  function ScratchAfter(codec: Codec, image: Image, quality: int, scratch: seq<byte>): (r: seq<byte>)
    requires |scratch| == BufSize
    ensures |r| == BufSize
    ensures var j := CompressToSlice(codec, image, quality, BufSize);
      j.Some? ==> r[..|j.value|] == j.value && r[|j.value|..] == scratch[|j.value|..]
    ensures CompressToSlice(codec, image, quality, BufSize).None? ==> r == scratch
  {
    match CompressToSlice(codec, image, quality, BufSize)
    case None => scratch
    case Some(jpeg) => jpeg + scratch[|jpeg|..]
  }

  /** `dst[offset..offset + |src|].copy_from_slice(src)`. */
  method CopyInto(dst: array<byte>, offset: nat, src: seq<byte>)
    requires offset + |src| <= dst.Length
    modifies dst
    ensures dst[..] == old(dst[..offset]) + src + old(dst[offset + |src|..])
  {
    var i := 0;
    while i < |src|
      invariant 0 <= i <= |src|
      invariant forall k :: 0 <= k < dst.Length ==>
        dst[k] == if offset <= k < offset + i then src[k - offset] else old(dst[k])
    {
      dst[offset + i] := src[i];
      i := i + 1;
    }
    assert forall k :: 0 <= k < dst.Length ==>
      dst[..][k] == (old(dst[..offset]) + src + old(dst[offset + |src|..]))[k];
  }

  /** One encode: compress (and rotate), frame, and return the 512 KiB output
      buffer with its meaningful length (`size + 4`). `None` is a codec error
      or an output that does not fit: the source panics there. */
  method EncodeFramed(codec: Codec, image: Image, rotate: bool, quality: int, scratch: array<byte>)
    returns (converted: Option<seq<byte>>, size: nat)
    requires scratch.Length == BufSize
    modifies scratch
    ensures var p := Payload(codec, image, rotate, quality, old(scratch[..]));
      (converted.Some? <==> p.Some?) &&
      (p.Some? ==> size == |p.value| + 4 && |converted.value| == BufSize &&
                   converted.value[..size] == Framed(p.value))
    ensures scratch[..] == if rotate then ScratchAfter(codec, image, quality, old(scratch[..])) else old(scratch[..])
  {
    var out := new byte[BufSize];
    var payload;
    if rotate {
      var jpeg := CompressToSlice(codec, image, quality, BufSize);
      if jpeg.None? {
        return None, 0;
      }
      CopyInto(scratch, 0, jpeg.value);
      assert scratch[..] == jpeg.value + old(scratch[..])[|jpeg.value|..];
      payload := TransformToSlice(codec, scratch[..], BufSize - 4);
    } else {
      payload := CompressToSlice(codec, image, quality, BufSize - 4);
    }
    if payload.None? {
      return None, 0;
    }
    CopyInto(out, 4, payload.value);
    size := |payload.value| + 4;
    CopyInto(out, 0, U32LeBytes(size));
    converted := Some(out[..]);
    assert converted.value[..size] == U32LeBytes(size) + payload.value;
  }
}
