/** The resize stage's rule: a frame that is not of a canonical size is
    scaled (nearest neighbour, no cropping) to the canonical size of its own
    orientation. The resampling itself is done by fast_image_resize and is
    modelled by an opaque `Resampler`. */
module Resize {
  import opened Types
  import opened Intake

  /** The canonical size a frame is resized to: landscape when wider than
      tall, portrait otherwise (so a square frame becomes portrait). */
  function ResizeTarget(width: nat, height: nat): (r: (nat, nat))
    ensures IsCanonical(r.0, r.1)
    ensures r.0 > r.1 <==> width > height
    ensures r.0 * r.1 * BytesPerPixel == 1280 * 720 * 4
  {
    if width > height then (1280, 720) else (720, 1280)
  }

  /** The foreign resampler. `accepts` says whether fast_image_resize takes a
      source buffer of the given size as an image (container creation and the
      resize call succeed); `pixel` gives byte i of the nearest-neighbour
      result for the given source and target sizes. No pixel value is modelled. */
  datatype Resampler = Resampler(
    accepts: (seq<byte>, nat, nat) -> bool,
    pixel: (seq<byte>, nat, nat, nat, nat, nat) -> byte)

  /** One pass of the resize loop body: a fresh buffer of target size filled
      by the resampler, with the fps sample carried over. `None` is a failed
      container creation or resize, on which the thread panics. */
  function ResizeFrame(frame: FrameCaptureData, rs: Resampler): (r: Option<FrameCaptureData>)
    ensures r.Some? <==> rs.accepts(frame.data, frame.width, frame.height)
    ensures r.Some? ==> (r.value.width, r.value.height) == ResizeTarget(frame.width, frame.height)
    ensures r.Some? ==> |r.value.data| == r.value.width * r.value.height * BytesPerPixel
    ensures r.Some? ==> r.value.fps == frame.fps
  {
    if !rs.accepts(frame.data, frame.width, frame.height) then None
    else
      var (rwidth, rheight) := ResizeTarget(frame.width, frame.height);
      var n := rwidth * rheight * BytesPerPixel;
      var resized := seq(n, i requires 0 <= i < n => rs.pixel(frame.data, frame.width, frame.height, rwidth, rheight, i));
      Some(FrameCaptureData(resized, rwidth, rheight, frame.fps))
  }

  /** The size of the frame the encoder receives for a captured frame of the
      given size, along whichever path the router chose. */
  function EncoderSize(width: nat, height: nat): (nat, nat)
  {
    if RouteFor(width, height) == ToEncoder then (width, height) else ResizeTarget(width, height)
  }

  /** Whatever its captured size, the frame the encoder gets is canonical and
      is wider than tall exactly when the captured frame was: the encoder's
      rotation decision follows the original orientation on both paths. */
  lemma EncoderSeesOriginalOrientation(width: nat, height: nat)
    ensures IsCanonical(EncoderSize(width, height).0, EncoderSize(width, height).1)
    ensures EncoderSize(width, height).0 > EncoderSize(width, height).1 <==> width > height
    ensures IsCanonical(width, height) ==> EncoderSize(width, height) == (width, height)
  {
  }
}
