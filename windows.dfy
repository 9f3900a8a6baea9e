/** The Windows capture pipeline (streamer-rs/src/capture/windows.rs): the same
    resize and JPEG threads as the common pipeline, fed by a windows-capture
    handler (`StreamOutput`) whose frame callback counts and routes frames. */
module Windows {
  import opened Types
  import opened Channel
  import opened Intake
  import opened Resize
  import opened Quality
  import opened Framing
  import opened Encoder

  /** A mapped frame buffer: raw BGRA bytes and the buffer's size. */
  datatype FrameBuffer = FrameBuffer(data: seq<byte>, width: nat, height: nat)

  /** The capture handler: the two senders it was built with, the frame
      counter and the start of the current one-second window. */
  class StreamOutput {
    const reszTx: SyncSlot<FrameCaptureData>
    const jpegTx: SyncSlot<FrameCaptureData>
    var frames: nat
    var start: real

    /** `new`: counter at zero, window starting now. */
    constructor New(reszTx: SyncSlot<FrameCaptureData>, jpegTx: SyncSlot<FrameCaptureData>, now: real)
      ensures this.reszTx == reszTx && this.jpegTx == jpegTx
      ensures frames == 0 && start == now
    {
      this.reszTx := reszTx;
      this.jpegTx := jpegTx;
      frames := 0;
      start := now;
    }

    /** `on_frame_arrived`. When the frame's buffer cannot be mapped the
        handler returns an error (`ok` is false) before counting. Otherwise
        every frame is counted (there is no empty-frame check here), may close
        the fps window, and is offered to the encoder's channel when it has a
        canonical size and to the resizer's otherwise. */
    method OnFrameArrived(buffer: Option<FrameBuffer>, now: real) returns (ok: bool)
      requires reszTx != jpegTx
      modifies this, reszTx, jpegTx
      ensures ok <==> buffer.Some?
      ensures !ok ==>
        frames == old(frames) && start == old(start) && reszTx.slot == old(reszTx.slot) && jpegTx.slot == old(jpegTx.slot)
      ensures ok ==>
        var b := buffer.value;
        var t := CountFrame(old(frames), now - old(start) >= 1.0);
        var captured := FrameCaptureData(b.data, b.width, b.height, t.fps);
        frames == t.frames && start == (if t.fps.Some? then now else old(start)) &&
        if RouteFor(b.width, b.height) == ToEncoder
        then jpegTx.slot == Offer(old(jpegTx.slot), captured).0 && reszTx.slot == old(reszTx.slot)
        else reszTx.slot == Offer(old(reszTx.slot), captured).0 && jpegTx.slot == old(jpegTx.slot)
    {
      if buffer.None? {
        return false;
      }
      var b := buffer.value;
      frames := frames + 1;
      var fps: Option<nat> := None;
      if now - start >= 1.0 {
        fps := Some(frames);
        frames := 0;
        start := now;
      }
      var captured := FrameCaptureData(b.data, b.width, b.height, fps);
      if (b.width, b.height) == (1280, 720) || (b.width, b.height) == (720, 1280) {
        var _ := jpegTx.TrySend(captured);
      } else {
        var _ := reszTx.TrySend(captured);
      }
      return true;
    }
  }

  /** One pass of the resize loop: resize to the canonical size of the
      frame's orientation and offer it to the encoder's channel; a resampler
      failure panics. */
  method ResizeStep(frame: FrameCaptureData, rs: Resampler, jpegTx: SyncSlot<FrameCaptureData>) returns (step: Step)
    modifies jpegTx
    ensures step == Panic <==> ResizeFrame(frame, rs).None?
    ensures step == Panic ==> jpegTx.slot == old(jpegTx.slot)
    ensures step == Continue ==> jpegTx.slot == Offer(old(jpegTx.slot), ResizeFrame(frame, rs).value).0
  {
    var resized := ResizeFrame(frame, rs);
    if resized.None? {
      return Panic;
    }
    var _ := jpegTx.TrySend(resized.value);
    return Continue;
  }

  /** The image the JPEG thread declares: 1280x720 with pitch width * 4,
      whatever the frame's orientation. */
  function JpegImage(frame: FrameCaptureData): (image: Image)
    ensures image.pixels == frame.data && image.pitch == frame.width * BytesPerPixel
    ensures (image.width, image.height) == (1280, 720)
  {
    Image(frame.data, 1280, frame.width * BytesPerPixel, 720)
  }

  /** The JPEG thread's loop state. */
  class JpegThread {
    const codec: Codec
    const convTx: SyncSlot<FrameConvertedData>
    const compressBuffer: array<byte>
    var qualityLevel: nat
    var compressorQuality: int
    var last: real

    ghost predicate Valid()
      reads this
    {
      qualityLevel < |Levels| && compressorQuality == Levels[qualityLevel] &&
      compressBuffer.Length == BufSize
    }

    constructor (codec: Codec, convTx: SyncSlot<FrameConvertedData>, now: real)
      ensures Valid() && fresh(compressBuffer)
      ensures this.codec == codec && this.convTx == convTx
      ensures qualityLevel == InitialLevel && last == now
      ensures forall i :: 0 <= i < compressBuffer.Length ==> compressBuffer[i] == 0
    {
      this.codec := codec;
      this.convTx := convTx;
      qualityLevel := 0;
      compressorQuality := Levels[0];
      compressBuffer := new byte[BufSize](_ => 0);
      last := now;
    }

    /** One pass of the JPEG loop: compress at the current quality, rotate by
        270 degrees exactly when the frame is wider than tall, frame, offer to
        the transport's channel tagged with the quality used, then one
        controller step on this frame's throughput. None is a panic. */
    method OnFrame(frame: FrameCaptureData, now: real) returns (produced: Option<FrameConvertedData>)
      requires Valid() && now > last
      modifies this, compressBuffer, convTx
      ensures Valid()
      ensures var p := Payload(codec, JpegImage(frame), frame.width > frame.height, old(compressorQuality), old(compressBuffer[..]));
        (produced.Some? <==> p.Some?) &&
        (p.Some? ==>
          var out := produced.value;
          |out.data| == BufSize && out.dataSize == |p.value| + 4 && out.data[..out.dataSize] == Framed(p.value) &&
          out.quality == Levels[old(qualityLevel)] && out.fps == frame.fps &&
          convTx.slot == Offer(old(convTx.slot), out).0 &&
          qualityLevel == NextLevel(old(qualityLevel), TxSpeed(out.dataSize, now - old(last))) &&
          last == now)
      ensures compressBuffer[..] ==
        if frame.width > frame.height
        then ScratchAfter(codec, JpegImage(frame), old(compressorQuality), old(compressBuffer[..]))
        else old(compressBuffer[..])
    {
      var image := JpegImage(frame);
      var converted, size := EncodeFramed(codec, image, frame.width > frame.height, compressorQuality, compressBuffer);
      if converted.None? {
        return None;
      }
      var data := FrameConvertedData(converted.value, size, Levels[qualityLevel], frame.fps);
      var _ := convTx.TrySend(data);
      var txSpeed := TxSpeed(size, now - last);
      if qualityLevel > 0 && txSpeed > HighSpeed {
        qualityLevel := qualityLevel - 1;
        compressorQuality := Levels[qualityLevel];
      } else if qualityLevel + 1 < |Levels| && txSpeed < LowSpeed {
        qualityLevel := qualityLevel + 1;
        compressorQuality := Levels[qualityLevel];
      }
      last := now;
      return Some(data);
    }
  }

  /** `start`: the channels, the capture handler and the JPEG thread state as
      wired together. The display index is not used: capture always runs on
      the primary monitor. */
  class Context {
    const resz: SyncSlot<FrameCaptureData>
    const jpeg: SyncSlot<FrameCaptureData>
    const conv: SyncSlot<FrameConvertedData>
    const handler: StreamOutput
    const encoder: JpegThread

    ghost predicate Valid()
      reads this, handler, encoder
    {
      resz != jpeg &&
      handler.reszTx == resz && handler.jpegTx == jpeg && encoder.convTx == conv &&
      encoder.Valid()
    }

    constructor Start(displayIndex: Option<nat>, codec: Codec, now: real)
      ensures Valid()
      ensures fresh(resz) && fresh(jpeg) && fresh(conv) && fresh(handler) && fresh(encoder)
      ensures resz.slot == None && jpeg.slot == None && conv.slot == None
      ensures handler.frames == 0 && encoder.qualityLevel == InitialLevel
      ensures handler.start == now && encoder.last == now
      ensures forall i :: 0 <= i < encoder.compressBuffer.Length ==> encoder.compressBuffer[i] == 0
    {
      var reszSlot := new SyncSlot();
      var jpegSlot := new SyncSlot();
      var convSlot := new SyncSlot();
      resz, jpeg, conv := reszSlot, jpegSlot, convSlot;
      handler := new StreamOutput.New(reszSlot, jpegSlot, now);
      encoder := new JpegThread(codec, convSlot, now);
    }

    /** One pass of the resize thread: take the frame waiting in `resz`
        (None while the slot is empty, where the source blocks) and hand it
        to `ResizeStep`. */
    method ResizePass(rs: Resampler) returns (received: Option<FrameCaptureData>, step: Step)
      requires Valid()
      modifies resz, jpeg
      ensures received == old(resz.slot) && resz.slot == None
      ensures received.None? ==> step == Continue && jpeg.slot == old(jpeg.slot)
      ensures received.Some? ==>
        (step == Panic <==> ResizeFrame(received.value, rs).None?) &&
        (step == Panic ==> jpeg.slot == old(jpeg.slot)) &&
        (step == Continue ==> jpeg.slot == Offer(old(jpeg.slot), ResizeFrame(received.value, rs).value).0)
    {
      received := resz.Recv();
      if received.None? {
        return received, Continue;
      }
      step := ResizeStep(received.value, rs, jpeg);
    }

    /** One pass of the JPEG thread: take the frame waiting in `jpeg` (None
        while the slot is empty) and hand it to the encoder's `OnFrame`. */
    method JpegPass(now: real) returns (received: Option<FrameCaptureData>, produced: Option<FrameConvertedData>)
      requires Valid() && now > encoder.last
      modifies jpeg, encoder, encoder.compressBuffer, conv
      ensures Valid()
      ensures received == old(jpeg.slot) && jpeg.slot == None
      ensures received.None? ==>
        produced.None? && conv.slot == old(conv.slot) &&
        encoder.qualityLevel == old(encoder.qualityLevel) && encoder.last == old(encoder.last) &&
        encoder.compressBuffer[..] == old(encoder.compressBuffer[..])
      ensures received.Some? ==>
        var frame := received.value;
        var p := Payload(encoder.codec, JpegImage(frame), frame.width > frame.height,
                         old(encoder.compressorQuality), old(encoder.compressBuffer[..]));
        (produced.Some? <==> p.Some?) &&
        (p.Some? ==>
          var out := produced.value;
          |out.data| == BufSize && out.dataSize == |p.value| + 4 && out.data[..out.dataSize] == Framed(p.value) &&
          out.quality == Levels[old(encoder.qualityLevel)] && out.fps == frame.fps &&
          conv.slot == Offer(old(conv.slot), out).0 &&
          encoder.qualityLevel == NextLevel(old(encoder.qualityLevel), TxSpeed(out.dataSize, now - old(encoder.last))) &&
          encoder.last == now) &&
        encoder.compressBuffer[..] ==
          if frame.width > frame.height
          then ScratchAfter(encoder.codec, JpegImage(frame), old(encoder.compressorQuality), old(encoder.compressBuffer[..]))
          else old(encoder.compressBuffer[..])
    {
      received := jpeg.Recv();
      if received.None? {
        return received, None;
      }
      produced := encoder.OnFrame(received.value, now);
    }

    /** `get_frame`: the transport's receive (None while the slot is empty). */
    method GetFrame() returns (frame: Option<FrameConvertedData>)
      requires Valid()
      modifies conv
      ensures frame == old(conv.slot) && conv.slot == None
    {
      frame := conv.Recv();
    }
  }
}
