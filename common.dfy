/** The capture pipeline used on Linux and Windows (streamer-rs/src/capture/common.rs):
    a capture thread that counts frames and routes them, a resize thread, and
    a JPEG thread with the quality controller, joined by three single-slot
    channels. Each thread's loop body is one method; the screen capturer
    (scap), the resampler and the codec are inputs. */
module Common {
  import opened Types
  import opened Channel
  import opened Intake
  import opened Resize
  import opened Quality
  import opened Framing
  import opened Encoder

  /** What `capturer.get_next_frame()` yields: a BGRA frame, a frame in another
      pixel format, or a receive error. */
  datatype ScapFrame = Bgra(data: seq<byte>, width: nat, height: nat) | OtherFormat | RecvFailed

  /** A capture target as listed by scap: a display or a window. */
  datatype Target = DisplayTarget(display: nat) | WindowTarget(window: nat)

  /** The display targets of a target list, in list order. */
  function Displays(targets: seq<Target>): (r: seq<Target>)
    ensures |r| <= |targets|
    ensures forall i :: 0 <= i < |r| ==> r[i].DisplayTarget? && r[i] in targets
    decreases |targets|
  {
    if targets == [] then []
    else
      var init := targets[..|targets| - 1];
      var last := targets[|targets| - 1];
      Displays(init) + (if last.DisplayTarget? then [last] else [])
  }

  /** The displays of a prefix of the list are a prefix of its displays. */
  lemma {:induction false} DisplaysOfPrefix(targets: seq<Target>, j: nat)
    requires j <= |targets|
    ensures Displays(targets[..j]) <= Displays(targets)
    decreases |targets| - j
  {
    if j < |targets| {
      DisplaysOfPrefix(targets, j + 1);
      assert targets[..j + 1][..j] == targets[..j];
    } else {
      assert targets[..j] == targets;
    }
  }

  /** `capture_target`: the index-th display among the targets (windows are
      not counted), or none when no index is given or there are too few
      displays. */
  method CaptureTarget(index: Option<nat>, targets: seq<Target>) returns (r: Option<Target>)
    ensures index.None? ==> r.None?
    ensures index.Some? && index.value < |Displays(targets)| ==> r == Some(Displays(targets)[index.value])
    ensures index.Some? && index.value >= |Displays(targets)| ==> r.None?
  {
    if index.None? {
      return None;
    }
    var n := index.value;
    var current := 0;
    var i := 0;
    while i < |targets|
      invariant 0 <= i <= |targets|
      invariant current == |Displays(targets[..i])| <= n
    {
      assert targets[..i + 1][..i] == targets[..i];
      if targets[i].DisplayTarget? {
        if current == n {
          DisplaysOfPrefix(targets, i + 1);
          return Some(targets[i]);
        }
        current := current + 1;
      }
      i := i + 1;
    }
    assert targets[..i] == targets;
    return None;
  }

  /** The capture thread's loop state: the frame counter and the start of the
      current one-second window (seconds on a monotonic clock). */
  class CaptureThread {
    const resz: SyncSlot<FrameCaptureData>
    const jpeg: SyncSlot<FrameCaptureData>
    var frames: nat
    var start: real

    constructor (resz: SyncSlot<FrameCaptureData>, jpeg: SyncSlot<FrameCaptureData>, now: real)
      ensures this.resz == resz && this.jpeg == jpeg
      ensures frames == 0 && start == now
    {
      this.resz := resz;
      this.jpeg := jpeg;
      frames := 0;
      start := now;
    }

    /** One pass of the capture loop. A receive error or a non-BGRA frame
        panics; an empty frame is skipped before it is counted; any other
        frame is counted, may close the fps window, and is offered to the
        encoder's channel when it has a canonical size and to the resizer's
        otherwise. */
    method OnFrame(frame: ScapFrame, now: real) returns (step: Step)
      requires resz != jpeg
      modifies this, resz, jpeg
      ensures step == Panic <==> !frame.Bgra?
      ensures !frame.Bgra? || |frame.data| == 0 ==>
        frames == old(frames) && start == old(start) && resz.slot == old(resz.slot) && jpeg.slot == old(jpeg.slot)
      ensures frame.Bgra? && |frame.data| > 0 ==>
        var t := CountFrame(old(frames), now - old(start) >= 1.0);
        var data := FrameCaptureData(frame.data, frame.width, frame.height, t.fps);
        frames == t.frames && start == (if t.fps.Some? then now else old(start)) &&
        if RouteFor(frame.width, frame.height) == ToEncoder
        then jpeg.slot == Offer(old(jpeg.slot), data).0 && resz.slot == old(resz.slot)
        else resz.slot == Offer(old(resz.slot), data).0 && jpeg.slot == old(jpeg.slot)
    {
      if !frame.Bgra? {
        return Panic;
      }
      if |frame.data| == 0 {
        return Continue;
      }
      frames := frames + 1;
      var fps: Option<nat> := None;
      if now - start >= 1.0 {
        fps := Some(frames);
        frames := 0;
        start := now;
      }
      var data := FrameCaptureData(frame.data, frame.width, frame.height, fps);
      if (frame.width, frame.height) == (1280, 720) || (frame.width, frame.height) == (720, 1280) {
        var _ := jpeg.TrySend(data);
      } else {
        var _ := resz.TrySend(data);
      }
      return Continue;
    }
  }

  /** One pass of the resize loop: resize the received frame to its canonical
      size and offer it to the encoder's channel; a resampler failure panics. */
  method ResizeStep(frame: FrameCaptureData, rs: Resampler, jpegTx: SyncSlot<FrameCaptureData>) returns (step: Step)
    modifies jpegTx
    ensures step == Panic <==> ResizeFrame(frame, rs).None?
    ensures step == Panic ==> jpegTx.slot == old(jpegTx.slot)
    ensures step == Continue ==> jpegTx.slot == Offer(old(jpegTx.slot), ResizeFrame(frame, rs).value).0
  {
    var resized := ResizeFrame(frame, rs);
    if resized.None? {
      return Panic;
    }
    var _ := jpegTx.TrySend(resized.value);
    return Continue;
  }

  /** The image the JPEG thread declares for a frame: always 1280 wide and 720
      high, with a row pitch of the frame's own width times 4, also for a
      portrait (720x1280) frame. */
  function JpegImage(frame: FrameCaptureData): (image: Image)
    ensures image.pixels == frame.data && image.pitch == frame.width * BytesPerPixel
    ensures (image.width, image.height) == (1280, 720)
  {
    Image(frame.data, 1280, frame.width * BytesPerPixel, 720)
  }

  /** The JPEG thread's loop state: the quality index, the quality last set on
      the compressor, the time of the previous frame, and the scratch buffer
      that lives across iterations. */
  class JpegThread {
    const codec: Codec
    const conv: SyncSlot<FrameConvertedData>
    const compressBuffer: array<byte>
    var qualityLevel: nat
    var compressorQuality: int
    var last: real

    /** The compressor always encodes at the quality the index selects. */
    ghost predicate Valid()
      reads this
    {
      qualityLevel < |Levels| && compressorQuality == Levels[qualityLevel] &&
      compressBuffer.Length == BufSize
    }

    constructor (codec: Codec, conv: SyncSlot<FrameConvertedData>, now: real)
      ensures Valid() && fresh(compressBuffer)
      ensures this.codec == codec && this.conv == conv
      ensures qualityLevel == InitialLevel && last == now
      ensures forall i :: 0 <= i < compressBuffer.Length ==> compressBuffer[i] == 0
    {
      this.codec := codec;
      this.conv := conv;
      qualityLevel := 0;
      compressorQuality := Levels[0];
      compressBuffer := new byte[BufSize](_ => 0);
      last := now;
    }

    /** One pass of the JPEG loop. The frame is compressed at the current
        quality and rotated by 270 degrees exactly when it is wider than tall;
        the framed buffer, tagged with the quality used, is offered to the
        transport's channel; then the quality index takes one controller step
        on this frame's throughput and the clock restarts. A codec failure or
        an oversized JPEG panics (`produced` is None). */
    method OnFrame(frame: FrameCaptureData, now: real) returns (produced: Option<FrameConvertedData>)
      requires Valid() && now > last
      modifies this, compressBuffer, conv
      ensures Valid()
      ensures var p := Payload(codec, JpegImage(frame), frame.width > frame.height, old(compressorQuality), old(compressBuffer[..]));
        (produced.Some? <==> p.Some?) &&
        (p.Some? ==>
          var out := produced.value;
          |out.data| == BufSize && out.dataSize == |p.value| + 4 && out.data[..out.dataSize] == Framed(p.value) &&
          out.quality == Levels[old(qualityLevel)] && out.fps == frame.fps &&
          conv.slot == Offer(old(conv.slot), out).0 &&
          qualityLevel == NextLevel(old(qualityLevel), TxSpeed(out.dataSize, now - old(last))) &&
          last == now)
      ensures compressBuffer[..] ==
        if frame.width > frame.height
        then ScratchAfter(codec, JpegImage(frame), old(compressorQuality), old(compressBuffer[..]))
        else old(compressBuffer[..])
    {
      var image := JpegImage(frame);
      var converted, size := EncodeFramed(codec, image, frame.width > frame.height, compressorQuality, compressBuffer);
      if converted.None? {
        return None;
      }
      var data := FrameConvertedData(converted.value, size, Levels[qualityLevel], frame.fps);
      var _ := conv.TrySend(data);
      var txSpeed := TxSpeed(size, now - last);
      if qualityLevel > 0 && txSpeed > HighSpeed {
        qualityLevel := qualityLevel - 1;
        compressorQuality := Levels[qualityLevel];
      } else if qualityLevel + 1 < |Levels| && txSpeed < LowSpeed {
        qualityLevel := qualityLevel + 1;
        compressorQuality := Levels[qualityLevel];
      }
      last := now;
      return Some(data);
    }
  }

  /** `start`: the three channels and the per-thread loop states, as wired
      together; `GetFrame` is the transport's blocking receive. */
  class Context {
    const resz: SyncSlot<FrameCaptureData>
    const jpeg: SyncSlot<FrameCaptureData>
    const conv: SyncSlot<FrameConvertedData>
    const capture: CaptureThread
    const encoder: JpegThread
    const target: Option<Target>

    ghost predicate Valid()
      reads this, capture, encoder
    {
      resz != jpeg &&
      capture.resz == resz && capture.jpeg == jpeg && encoder.conv == conv &&
      encoder.Valid()
    }

    constructor Start(displayIndex: Option<nat>, targets: seq<Target>, codec: Codec, now: real)
      ensures Valid()
      ensures fresh(resz) && fresh(jpeg) && fresh(conv) && fresh(capture) && fresh(encoder)
      ensures resz.slot == None && jpeg.slot == None && conv.slot == None
      ensures capture.frames == 0 && encoder.qualityLevel == InitialLevel
      ensures capture.start == now && encoder.last == now
      ensures forall i :: 0 <= i < encoder.compressBuffer.Length ==> encoder.compressBuffer[i] == 0
      ensures displayIndex.None? ==> target.None?
      ensures displayIndex.Some? ==>
        target == if displayIndex.value < |Displays(targets)| then Some(Displays(targets)[displayIndex.value]) else None
    {
      var reszSlot := new SyncSlot();
      var jpegSlot := new SyncSlot();
      var convSlot := new SyncSlot();
      var selected := CaptureTarget(displayIndex, targets);
      resz, jpeg, conv, target := reszSlot, jpegSlot, convSlot, selected;
      capture := new CaptureThread(reszSlot, jpegSlot, now);
      encoder := new JpegThread(codec, convSlot, now);
    }

    /** One pass of the resize thread: take the frame waiting in `resz`
        (None while the slot is empty, where the source blocks) and hand it
        to `ResizeStep`. */
    method ResizePass(rs: Resampler) returns (received: Option<FrameCaptureData>, step: Step)
      requires Valid()
      modifies resz, jpeg
      ensures received == old(resz.slot) && resz.slot == None
      ensures received.None? ==> step == Continue && jpeg.slot == old(jpeg.slot)
      ensures received.Some? ==>
        (step == Panic <==> ResizeFrame(received.value, rs).None?) &&
        (step == Panic ==> jpeg.slot == old(jpeg.slot)) &&
        (step == Continue ==> jpeg.slot == Offer(old(jpeg.slot), ResizeFrame(received.value, rs).value).0)
    {
      received := resz.Recv();
      if received.None? {
        return received, Continue;
      }
      step := ResizeStep(received.value, rs, jpeg);
    }

    /** One pass of the JPEG thread: take the frame waiting in `jpeg` (None
        while the slot is empty) and hand it to the encoder's `OnFrame`. */
    method JpegPass(now: real) returns (received: Option<FrameCaptureData>, produced: Option<FrameConvertedData>)
      requires Valid() && now > encoder.last
      modifies jpeg, encoder, encoder.compressBuffer, conv
      ensures Valid()
      ensures received == old(jpeg.slot) && jpeg.slot == None
      ensures received.None? ==>
        produced.None? && conv.slot == old(conv.slot) &&
        encoder.qualityLevel == old(encoder.qualityLevel) && encoder.last == old(encoder.last) &&
        encoder.compressBuffer[..] == old(encoder.compressBuffer[..])
      ensures received.Some? ==>
        var frame := received.value;
        var p := Payload(encoder.codec, JpegImage(frame), frame.width > frame.height,
                         old(encoder.compressorQuality), old(encoder.compressBuffer[..]));
        (produced.Some? <==> p.Some?) &&
        (p.Some? ==>
          var out := produced.value;
          |out.data| == BufSize && out.dataSize == |p.value| + 4 && out.data[..out.dataSize] == Framed(p.value) &&
          out.quality == Levels[old(encoder.qualityLevel)] && out.fps == frame.fps &&
          conv.slot == Offer(old(conv.slot), out).0 &&
          encoder.qualityLevel == NextLevel(old(encoder.qualityLevel), TxSpeed(out.dataSize, now - old(encoder.last))) &&
          encoder.last == now) &&
        encoder.compressBuffer[..] ==
          if frame.width > frame.height
          then ScratchAfter(encoder.codec, JpegImage(frame), old(encoder.compressorQuality), old(encoder.compressBuffer[..]))
          else old(encoder.compressBuffer[..])
    {
      received := jpeg.Recv();
      if received.None? {
        return received, None;
      }
      produced := encoder.OnFrame(received.value, now);
    }

    /** `get_frame`: the transport takes the next framed buffer (None while
        the slot is empty, where the source blocks). */
    method GetFrame() returns (frame: Option<FrameConvertedData>)
      requires Valid()
      modifies conv
      ensures frame == old(conv.slot) && conv.slot == None
    {
      frame := conv.Recv();
    }
  }
}
