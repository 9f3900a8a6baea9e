/** The macOS capture pipeline (streamer-rs/src/capture/macos.rs): a
    ScreenCaptureKit stream delivers sample buffers into a one-slot channel; a
    single thread counts, compresses, rotates, frames and sends them itself
    (no resizer), and restarts the stream whenever the display it watches is
    reconfigured. ScreenCaptureKit, CoreGraphics and the codec are inputs. */
module MacOS {
  import opened Types
  import opened Channel
  import opened Intake
  import opened Quality
  import opened Framing
  import opened Encoder

  /** A shareable display as listed by ScreenCaptureKit. */
  datatype Display = Display(displayId: nat)

  /** The position of the first display with the given id. */
  function FirstWithId(displays: seq<Display>, id: nat): (r: Option<nat>)
    ensures r.Some? ==> r.value < |displays| && displays[r.value].displayId == id
    ensures r.Some? ==> forall j :: 0 <= j < r.value ==> displays[j].displayId != id
    ensures r.None? ==> forall j :: 0 <= j < |displays| ==> displays[j].displayId != id
    decreases |displays|
  {
    if displays == [] then None
    else if displays[0].displayId == id then Some(0)
    else
      match FirstWithId(displays[1..], id)
      case None => None
      case Some(k) => Some(k + 1)
  }

  /** The result of `create_filter_from_display_id`: a content filter on a
      display together with the id it was built for, an error from listing
      the shareable content, or the panic when no display matches. */
  datatype FilterOutcome = Filter(display: Display, id: nat) | ContentError | NotFound

  /** Whether some display of the list has the given id. */
  predicate Lists(displays: seq<Display>, id: nat)
  {
    exists j :: 0 <= j < |displays| && displays[j].displayId == id
  }

  /** The selection `create_filter_from_display_id` makes: the requested
      display when it is listed; otherwise, for a display in a mirror set,
      the display it mirrors; otherwise none (a panic). A listing error on
      either call is returned as such. */
  function FilterSelection(displayId: nat, content: Option<seq<Display>>, inMirrorSet: bool,
                           mirroredId: nat, contentAgain: Option<seq<Display>>): (r: FilterOutcome)
    ensures r.Filter? ==> r.display.displayId == r.id
    ensures content.Some? && Lists(content.value, displayId) ==> r == Filter(Display(displayId), displayId)
    ensures (content.Some? && !Lists(content.value, displayId) && inMirrorSet &&
             contentAgain.Some? && Lists(contentAgain.value, mirroredId)) ==>
      r == Filter(Display(mirroredId), mirroredId)
    ensures r.Filter? && r.id != displayId ==>
      inMirrorSet && r.id == mirroredId && content.Some? && !Lists(content.value, displayId) &&
      contentAgain.Some? && Lists(contentAgain.value, mirroredId)
    ensures r == NotFound <==>
      content.Some? && !Lists(content.value, displayId) &&
      (!inMirrorSet || (contentAgain.Some? && !Lists(contentAgain.value, mirroredId)))
    ensures r == ContentError <==>
      content.None? || (!Lists(content.value, displayId) && inMirrorSet && contentAgain.None?)
  {
    if content.None? then ContentError
    else match FirstWithId(content.value, displayId)
      case Some(i) => Filter(content.value[i], displayId)
      case None =>
        if !inMirrorSet then NotFound
        else if contentAgain.None? then ContentError
        else match FirstWithId(contentAgain.value, mirroredId)
          case Some(j) => Filter(contentAgain.value[j], mirroredId)
          case None => NotFound
  }

  /** `create_filter_from_display_id`. `content` and `contentAgain` are what
      the two `SCShareableContent::get()` calls return (None is an error);
      `inMirrorSet` and `mirroredId` are what CoreGraphics says about the
      display. The first display with the requested id wins; failing that,
      for a mirrored display, the first display with the id it mirrors. */
  method CreateFilterFromDisplayId(displayId: nat, content: Option<seq<Display>>, inMirrorSet: bool,
                                   mirroredId: nat, contentAgain: Option<seq<Display>>)
    returns (r: FilterOutcome)
    ensures r == FilterSelection(displayId, content, inMirrorSet, mirroredId, contentAgain)
  {
    if content.None? {
      return ContentError;
    }
    var displays := content.value;
    var i := 0;
    while i < |displays|
      invariant 0 <= i <= |displays|
      invariant forall j :: 0 <= j < i ==> displays[j].displayId != displayId
    {
      if displays[i].displayId == displayId {
        return Filter(displays[i], displayId);
      }
      i := i + 1;
    }
    if inMirrorSet {
      if contentAgain.None? {
        return ContentError;
      }
      var again := contentAgain.value;
      var k := 0;
      while k < |again|
        invariant 0 <= k <= |again|
        invariant forall j :: 0 <= j < k ==> again[j].displayId != mirroredId
      {
        if again[k].displayId == mirroredId {
          return Filter(again[k], mirroredId);
        }
        k := k + 1;
      }
    }
    return NotFound;
  }

  /** The display to capture: the index-th shareable display when an index is
      given (None when listing fails or the index is out of range, where the
      source panics), else the virtual display created for the device. */
  function SelectDisplayId(displayIndex: Option<nat>, displays: Option<seq<Display>>, virtualId: nat): (r: Option<nat>)
    ensures displayIndex.None? ==> r == Some(virtualId)
    ensures displayIndex.Some? ==>
      (r.Some? <==> displays.Some? && displayIndex.value < |displays.value|)
    ensures displayIndex.Some? && r.Some? ==> r.value == displays.value[displayIndex.value].displayId
  {
    match displayIndex
    case None => Some(virtualId)
    case Some(i) =>
      if displays.Some? && i < |displays.value| then Some(displays.value[i].displayId) else None
  }

  /** The two process-wide flags: the display whose reconfiguration restarts
      the stream, and whether such a reconfiguration has happened. */
  class DisplayFlags {
    var watch: Option<nat>
    var updated: bool

    constructor ()
      ensures watch == None && !updated
    {
      watch := None;
      updated := false;
    }

    /** The CoreGraphics reconfiguration callback: only a change of the
        watched display raises the flag; nothing ever lowers it here. */
    method DisplaySettingsChanged(display: nat)
      modifies this
      ensures watch == old(watch)
      ensures updated == (old(updated) || old(watch) == Some(display))
    {
      if watch == Some(display) {
        updated := true;
      }
    }
  }

  /** A CoreMedia sample buffer: it may or may not carry a pixel buffer. */
  datatype SampleBuffer = SampleBuffer(pixelBuffer: Option<PixelBuffer>)

  /** A pixel buffer of the given size; `locked` is its BGRA bytes when
      locking succeeds. */
  datatype PixelBuffer = PixelBuffer(width: nat, height: nat, locked: Option<seq<byte>>)

  /** The stream output handler: hands each sample buffer to the one-slot
      capture channel, dropping it when the slot is taken. */
  class StreamOutputHandler {
    const tx: SyncSlot<SampleBuffer>

    constructor (tx: SyncSlot<SampleBuffer>)
      ensures this.tx == tx
    {
      this.tx := tx;
    }

    method DidOutputSampleBuffer(sample: SampleBuffer)
      modifies tx
      ensures tx.slot == Offer(old(tx.slot), sample).0
    {
      var _ := tx.TrySend(sample);
    }
  }

  /** The image handed to the compressor: the pixel buffer's own size, with a
      pitch of width * 4. */
  function CapturedImage(pb: PixelBuffer, pixels: seq<byte>): (image: Image)
    ensures image.pixels == pixels && (image.width, image.height) == (pb.width, pb.height)
    ensures image.pitch == pb.width * BytesPerPixel
  {
    Image(pixels, pb.width, pb.width * BytesPerPixel, pb.height)
  }

  /** How one pass of the inner capture loop ends. */
  datatype FrameStep = Restart | Skipped | Encoded(frame: FrameConvertedData) | Panicked

  /** The capture thread's state: the quality index and compressor quality
      (declared outside the restart loop, so they survive restarts), and the
      per-stream scratch buffer, frame counter, window start and previous-frame
      time (declared inside it). */
  class CaptureSession {
    const codec: Codec
    const flags: DisplayFlags
    const capt: SyncSlot<SampleBuffer>
    const conv: SyncSlot<FrameConvertedData>
    const displayId: nat
    var qualityLevel: nat
    var compressorQuality: int
    var compressBuffer: array<byte>
    var frames: nat
    var start: real
    var last: real

    ghost predicate Valid()
      reads this
    {
      qualityLevel < |Levels| && compressorQuality == Levels[qualityLevel] &&
      compressBuffer.Length == BufSize
    }

    /** Before the restart loop: the quality index at its lowest rung. */
    constructor (codec: Codec, flags: DisplayFlags, capt: SyncSlot<SampleBuffer>,
                 conv: SyncSlot<FrameConvertedData>, displayId: nat, now: real)
      ensures Valid()
      ensures this.codec == codec && this.flags == flags && this.capt == capt && this.conv == conv
      ensures this.displayId == displayId
      ensures qualityLevel == InitialLevel && frames == 0 && start == now && last == now
    {
      this.codec := codec;
      this.flags := flags;
      this.capt := capt;
      this.conv := conv;
      this.displayId := displayId;
      qualityLevel := 0;
      compressorQuality := Levels[0];
      compressBuffer := new byte[BufSize](_ => 0);
      frames := 0;
      start := now;
      last := now;
    }

    /** Top of the restart loop: `start_screen_capture_kit` selects the
        display (a failure panics), then watches the requested id (even when
        the mirrored display was selected); the per-stream state is
        re-initialised and the quality index is kept. */
    method OpenStream(content: Option<seq<Display>>, inMirrorSet: bool, mirroredId: nat,
                      contentAgain: Option<seq<Display>>, now: real)
      returns (step: Step)
      requires Valid()
      modifies this, flags
      ensures Valid()
      ensures qualityLevel == old(qualityLevel) && compressorQuality == old(compressorQuality)
      ensures flags.updated == old(flags.updated)
      ensures var filter := FilterSelection(displayId, content, inMirrorSet, mirroredId, contentAgain);
        (step == Continue <==> filter.Filter?) &&
        (step == Continue ==>
          flags.watch == Some(displayId) && fresh(compressBuffer) &&
          (forall i :: 0 <= i < compressBuffer.Length ==> compressBuffer[i] == 0) &&
          frames == 0 && start == now && last == now)
    {
      var filter := CreateFilterFromDisplayId(displayId, content, inMirrorSet, mirroredId, contentAgain);
      if !filter.Filter? {
        return Panic;
      }
      flags.watch := Some(displayId);
      compressBuffer := new byte[BufSize](_ => 0);
      frames := 0;
      start := now;
      last := now;
      return Continue;
    }

    /** The encode half of one pass, for a locked pixel buffer: compress at
        the buffer's own size, rotated by 270 degrees exactly when wider than
        tall, frame, offer to the transport tagged with the quality used, and
        take one controller step on this frame's throughput. */
    method EncodeAndSend(pb: PixelBuffer, pixels: seq<byte>, fps: Option<nat>, now: real)
      returns (step: FrameStep)
      requires Valid() && now > last
      modifies this`qualityLevel, this`compressorQuality, this`last, compressBuffer, conv
      ensures Valid()
      ensures var p := Payload(codec, CapturedImage(pb, pixels), pb.width > pb.height,
                               old(compressorQuality), old(compressBuffer[..]));
        (step == Panicked <==> p.None?) &&
        (p.Some? ==>
          step.Encoded? &&
          var out := step.frame;
          |out.data| == BufSize && out.dataSize == |p.value| + 4 && out.data[..out.dataSize] == Framed(p.value) &&
          out.quality == Levels[old(qualityLevel)] && out.fps == fps &&
          conv.slot == Offer(old(conv.slot), out).0 &&
          qualityLevel == NextLevel(old(qualityLevel), TxSpeed(out.dataSize, now - old(last))) &&
          last == now)
      ensures step.Panicked? || step.Encoded?
      ensures qualityLevel != old(qualityLevel) ==> step.Encoded?
      ensures compressBuffer[..] ==
        if pb.width > pb.height
        then ScratchAfter(codec, CapturedImage(pb, pixels), old(compressorQuality), old(compressBuffer[..]))
        else old(compressBuffer[..])
    {
      var image := CapturedImage(pb, pixels);
      var converted, size := EncodeFramed(codec, image, pb.width > pb.height, compressorQuality, compressBuffer);
      if converted.None? {
        return Panicked;
      }
      var data := FrameConvertedData(converted.value, size, Levels[qualityLevel], fps);
      var _ := conv.TrySend(data);
      var txSpeed := TxSpeed(size, now - last);
      if qualityLevel > 0 && txSpeed > HighSpeed {
        qualityLevel := qualityLevel - 1;
        compressorQuality := Levels[qualityLevel];
      } else if qualityLevel + 1 < |Levels| && txSpeed < LowSpeed {
        qualityLevel := qualityLevel + 1;
        compressorQuality := Levels[qualityLevel];
      }
      last := now;
      return Encoded(data);
    }

    /** One pass of the inner loop. The sample is taken from the channel
        first (None is a 100 ms timeout); a raised display flag then ends the
        stream, dropping the sample. A timeout or a sample without a pixel
        buffer is skipped uncounted. Otherwise the frame is counted (and may
        close the fps window) before locking; a failed lock skips it. A locked
        frame goes through `EncodeAndSend`. A skip or a restart leaves the
        previous-frame time and the scratch buffer as they were. */
    method NextFrame(now: real) returns (step: FrameStep)
      requires Valid() && now > last
      modifies this, compressBuffer, capt, conv
      ensures Valid() && compressBuffer == old(compressBuffer)
      ensures capt.slot == None
      ensures qualityLevel != old(qualityLevel) ==> step.Encoded?
      ensures step == Restart || step == Skipped ==>
        last == old(last) && compressBuffer[..] == old(compressBuffer[..])
      ensures flags.updated ==>
        step == Restart && frames == old(frames) && start == old(start) && conv.slot == old(conv.slot)
      ensures !flags.updated && (old(capt.slot).None? || old(capt.slot).value.pixelBuffer.None?) ==>
        step == Skipped && frames == old(frames) && start == old(start) && conv.slot == old(conv.slot)
      ensures !flags.updated && old(capt.slot).Some? && old(capt.slot).value.pixelBuffer.Some? ==>
        var pb := old(capt.slot).value.pixelBuffer.value;
        var t := CountFrame(old(frames), now - old(start) >= 1.0);
        frames == t.frames && start == (if t.fps.Some? then now else old(start)) &&
        (pb.locked.None? ==> step == Skipped && conv.slot == old(conv.slot)) &&
        (pb.locked.Some? ==>
          var p := Payload(codec, CapturedImage(pb, pb.locked.value), pb.width > pb.height,
                           old(compressorQuality), old(compressBuffer[..]));
          (step == Panicked <==> p.None?) &&
          (p.Some? ==>
            step.Encoded? &&
            var out := step.frame;
            |out.data| == BufSize && out.dataSize == |p.value| + 4 && out.data[..out.dataSize] == Framed(p.value) &&
            out.quality == Levels[old(qualityLevel)] && out.fps == t.fps &&
            conv.slot == Offer(old(conv.slot), out).0 &&
            qualityLevel == NextLevel(old(qualityLevel), TxSpeed(out.dataSize, now - old(last))) &&
            last == now) &&
          compressBuffer[..] ==
            if pb.width > pb.height
            then ScratchAfter(codec, CapturedImage(pb, pb.locked.value), old(compressorQuality), old(compressBuffer[..]))
            else old(compressBuffer[..]))
    {
      var received := capt.Recv();
      if flags.updated {
        return Restart;
      }
      if received.None? || received.value.pixelBuffer.None? {
        return Skipped;
      }
      var pb := received.value.pixelBuffer.value;
      frames := frames + 1;
      var fps: Option<nat> := None;
      if now - start >= 1.0 {
        fps := Some(frames);
        frames := 0;
        start := now;
      }
      if pb.locked.None? {
        return Skipped;
      }
      step := EncodeAndSend(pb, pb.locked.value, fps, now);
    }

    /** Bottom of the restart loop: the stream is stopped and the flag is
        lowered, so the next reconfiguration of the watched display is seen. */
    method CloseStream()
      modifies flags
      ensures !flags.updated && flags.watch == old(flags.watch)
    {
      flags.updated := false;
    }
  }
}
