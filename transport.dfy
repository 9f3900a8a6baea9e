/** The host's transmit loop (streamer-rs/src/main.rs): take the next framed
    buffer, write its meaningful bytes to the device's bulk OUT endpoint, and
    once per fps sample report the capture rate, the frames and kilobytes sent
    since the previous report, and the quality in use. rusb is the `sink`. */
module Transport {
  import opened Types

  /** The device the host opens and the endpoint it writes to. */
  const Vid: nat := 0x303a
  const Pid: nat := 0x4020
  const EpOut: nat := 0x01

  /** `write_bulk(endpoint, bytes, 1 s)`: the number of bytes written, or None
      for an error or a timeout. */
  type BulkSink = (nat, seq<byte>) -> Option<nat>

  /** The line printed on an fps sample. */
  datatype Report = Report(captureFps: nat, txFps: nat, speedKb: nat, quality: int)

  datatype TxEvent = Sent | Reported(report: Report) | Panicked

  /** `&frame.data[..frame.data_size]`: None when the slice is out of range
      (a panic). */
  function BulkData(frame: FrameConvertedData): (r: Option<seq<byte>>)
    ensures r.Some? <==> frame.dataSize <= |frame.data|
    ensures r.Some? ==> |r.value| == frame.dataSize && r.value == frame.data[..frame.dataSize]
  {
    if frame.dataSize <= |frame.data| then Some(frame.data[..frame.dataSize]) else None
  }

  /** The loop's two counters. */
  datatype Counters = Counters(frames: nat, transferred: nat)

  /** The counters and the report after a successful write of `written`
      bytes: the write is counted; a frame carrying an fps sample reports the
      window (this frame included, bytes in whole kilobytes) and restarts it. */
  function AfterWrite(c: Counters, frame: FrameConvertedData, written: nat): (r: (Counters, Option<Report>))
    ensures r.1.Some? <==> frame.fps.Some?
    ensures r.1.Some? ==> r.0 == Counters(0, 0)
    ensures r.1.Some? ==> r.1.value == Report(frame.fps.value, c.frames + 1, (c.transferred + written) / 1000, frame.quality)
    ensures r.1.None? ==> r.0 == Counters(c.frames + 1, c.transferred + written)
  {
    var counted := Counters(c.frames + 1, c.transferred + written);
    match frame.fps
    case Some(fps) => (Counters(0, 0), Some(Report(fps, counted.frames, counted.transferred / 1000, frame.quality)))
    case None => (counted, None)
  }

  /** A run of the loop over the given frames: the final counters and the
      reports printed, or None when some write failed (the loop panics). */
  function TxRun(c: Counters, frames: seq<FrameConvertedData>, sink: BulkSink): (r: Option<(Counters, seq<Report>)>)
    ensures r.Some? <==> forall i :: 0 <= i < |frames| ==>
      BulkData(frames[i]).Some? && sink(EpOut, BulkData(frames[i]).value).Some?
    ensures r.Some? ==> |r.value.1| <= |frames|
    decreases |frames|
  {
    if frames == [] then Some((c, []))
    else
      match TxRun(c, frames[..|frames| - 1], sink)
      case None => None
      case Some((c', reports)) =>
        var frame := frames[|frames| - 1];
        var data := BulkData(frame);
        if data.None? then None
        else
          match sink(EpOut, data.value)
          case None => None
          case Some(written) =>
            var (c'', report) := AfterWrite(c', frame, written);
            Some((c'', if report.Some? then reports + [report.value] else reports))
  }

  /** The frames reported plus the running counter account for every frame
      written, one report per fps sample, and no report counts zero frames. */
  lemma {:induction false} TxRunCountsEveryFrame(c: Counters, frames: seq<FrameConvertedData>, sink: BulkSink)
    requires TxRun(c, frames, sink).Some?
    ensures var (final, reports) := TxRun(c, frames, sink).value;
      SumTxFps(reports) + final.frames == c.frames + |frames| &&
      |reports| == Sampled(frames) &&
      forall i :: 0 <= i < |reports| ==> reports[i].txFps >= 1
    decreases |frames|
  {
    if frames != [] {
      var init := frames[..|frames| - 1];
      TxRunCountsEveryFrame(c, init, sink);
      var (c', reports) := TxRun(c, init, sink).value;
      var frame := frames[|frames| - 1];
      var written := sink(EpOut, BulkData(frame).value).value;
      var (c'', report) := AfterWrite(c', frame, written);
      if report.Some? {
        assert (reports + [report.value])[..|reports|] == reports;
      }
    }
  }

  function SumTxFps(reports: seq<Report>): nat
    decreases |reports|
  {
    if reports == [] then 0 else SumTxFps(reports[..|reports| - 1]) + reports[|reports| - 1].txFps
  }

  /** The number of frames that carry an fps sample. */
  function Sampled(frames: seq<FrameConvertedData>): nat
    decreases |frames|
  {
    if frames == [] then 0
    else Sampled(frames[..|frames| - 1]) + (if frames[|frames| - 1].fps.Some? then 1 else 0)
  }

  /** The transmit loop's state. */
  class TxLoop {
    var frames: nat
    var transferred: nat

    constructor ()
      ensures frames == 0 && transferred == 0
    {
      frames := 0;
      transferred := 0;
    }

    /** One pass of the loop: write exactly the frame's meaningful bytes to
        the OUT endpoint; any failure panics, with no retry. */
    method Transmit(frame: FrameConvertedData, sink: BulkSink) returns (event: TxEvent)
      modifies this
      ensures event == Panicked <==>
        BulkData(frame).None? || sink(EpOut, BulkData(frame).value).None?
      ensures event == Panicked ==> frames == old(frames) && transferred == old(transferred)
      ensures event != Panicked ==>
        var (c, report) := AfterWrite(Counters(old(frames), old(transferred)), frame,
                                      sink(EpOut, BulkData(frame).value).value);
        Counters(frames, transferred) == c &&
        event == if report.Some? then Reported(report.value) else Sent
    {
      var data := BulkData(frame);
      if data.None? {
        return Panicked;
      }
      var result := sink(EpOut, data.value);
      if result.None? {
        return Panicked;
      }
      transferred := transferred + result.value;
      frames := frames + 1;
      event := Sent;
      if frame.fps.Some? {
        event := Reported(Report(frame.fps.value, frames, transferred / 1000, frame.quality));
        frames := 0;
        transferred := 0;
      }
    }

    /** The endless loop over a finite stream of frames: it stops at the first
        failed write; otherwise its counters and reports are those of TxRun. */
    method Run(stream: seq<FrameConvertedData>, sink: BulkSink) returns (reports: seq<Report>, panicked: bool)
      modifies this
      ensures var run := TxRun(Counters(old(frames), old(transferred)), stream, sink);
        (panicked <==> run.None?) &&
        (!panicked ==> run.value == (Counters(frames, transferred), reports))
    {
      reports := [];
      var i := 0;
      ghost var c0 := Counters(frames, transferred);
      while i < |stream|
        invariant 0 <= i <= |stream|
        invariant TxRun(c0, stream[..i], sink) == Some((Counters(frames, transferred), reports))
      {
        assert stream[..i + 1][..i] == stream[..i];
        var event := Transmit(stream[i], sink);
        if event == Panicked {
          assert TxRun(c0, stream[..i + 1], sink).None?;
          TxRunNoneExtends(c0, stream, sink, i + 1);
          return reports, true;
        }
        if event.Reported? {
          reports := reports + [event.report];
        }
        i := i + 1;
      }
      assert stream[..i] == stream;
      panicked := false;
    }
  }

  /** Once a write has failed, the rest of the run cannot revive it. */
  lemma {:induction false} TxRunNoneExtends(c: Counters, frames: seq<FrameConvertedData>, sink: BulkSink, k: nat)
    requires k <= |frames| && TxRun(c, frames[..k], sink).None?
    ensures TxRun(c, frames, sink).None?
    decreases |frames| - k
  {
    if k < |frames| {
      assert frames[..k + 1][..k] == frames[..k];
      TxRunNoneExtends(c, frames, sink, k + 1);
    } else {
      assert frames[..k] == frames;
    }
  }
}
