/** The pure decisions of the capture stage, shared by the three backends:
    the frames-per-second window counter and the router that sends a frame
    to the encoder when it already has a canonical size and to the resizer
    otherwise. */
module Intake {
  import opened Types

  /** The two canonical working sizes: 1280x720 and 720x1280. */
  predicate IsCanonical(width: nat, height: nat)
  {
    (width, height) == (1280, 720) || (width, height) == (720, 1280)
  }

  datatype Route = ToEncoder | ToResizer

  /** Where the capture stage sends a frame of the given size. */
  function RouteFor(width: nat, height: nat): (r: Route)
    ensures r == ToEncoder <==> IsCanonical(width, height)
    ensures r == ToResizer <==> !IsCanonical(width, height)
  {
    if (width, height) == (1280, 720) || (width, height) == (720, 1280) then ToEncoder else ToResizer
  }

  /** The counter and the sample after one counted frame. */
  datatype Tick = Tick(fps: Option<nat>, frames: nat)

  /** Counting one frame: the counter goes up; when the one-second window is
      over, the frame carries the count (this frame included) and the counter
      starts again from zero. */
  function CountFrame(frames: nat, windowOver: bool): (t: Tick)
    ensures t.fps.Some? <==> windowOver
    ensures t.fps.Some? ==> t.fps.value == frames + 1 && t.frames == 0
    ensures t.fps.None? ==> t.frames == frames + 1
  {
    var counted := frames + 1;
    if windowOver then Tick(Some(counted), 0) else Tick(None, counted)
  }

  /** The samples reported over a run of counted frames (`windowOver[i]` says
      whether the window had closed when frame i arrived), and the counter
      left at the end. */
  function Samples(frames: nat, windowOver: seq<bool>): (r: (seq<nat>, nat))
    decreases |windowOver|
  {
    if windowOver == [] then ([], frames)
    else
      var (reports, counter) := Samples(frames, windowOver[..|windowOver| - 1]);
      var t := CountFrame(counter, windowOver[|windowOver| - 1]);
      (if t.fps.Some? then reports + [t.fps.value] else reports, t.frames)
  }

  function Sum(s: seq<nat>): nat
    decreases |s|
  {
    if s == [] then 0 else Sum(s[..|s| - 1]) + s[|s| - 1]
  }

  /** Every counted frame is reported exactly once: the samples reported so
      far plus the running counter add up to all frames counted, and no
      sample is ever zero. */
  lemma {:induction false} SamplesAccountForEveryFrame(frames: nat, windowOver: seq<bool>)
    ensures var (reports, counter) := Samples(frames, windowOver);
      Sum(reports) + counter == frames + |windowOver| &&
      |reports| <= |windowOver| &&
      forall i :: 0 <= i < |reports| ==> reports[i] >= 1
    decreases |windowOver|
  {
    if windowOver != [] {
      var init := windowOver[..|windowOver| - 1];
      SamplesAccountForEveryFrame(frames, init);
      var (reports, counter) := Samples(frames, init);
      var t := CountFrame(counter, windowOver[|windowOver| - 1]);
      if t.fps.Some? {
        assert (reports + [t.fps.value])[..|reports|] == reports;
      }
    }
  }
}
