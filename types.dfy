/** Value types shared by every stage of the frame pipeline: the captured-frame
    record each backend passes between its threads, the framed JPEG record the
    transport consumes (FrameConvertedData), and the pipeline's constants. */
module Types {

  /** An unsigned 8-bit value (Rust `u8`). */
  newtype byte = x: int | 0 <= x < 256

  datatype Option<+T> = None | Some(value: T)

  /** Size of the encoder's scratch buffer and of every framed output buffer: 512 KiB. */
  const BufSize: nat := 512 * 1024

  /** Bytes per BGRA pixel. */
  const BytesPerPixel: nat := 4

  /** A captured BGRA bitmap travelling from the capture stage to the encoder.
      `fps` is present on the one frame that closes a one-second window. */
  datatype FrameCaptureData = FrameCaptureData(data: seq<byte>, width: nat, height: nat, fps: Option<nat>)

  /** A framed JPEG ready for the transport: `data` is the whole output buffer,
      of which the first `dataSize` bytes are meaningful; `quality` is the JPEG
      quality the frame was encoded with. */
  datatype FrameConvertedData = FrameConvertedData(data: seq<byte>, dataSize: nat, quality: int, fps: Option<nat>)

  /** What happens to a pipeline thread after one iteration of its loop: it
      carries on, or it panics (every `expect` and `panic!` of the source). */
  datatype Step = Continue | Panic
}
