# Tab5 Screen Streamer — frame pipeline and USB descriptors in Dafny

This project models the core of a screen streamer for an ESP32-P4 tablet.
The host program (`streamer-rs`) captures the screen. It scales every frame
to 1280x720 or 720x1280, compresses it to JPEG and rotates landscape frames by
270 degrees, since the panel is mounted in portrait. It prefixes each JPEG
with a 4-byte little-endian length and writes the result to the device's bulk
OUT endpoint. An adaptive controller lowers or raises the JPEG quality after
every frame according to the throughput that frame achieved. The firmware
side modelled here is the device's USB descriptor table: the device,
qualifier and configuration descriptors, and the callback that builds the
UTF-16 String Descriptors of section 9.6.7 of the USB 2.0 specification.

Layout, one module per file:

- `types.dfy` (`Types`): the records passed between stages (`FrameCaptureData`, `FrameConvertedData`), `byte`, `Option`, and the 512 KiB buffer size.
- `channel.dfy` (`Channel`): the capacity-1 `sync_channel` as a class with one slot (`TrySend`, `Recv`). It has a pure partner, `Offer`, and a replay of any run of sends and receives, with conservation lemmas.
- `framing.dfy` (`Framing`): the u32 little-endian header, the framed buffer and the reader's parse, with round-trip lemmas in both directions.
- `quality.dfy` (`Quality`): the quality ladder `[40, 60, 70, 80]`, the throughput computation and the one-step controller. Lemmas cover runs of frames.
- `intake.dfy` (`Intake`): the router and the frames-per-second window counter shared by the capture stages.
- `resize.dfy` (`Resize`): the resize-target rule and the resize step over an opaque resampler.
- `encoder.dfy` (`Encoder`): the compress, rotate and frame step over an opaque codec, written imperatively on the 512 KiB arrays.
- `common.dfy` (`Common`), `windows.dfy` (`Windows`), `macos.dfy` (`MacOS`): the three capture back-ends. Each back-end's loop bodies are methods of classes holding that loop's state.
- `transport.dfy` (`Transport`): the transmit loop of `main.rs`.
- `usb_descriptors.dfy` (`UsbDescriptors`): the firmware's descriptors and the string-descriptor callback.

Each thread's loop body is one method, and the channels between threads are
`SyncSlot` objects. Foreign code is a parameter:

- the screen capturer's output, the clock (`now`, in seconds) and the results of the CoreGraphics queries are inputs;
- libjpeg-turbo is an arrow-typed `Codec`;
- fast_image_resize is an arrow-typed `Resampler`;
- rusb's `write_bulk` is a `BulkSink`.

A panic (`expect`, `panic!`) is an outcome value, not a precondition.

Two things the model keeps exactly as the code has them:

- The JPEG threads of `common.rs` and `windows.rs` describe every frame to the compressor as a 1280x720 image with a row pitch of the frame's width times 4. This holds also for a 720x1280 frame (`Common.JpegImage`, `Windows.JpegImage`). The two functions are identical because the two source files repeat the same code (common.rs:113-119, windows.rs:84-90).
- The rotation decision is made again in the encoder from the canonical frame's own width and height. No "landscape origin" flag is threaded through from capture. `Resize.EncoderSeesOriginalOrientation` shows the two give the same answer on both the direct path and the resize path.

## Model

| member | source | states |
|---|---|---|
| Channel.SyncSlot.constructor | streamer-rs/src/capture/common.rs:24-26 | a new channel's slot is empty |
| Channel.SyncSlot.TrySend | streamer-rs/src/capture/common.rs:68-70 | `try_send` admits the item exactly when the slot is empty; otherwise the item is discarded and the slot keeps its item (as `Offer`) |
| Channel.SyncSlot.Recv | streamer-rs/src/capture/common.rs:157-159 | a receive takes the slot's item and leaves the slot empty |
| Channel.Offer | streamer-rs/src/capture/common.rs:68-70 | after a send the slot is full; the new item is admitted iff the slot was empty, and a full slot is left unchanged |
| Channel.ApplyConserves | streamer-rs/src/capture/common.rs:139 | one send or receive only moves items between the slot, the consumer and the discarded ones, and adds exactly the item sent |
| Channel.ReplayConserves | streamer-rs/src/capture/common.rs:24-26 | over any run of sends and receives, every item produced (plus the one held at the start) is exactly one of delivered, discarded or still held |
| Channel.DeliveredBounded | streamer-rs/src/capture/common.rs:94 | the consumer gets at most one item per receive; delivered, dropped and held items together number exactly the items produced, and the queue never holds more than one |
| Channel.NoReceiveKeepsOldest | streamer-rs/src/capture/common.rs:139 | with no receive, the slot keeps the first item sent and every later item is discarded |
| Framing.DecodeU32Le | streamer-rs/src/capture/common.rs:136 | four bytes read as a little-endian u32 give a value below 2^32 |
| Framing.U32LeBytes | streamer-rs/src/capture/common.rs:136 | `(n as u32).to_le_bytes()` is four bytes that decode to n modulo 2^32 |
| Framing.EncodeDecode | streamer-rs/src/capture/common.rs:136 | every 4-byte header is the encoding of the value it decodes to |
| Framing.Framed | streamer-rs/src/capture/common.rs:135-137 | the framed buffer is payload + 4 bytes long, its header decodes to that length, and the payload follows the header |
| Framing.ParseFrame | streamer-rs/src/capture/common.rs:135-137 | a reader accepts a buffer only when the header's length covers the header and fits the buffer, and then returns the bytes after the header |
| Framing.ParseFramed | streamer-rs/src/capture/common.rs:121-137 | round trip: a framed payload followed by any stale bytes parses back to exactly that payload |
| Framing.ParsedIsFramed | streamer-rs/src/capture/common.rs:135-137 | conversely, every buffer that parses starts with the framing of its payload |
| Quality.TxSpeed | streamer-rs/src/capture/common.rs:141 | the throughput is non-negative and times the elapsed time gives the frame's size |
| Quality.NextLevel | streamer-rs/src/capture/common.rs:142-148 | the index goes down iff it is above 0 and the speed is above 7e6; otherwise it goes up iff it is below 3 and the speed is below 4e6; it moves by at most one and stays in 0..3 |
| Quality.LevelAfter | streamer-rs/src/capture/common.rs:112-150 | after any run of frames the index is still in 0..3 |
| Quality.LevelDrift | streamer-rs/src/capture/common.rs:142-147 | over n frames the index moves by at most n |
| Quality.SustainedFastFloors | streamer-rs/src/capture/common.rs:142-144 | sustained speed above 7e6 walks the index down one rung per frame to 0 and holds it there |
| Quality.SustainedSlowCeils | streamer-rs/src/capture/common.rs:145-147 | sustained speed below 4e6 walks the index up one rung per frame to 3 and holds it there |
| Quality.SteadyHolds | streamer-rs/src/capture/common.rs:141-148 | speeds between the two thresholds leave the index unchanged |
| Intake.RouteFor | streamer-rs/src/capture/common.rs:65-71 | a frame goes to the encoder iff it is exactly 1280x720 or 720x1280, and to the resizer otherwise |
| Intake.CountFrame | streamer-rs/src/capture/common.rs:55-63 | a counted frame carries a sample iff the window is over; the sample is the count including this frame, and the counter then restarts from 0; otherwise the counter grows by one |
| Intake.SamplesAccountForEveryFrame | streamer-rs/src/capture/common.rs:45-63 | over any run, the samples reported plus the running counter add up to every frame counted, and no sample is 0 |
| Resize.ResizeTarget | streamer-rs/src/capture/common.rs:80 | the target is canonical and landscape iff the frame is wider than tall (a square frame becomes portrait) |
| Resize.ResizeFrame | streamer-rs/src/capture/common.rs:79-95 | a resize succeeds iff the resampler accepts the frame; the result has the target size, w*h*4 bytes and the same fps sample |
| Resize.EncoderSeesOriginalOrientation | streamer-rs/src/capture/common.rs:122 | on both paths the encoder's frame is canonical and is wider than tall iff the captured frame was |
| Encoder.CompressToSlice | streamer-rs/src/capture/common.rs:131-132 | `compress_to_slice` yields the codec's output when it fits the slice and fails otherwise |
| Encoder.TransformToSlice | streamer-rs/src/capture/common.rs:126-129 | `transform_to_slice` yields the rotated stream when it fits the slice and fails otherwise |
| Encoder.Payload | streamer-rs/src/capture/common.rs:122-133 | the payload fits after the header; unrotated, it is the compressor's output and fails (a panic) exactly when the compressor fails or its output exceeds 512 KiB - 4; rotated, it is the Rot270 of the whole scratch buffer after the compressor wrote into it, and fails exactly when the compression into 512 KiB or the transform into 512 KiB - 4 fails |
| Encoder.ScratchAfter | streamer-rs/src/capture/common.rs:123-124 | after a successful compression the scratch buffer holds the JPEG in its prefix and keeps the earlier bytes behind it, still 512 KiB; after a failed one it is unchanged |
| Encoder.CopyInto | streamer-rs/src/capture/common.rs:137 | `copy_from_slice` replaces exactly the target range and leaves the rest of the buffer alone |
| Encoder.EncodeFramed | streamer-rs/src/capture/common.rs:121-137 | the encode succeeds iff a payload exists; the output is 512 KiB, `data_size` is payload + 4, and its first `data_size` bytes are the framed payload; the scratch buffer changes only when rotating |
| Common.CaptureTarget | streamer-rs/src/capture/common.rs:162-173 | no index gives none; otherwise the result is the index-th display target, counting displays only, or none when there are too few |
| Common.CaptureThread.constructor | streamer-rs/src/capture/common.rs:45-46 | the frame counter starts at 0 and the window starts now |
| Common.CaptureThread.OnFrame | streamer-rs/src/capture/common.rs:47-72 | a receive error or non-BGRA frame panics; an empty frame is skipped uncounted; otherwise the frame is counted and offered to exactly one queue, chosen by `RouteFor` |
| Common.ResizeStep | streamer-rs/src/capture/common.rs:79-95 | the resize loop panics iff the resize fails, and otherwise offers the resized frame to the encoder's queue |
| Common.JpegImage | streamer-rs/src/capture/common.rs:113-119 | the compressor is told 1280x720 with pitch width*4, whatever the frame's orientation |
| Common.JpegThread.constructor | streamer-rs/src/capture/common.rs:101-110 | the quality index starts at 0, the compressor quality is 40 and the scratch buffer is zeroed |
| Common.JpegThread.OnFrame | streamer-rs/src/capture/common.rs:112-150 | the frame is rotated iff wider than tall and offered framed, and the pass panics exactly when `Payload` fails; it is tagged with the quality in use before the update; the index then takes one `NextLevel` step and the compressor quality stays `Levels[index]`; the persistent scratch buffer becomes `ScratchAfter` when rotating and is untouched otherwise |
| Common.Context.Start | streamer-rs/src/capture/common.rs:23-110 | three empty capacity-1 channels are wired to the threads, and the target is `capture_target(display_index)`; the fps window and the encoder's previous-frame time start now, the quality index at 0, and the scratch buffer is zeroed |
| Common.Context.ResizePass | streamer-rs/src/capture/common.rs:79-95 | the resize thread takes the frame waiting in its queue, which is then empty, and processes it as `ResizeStep`; with no frame nothing is offered |
| Common.Context.JpegPass | streamer-rs/src/capture/common.rs:112-150 | the JPEG thread takes the frame waiting in its queue and encodes it: the pass panics iff `Payload` fails; otherwise the framed buffer, tagged with the pre-update quality and the frame's fps, is offered to the transport, the index takes one `NextLevel` step and the previous-frame time becomes now; the scratch buffer becomes `ScratchAfter` when rotating; with no frame the encoder state and the transport's queue are unchanged |
| Common.Context.GetFrame | streamer-rs/src/capture/common.rs:157-159 | the transport takes the framed buffer from the last channel |
| Windows.StreamOutput.New | streamer-rs/src/capture/windows.rs:137-144 | the handler keeps the two senders; the counter starts at 0 and the window starts now |
| Windows.StreamOutput.OnFrameArrived | streamer-rs/src/capture/windows.rs:146-177 | an unmappable buffer is an error before counting; every other frame, empty ones included, is counted and offered to exactly one queue, chosen by `RouteFor` |
| Windows.ResizeStep | streamer-rs/src/capture/windows.rs:51-67 | the resize loop panics iff the resize fails, and otherwise offers the resized frame to the encoder's queue |
| Windows.JpegImage | streamer-rs/src/capture/windows.rs:84-90 | the compressor is told 1280x720 with pitch width*4 |
| Windows.JpegThread.constructor | streamer-rs/src/capture/windows.rs:72-81 | the quality index starts at 0, the compressor quality is 40 and the scratch buffer is zeroed |
| Windows.JpegThread.OnFrame | streamer-rs/src/capture/windows.rs:83-121 | the same encode, framing, queue offer and one-step quality update as the common pipeline, with the persistent scratch buffer given exactly as there |
| Windows.Context.Start | streamer-rs/src/capture/windows.rs:23-81 | three empty channels are wired to the handler and the JPEG thread; the display index is not used; the handler's fps window and the encoder's previous-frame time start now, the quality index at 0, and the scratch buffer is zeroed |
| Windows.Context.ResizePass | streamer-rs/src/capture/windows.rs:51-67 | the resize thread takes the frame waiting in its queue and processes it as `ResizeStep` |
| Windows.Context.JpegPass | streamer-rs/src/capture/windows.rs:83-121 | the JPEG thread takes the frame waiting in its queue and encodes it with the same framed output, quality tag, fps, offer, quality step, previous-frame time and scratch buffer as the common pipeline; with no frame nothing changes |
| Windows.Context.GetFrame | streamer-rs/src/capture/windows.rs:181-183 | the transport takes the framed buffer from the last channel |
| MacOS.FirstWithId | streamer-rs/src/capture/macos.rs:167-171 | the first position with the id, or none when no display has it |
| MacOS.FilterSelection | streamer-rs/src/capture/macos.rs:166-181 | a listed display is chosen with its own id; an unlisted display in a mirror set whose mirrored display is listed gets the mirrored display's filter, and only then is another id chosen; "not found" (a panic) and listing errors happen exactly in their cases |
| MacOS.CreateFilterFromDisplayId | streamer-rs/src/capture/macos.rs:166-181 | the two search loops with early returns compute exactly `FilterSelection` |
| MacOS.SelectDisplayId | streamer-rs/src/capture/macos.rs:49-60 | with an index, the index-th shareable display's id, or a failure when listing fails or the index is out of range; without one, the virtual display's id |
| MacOS.DisplayFlags.constructor | streamer-rs/src/capture/macos.rs:30-31 | nothing is watched and the flag is down |
| MacOS.DisplayFlags.DisplaySettingsChanged | streamer-rs/src/capture/macos.rs:32-37 | the flag is raised iff the reconfigured display is the watched one; it is never lowered here |
| MacOS.StreamOutputHandler.constructor | streamer-rs/src/capture/macos.rs:61 | the handler keeps the capture channel's sender |
| MacOS.StreamOutputHandler.DidOutputSampleBuffer | streamer-rs/src/capture/macos.rs:204-206 | a sample buffer is dropped when the capacity-1 slot is full |
| MacOS.CapturedImage | streamer-rs/src/capture/macos.rs:109-115 | the compressor is told the pixel buffer's own width and height, with pitch width*4 |
| MacOS.CaptureSession.constructor | streamer-rs/src/capture/macos.rs:62-68 | the quality index starts at 0 and the compressor quality is 40 |
| MacOS.CaptureSession.OpenStream | streamer-rs/src/capture/macos.rs:71-77 | the stream starts iff a display filter is found; the requested id is then watched, the buffer and counters are re-initialised, and the quality index survives the restart |
| MacOS.CaptureSession.EncodeAndSend | streamer-rs/src/capture/macos.rs:109-146 | the locked frame is compressed at its own size, rotated iff wider than tall, framed and offered; the pass panics exactly when `Payload` fails; the index takes one `NextLevel` step; the scratch buffer becomes `ScratchAfter` when rotating and is untouched otherwise |
| MacOS.CaptureSession.NextFrame | streamer-rs/src/capture/macos.rs:78-146 | a raised flag ends the stream; a timeout or missing pixel buffer skips uncounted; a failed lock skips after counting; a skip or restart keeps the previous-frame time and the scratch buffer; otherwise the frame is encoded as `EncodeAndSend` states, with the fps window closed first |
| MacOS.CaptureSession.CloseStream | streamer-rs/src/capture/macos.rs:147-150 | the flag is lowered after the stream stops, and the watched display stays |
| Transport.BulkData | streamer-rs/src/main.rs:34 | the bytes written are exactly `data[..data_size]`, or a panic when that slice is out of range |
| Transport.AfterWrite | streamer-rs/src/main.rs:35-45 | a write is counted; a frame with an fps sample reports the window (this frame included, integer kB) and resets both counters; otherwise they carry over |
| Transport.TxRun | streamer-rs/src/main.rs:32-46 | a run of the loop completes iff every frame's slice is in range and every write succeeds, and it prints at most one report per frame |
| Transport.TxRunCountsEveryFrame | streamer-rs/src/main.rs:30-46 | over any run without a failure, reported frames plus the running counter equal every frame written, with one report per sampled frame and none of zero frames |
| Transport.TxRunNoneExtends | streamer-rs/src/main.rs:37-39 | a failed write ends the run: no later frame revives it |
| Transport.TxLoop.constructor | streamer-rs/src/main.rs:30-31 | both counters start at 0 |
| Transport.TxLoop.Transmit | streamer-rs/src/main.rs:33-46 | one pass writes to endpoint 0x01 and panics iff the slice or the write fails, with no retry; otherwise it updates the counters and reports as `AfterWrite` |
| Transport.TxLoop.Run | streamer-rs/src/main.rs:32-46 | the loop over a stream of frames stops at the first failure, and otherwise ends with `TxRun`'s counters and reports |
| UsbDescriptors.DescriptorString | esp32p4/components/usbd/usb_descriptors.c:83-88 | the table's four strings are non-empty, shorter than 32 characters and free of NUL |
| UsbDescriptors.CopyLength | esp32p4/components/usbd/usb_descriptors.c:107 | the copy length is at most 31 and covers only non-NUL characters; when below 31, it stops at the first NUL or the string's end |
| UsbDescriptors.CopyLengthStops | esp32p4/components/usbd/usb_descriptors.c:107 | copying stops exactly at the first NUL, the string's end or the 31-character cap |
| UsbDescriptors.Header | esp32p4/components/usbd/usb_descriptors.c:111 | the header's low byte is bLength = 2*len + 2 and its high byte is the STRING type 3 |
| UsbDescriptors.Units | esp32p4/components/usbd/usb_descriptors.c:106-109 | a string yields one code unit per character copied |
| UsbDescriptors.StringUnits | esp32p4/components/usbd/usb_descriptors.c:102-110 | every descriptor carries 1 to 31 code units; for strings 1 to 4 they are all the string's characters, none cut off |
| UsbDescriptors.ParseStringDescriptor | esp32p4/components/usbd/usb_descriptors.c:111 | the host accepts a descriptor iff the type is STRING and bLength counts its bytes, and then reads the words after the header |
| UsbDescriptors.Narrow | esp32p4/components/usbd/usb_descriptors.c:108 | code units narrow back to characters iff each is below 256 |
| UsbDescriptors.ParseDescriptor | esp32p4/components/usbd/usb_descriptors.c:111 | every descriptor of at most 31 units parses back to exactly those units |
| UsbDescriptors.StringRoundTrip | esp32p4/components/usbd/usb_descriptors.c:106-111 | a C string comes back up to its first NUL, cut after 31 characters; a short NUL-free string comes back whole |
| UsbDescriptors.LanguageIdDescriptor | esp32p4/components/usbd/usb_descriptors.c:102-104 | string 0 is the 4-byte descriptor listing US English 0x0409 |
| UsbDescriptors.StringBuffer.constructor | esp32p4/components/usbd/usb_descriptors.c:99 | the static buffer holds 32 words |
| UsbDescriptors.StringBuffer.CopyChars | esp32p4/components/usbd/usb_descriptors.c:107-109 | the loop writes the string's units into words 1.. and nothing else |
| UsbDescriptors.StringBuffer.TudDescriptorStringCb | esp32p4/components/usbd/usb_descriptors.c:98-113 | the returned words are the header and units of the index's string; they stay within the 32-word buffer (bLength at most 64), and later words are untouched |
| UsbDescriptors.DescriptorDev | esp32p4/components/usbd/usb_descriptors.c:22-49 | USB 2.0, control packet 64, VID 0x303a, PID 0x4020, string indices 1/2/3, one configuration, class 0 with CDC disabled |
| UsbDescriptors.DeviceDescriptorBytes | esp32p4/components/usbd/usb_descriptors.c:22-23 | the device descriptor is 18 bytes on the wire, with VID and PID little-endian at offsets 8 and 10 |
| UsbDescriptors.DeviceDescriptorConsistent | esp32p4/components/usbd/usb_descriptors.c:44-46 | bLength equals the wire length, and the string indices name the manufacturer, product and serial strings |
| UsbDescriptors.TudDescriptorDeviceQualifierCb | esp32p4/components/usbd/usb_descriptors.c:52-72 | the qualifier is 10 bytes and repeats the device's USB version, class, packet size and configuration count |
| UsbDescriptors.DescriptorConfig | esp32p4/components/usbd/usb_descriptors.c:75-81 | one vendor interface named "JPEG Stream" with bulk endpoints 0x01 OUT and 0x81 IN, 100 mA, and a total length counting the header and the interface |
| UsbDescriptors.TudDescriptorConfigurationCb | esp32p4/components/usbd/usb_descriptors.c:94-96 | `descriptor_config` itself, configuration value 1, whose OUT endpoint is the host's |
| UsbDescriptors.ConfigurationIgnoresIndex | esp32p4/components/usbd/usb_descriptors.c:94-96 | the callback's result does not depend on the index |
| UsbDescriptors.TudDescriptorOtherSpeedConfigurationCb | esp32p4/components/usbd/usb_descriptors.c:120-122 | no other-speed configuration |
| UsbDescriptors.HostMatchesDevice | streamer-rs/src/main.rs:7-9 | the host opens the VID and PID the firmware declares, and writes to the vendor interface's OUT endpoint |

## Left out

- Screen capture itself is not modelled: scap's `Capturer`, ScreenCaptureKit streams and their configuration, windows-capture, the virtual display built through Objective-C, and the CoreFoundation run loop. These are foreign OS calls. Their results enter as parameters (frames, sample buffers, display lists, mirror-set answers).
- Pixel values are not modelled. libjpeg-turbo (compression, Rot270) is an opaque `Codec`, and fast_image_resize is an opaque `Resampler`. Only sizes, buffer placement and success or failure are stated.
- Threads, blocking and interleavings are not modelled. Each loop body is one sequential step, and a blocking `recv` on an empty channel is modelled as `None`.
- Channel.SyncSlot.Recv: returns `None` on an empty slot where the source blocks, or where macOS's `recv_timeout` times out after 100 ms.
- Quality.TxSpeed: requires a positive elapsed time. The zero-elapsed case (an infinite f64 speed) and f64 rounding are not modelled, so `Common.JpegThread.OnFrame`, `Windows.JpegThread.OnFrame`, the two `Context.JpegPass` methods, `MacOS.CaptureSession.EncodeAndSend` and `MacOS.CaptureSession.NextFrame` require `now > last`.
- Counters are unbounded naturals. `usize` overflow of the frame and byte counters is not modelled; the u32 cast of the frame length is modelled explicitly.
- `set_quality`, `set_optimize`, `set_subsamp` and the creation of the compressor and transformer are not modelled. They are foreign calls that would only panic.
- Windows.Context.Start: takes no target list because the source ignores `display_index` and always captures the primary monitor.
- MacOS.CaptureSession.OpenStream: only the display-filter outcome decides success. Errors from the stream configuration and `start_capture` are not modelled, nor are `stop_capture` and the 100 ms sleep.
- The macOS virtual display and the process-wide run loop registration of the reconfiguration callback are left out (foreign calls).
- The CLI arguments, `check_permission`, `open_device` (detaching the kernel driver, selecting configuration 1, claiming interface 0) and the printed report line are left out; the report's values are modelled (`Transport.Report`).
- UsbDescriptors.StringBuffer.TudDescriptorStringCb: requires the index to be at most 4. The source does not check the index, and a larger one reads past the string table. The language ID argument is ignored, as in the source.
- UsbDescriptors.DescriptorConfig: the configuration descriptor is modelled as the arguments of TinyUSB's descriptor macros, not as their byte expansion. The total length uses the descriptor lengths of tables 9-10, 9-12 and 9-13 of USB 2.0.
- The TinyUSB stack, `usbd.c`, the firmware's receive and display tasks, and the image-sending script are outside this model.
