# Verification of the rover's video path and command link

A Dafny model of three parts of the rover, and proofs about them.

**The browser-side remuxer** (`rover/html/jmuxer.js`) turns a raw H.264 byte stream that arrives in arbitrary
chunks into fragmented MP4.

- `AnnexB` is the byte-stream scanner; `AnnexBProperties` shows that it computes the one possible alternation of
  segments and start codes and that cutting the stream anywhere makes no difference; `AnnexBEncoder` relates it to the
  Annex B byte stream format.
- `BitStream`, `BitReader`, `ExpGolombCodes` are the bit reader in 32-bit JavaScript arithmetic. `Sps`, `SpsReader`
  parse a sequence parameter set, `SpsSyntax` writes one by the syntax of ITU-T H.264, `SpsRoundTrip` puts the two
  together.
- `Framer` groups NAL units into frames and shares out durations; `FramerProperties`, `FramerStreaming` and
  `FrameTimes` say what the frames are. `Adts` extracts AAC payloads. `Cleanup` decides what may be dropped from the
  media buffer, and `CleanupRuns` shows over runs of feeds and cleanups that it spares what decoding needs.
- `Tracks` and `TrackRemuxer` queue and drain samples, `Mp4` writes boxes, `Mp4Reader` is a reader of fragments written
  from the ISO standards, independent of the writer. `Controller` is `RemuxController` as a state machine over calls of
  `remux`, `flush` and `reset`; `FragmentContent` and `ControllerProperties` follow a reader through everything it ever
  dispatches, `LagExamples` shows where fragments do not abut, `SyncSamples` is about the marks of random access
  points, and `Delivery` compares what is announced and delivered, sample by sample, with the frames that came in.
  `RemuxController` and `JMuxer` are the classes that run all this. `EndToEnd` is the statement about the whole path:
  bytes in, NAL units out; `StreamSamples` is that path sample by sample, for video and for audio.

**The serial command link** (`rover/src/arduino.cpp`, `rover_slave/src/main.cpp`): `SerialMessages` packs and unpacks
requests, `SlaveFramer` is the slave's receive loop, `SerialProperties` the protocol theorems, `ArduinoMaster` the
master with its retries, `Watchdog` the motor handlers that sit on top; `Octets` is about bytes as numbers.

**The averaging filter** (`rover/src/filter.cpp`): `Filter`.

Code that computes by expressions is a function here. Code that changes variables, fields or arrays is a class or a
method with a loop, proved equal to a function of the old state; the theorems are about those functions, over all runs.
A run is a list of operations of any length and content.

## Model

| member | source | states |
|---|---|---|
| AnnexB.ExtractNALu | rover/html/jmuxer.js:553-607 | The one-pass scanner with its counter of zeros returns the declared split of the buffer. |
| AnnexBProperties.SplitUnique | rover/html/jmuxer.js:553-607 | Every buffer written as segments and 3- or 4-byte start codes in turn, with no start code inside a segment, is split into exactly its non-empty segments and the last part. |
| AnnexBProperties.SplitExists | rover/html/jmuxer.js:553-607 | Every buffer can be written that way, so the scanner's result is the unique such alternation. |
| AnnexBProperties.ExtractAppend | rover/html/jmuxer.js:2372-2383 | Scanning a first part, then its left-over followed by a second part, finds what one scan of both finds. |
| AnnexBProperties.ExtractLeft | rover/html/jmuxer.js:601-605 | The left-over of a scan contains no complete unit. |
| AnnexBEncoder.EncodeRoundTrip | rover/html/jmuxer.js:553-607 | On a stream in the format of section B.1.1 of ITU-T H.264 the scanner gives back the NAL units, the last one as left-over, if and only if no start code is preceded by more than one zero byte. |
| AnnexBEncoder.LeadingZeroIsReported | rover/html/jmuxer.js:577-596 | A stream with leading zero bytes for which a unit comes out that was never written. |
| BitReader.ExpGolomb.GetBits | rover/html/jmuxer.js:447-476 | The recursive byte-by-byte reader returns what the specification of the addressed bits says and moves the cursor only when asked. |
| BitReader.ExpGolomb.SkipLZ | rover/html/jmuxer.js:478-491 | Counts the zeros at the cursor; the cursor moves onto the first one bit, or not at all if there is none. |
| BitReader.ExpGolomb.ReadUEG | rover/html/jmuxer.js:503-507 | Is the composition of the leading-zero scan and a read of as many bits and one more. |
| BitReader.ExpGolomb.ReadEG | rover/html/jmuxer.js:509-519 | Applies the signed mapping with JavaScript's unsigned shifts to the value of `readUEG`. |
| ExpGolombCodes.GetBitsValue | rover/html/jmuxer.js:447-476 | For up to 32 bits, across any byte boundaries, the value is the number the addressed bits spell, as a signed 32-bit number. |
| ExpGolombCodes.ReadUeCode | rover/html/jmuxer.js:493-507 | For every ue(v) codeword below 2^32, `readUEG` and `skipUEG` advance by exactly the codeword; the value is the coded one if and only if there are at most 30 leading zeros. |
| ExpGolombCodes.ReadSeCode | rover/html/jmuxer.js:498-519 | `readEG` decodes every se(v) codeword of the 32-bit range: its unsigned shifts undo the wrap-around of `readUEG`. |
| SpsReader.SkipScalingList | rover/html/jmuxer.js:618-632 | The loop leaves the cursor where the recursive definition of the skip does. |
| SpsReader.ReadSPS | rover/html/jmuxer.js:644-742 | The parser, statement by statement, returns the size and cursor of the declared parse. |
| SpsRoundTrip.TakeScaling | rover/html/jmuxer.js:618-632 | Skipping a scaling list ends exactly where section 7.3.2.1.1.1 of ITU-T H.264 ends it, including lists that stop early. |
| SpsRoundTrip.ReadsWhatWasWritten | rover/html/jmuxer.js:644-856 | For every parameter set of section 7.3.2.1.1 (high profiles with scaling lists, base profiles, POC types 0, 1, 2, cropping, no VUI) whose profile is none of the four the parser does not know (134, 135, 138, 139), it returns the coded size and ends with the cursor just behind the last syntax element. |
| SpsRoundTrip.UnknownProfileIsMisread | rover/html/jmuxer.js:672 | For a family of parameter sets in those four profiles the parser takes the frame number field for the width. |
| SpsRoundTrip.SizeMatchesStandard | rover/html/jmuxer.js:852-855 | That size is the one of section 7.4.2.1.1 if and only if the chroma format has the crop units of 4:2:0 in each direction in which anything is cropped. |
| SpsRoundTrip.FullChromaIsMisread | rover/html/jmuxer.js:852-855 | A 4:4:4 parameter set that crops one column: 63 samples are left and the parser says 62. |
| JMuxer.JMuxer.ParseHeader | rover/html/jmuxer.js:858-865 | Says whether first_mb_in_slice is 0: for every payload with a ue(v) codeword below 2^32 behind its one-byte header, whether that is the code of 0. |
| JMuxer.JMuxer.GroupUnits | rover/html/jmuxer.js:2409-2455 | The loop over the units of a chunk computes the fold of single pushes, starting from the pending units, which it takes. |
| JMuxer.JMuxer.GetVideoFrames | rover/html/jmuxer.js:2409-2496 | Frames, durations, pending units, `kfCounter` and `kfPosition` after a call, or the TypeError. |
| JMuxer.JMuxer.GetAudioFrames | rover/html/jmuxer.js:2498-2531 | One frame a payload, with the durations of the shared rule. |
| JMuxer.JMuxer.Feed | rover/html/jmuxer.js:2361-2406 | One feed: the kept state, what is handed to the remuxer and what the remuxer dispatches for it, or how the call fails, hangs or is ignored. |
| JMuxer.JMuxer.GetSafeClearOffsetOfBuffer | rover/html/jmuxer.js:2633-2657 | The limit returned and the positions kept, as functions of the positions and the offset. |
| FramerProperties.UnitIs | rover/html/jmuxer.js:2434-2440 | A unit written by the syntax of sections 7.3.1 and 7.3.3 of ITU-T H.264 has the type that was written, is a slice exactly for the types 1 and 5, and starts a picture exactly when it is a slice with first_mb_in_slice 0. |
| FramerProperties.CutUnitIs | rover/html/jmuxer.js:858-865 | A slice cut off right behind its header does not start a picture. |
| FramerProperties.PushAllOk | rover/html/jmuxer.js:2430-2455 | Grouping keeps every unit, in order; every frame is (non-VCL)*, one VCL unit, (VCL units with first_mb_in_slice not 0)*, is a keyframe exactly when it has an IDR unit, and is followed by a unit that starts a picture. |
| FramerProperties.GroupingUnique | rover/html/jmuxer.js:2430-2455 | No other way of cutting the units into such frames and an open rest exists. |
| FramerProperties.TimedCall | rover/html/jmuxer.js:2457-2476 | A call with a duration throws if and only if neither the pending nor the new units hold a slice; otherwise it passes on all of them and leaves none pending. |
| FramerProperties.TimedFrames | rover/html/jmuxer.js:2457-2496 | The frames of such a call have the shape above, the last one possibly with non-VCL units behind it, each is a keyframe exactly when it has an IDR unit, and each lasts its share of the duration. |
| FramerStreaming.StreamingEqualsBatch | rover/html/jmuxer.js:2361-2496 | At a fixed frame rate, for every stream and every partition into chunks, all frames and the final `remainingData`, `pendingUnits`, `kfCounter`, `kfPosition` are those of one feed of the whole. |
| FramerStreaming.FramesOfStream | rover/html/jmuxer.js:2409-2496 | Across any sequence of feeds, emitted units followed by the pending ones are the units of the stream, and every emitted frame has the shape above. |
| FramerStreaming.MixedFeedsConserve | rover/html/jmuxer.js:2361-2476 | Across any sequence of feeds with and without a duration, none of which fails, emitted units followed by the pending ones are the units of the stream. |
| FramerStreaming.FailedFeed | rover/html/jmuxer.js:2361-2383 | A feed of video throws exactly when it has a duration and completes units, but neither those nor the pending ones hold a slice; it then loses both and the bytes of the chunk, and nothing else changes. |
| FrameTimes.DurationsSum | rover/html/jmuxer.js:2478-2487 | The frame durations of a chunk sum to its duration if and only if that is non-negative and below 2^31 a frame, or negative, divisible by the number of frames and not below -2^31 a frame. |
| FrameTimes.DurationsEven | rover/html/jmuxer.js:2520-2529 | Durations of one chunk differ by at most 1, the longer ones first. |
| Adts.ExtractAAC | rover/html/jmuxer.js:970-997 | The scanning loop computes the recursive extraction, and keeps the first header seen. |
| Adts.InvalidExactly | rover/html/jmuxer.js:965-980 | The scan is refused exactly when the data does not start with the sync word, layer 0 and either version and protection bit. |
| Adts.AdtsRoundTrip | rover/html/jmuxer.js:955-997 | On any non-empty list of ADTS frames (section 6.2 of ISO/IEC 13818-7) with 13-bit lengths the scan ends with as many payloads as frames, and they are the written ones if and only if every frame has the header length of the first, or has no payload and a shorter header. |
| Adts.CutHeaderIsStuck | rover/html/jmuxer.js:989-994 | If a stream of frames ends after k bytes of a further frame, the loop repeats for ever if and only if the part of the length field that has arrived is 0: k is at most 3, or 4 and the frame is shorter than 2048 bytes, or 5 and it is shorter than 8. |
| TrackRemuxer.Remuxer.ParseNAL | rover/html/jmuxer.js:901-945 | Slices and parameter sets are kept; parameter sets are captured once, and readiness is set by the second kind captured, as the function `ParseNal` says whose runs `Delivery.RunCaptures` describes. |
| TrackRemuxer.Remuxer.RemuxVideo | rover/html/jmuxer.js:1800-1843 | Accepts exactly the frames that keep a unit and leave the track ready, with the byte account kept. |
| TrackRemuxer.Remuxer.RemuxAudio | rover/html/jmuxer.js:1688-1706 | Queues every frame and becomes ready once a header is known, with the byte account kept. |
| TrackRemuxer.Remuxer.Drain | rover/html/jmuxer.js:1856-1901 | Empties the queue into the payload array without writing outside it; samples without a duration are dropped and taken off `len`. |
| TrackRemuxer.Remuxer.GetPayload | rover/html/jmuxer.js:1846-1905 | Returns exactly the bytes of the kept samples and updates `dts`, `nextDts`, `len` and the sample table; it returns nothing when not ready or when no sample has ever been kept. |
| Tracks.KeptAre | rover/html/jmuxer.js:901-945 | The units kept of a frame are those of types 1, 5, 7 and 8, in order, whatever was captured before. |
| Tracks.PayloadAccounted | rover/html/jmuxer.js:1709-1752 | After `getPayload`, dropped samples included, `len` is the number of bytes emitted, and the track is accounted again once flushed. |
| Controller.RunAccounted | rover/html/jmuxer.js:1624-1628 | In every run, between calls, `len` of each track is the number of queued bytes. |
| Controller.RunOrdered | rover/html/jmuxer.js:1945-2069 | In every run, no media fragment is dispatched before the initialization segments of its session have announced every track of the controller, each of them ready (video: both parameter sets captured); a call announces all tracks or none; sequence numbers are 1, 2, 3, ... over all tracks and resets. |
| Controller.RunAudioWaits | rover/html/jmuxer.js:2078-2079 | In every run, while the video track is not ready no audio is accepted: the audio queue is what the last reset found in it, and empty if there was none. |
| Mp4.MakeBox | rover/html/jmuxer.js:1221-1250 | The array code sums the lengths and copies the parts into a box with the right size field. |
| Mp4.MakeSdtp | rover/html/jmuxer.js:1348-1362 | The array code writes one dependency byte a sample. |
| Mp4.MakeTrun | rover/html/jmuxer.js:1564-1597 | The array code writes the header and the 16-byte entries of the declared box. |
| Mp4Reader.TrafTiles | rover/html/jmuxer.js:1520-1543 | Reading the body of the track fragment box by box sizes yields its four boxes with nothing left. |
| Mp4Reader.DataOffset | rover/html/jmuxer.js:1535-1570 | The data offset in the trun box is the length of the moof box plus 8, the position of the first payload byte. |
| Mp4Reader.FragmentRoundTrip | rover/html/jmuxer.js:1279-1300 | An ISO reader of a fragment below 2 GiB, with its own box names, finds the sequence number, track, decode time and, for each sample, its duration, flags, composition offset 0, dependency byte and own data; boxes tile, no gap, no overrun. |
| Mp4Reader.NalsRoundTrip | rover/html/jmuxer.js:376-384 | Splitting a sample by 4-byte lengths (section 5.2.3 of ISO/IEC 14496-15) gives back the units that `getData` wrote. |
| FragmentContent.FragmentReads | rover/html/jmuxer.js:1984-1996 | The reader of the fragment that one turn of `flush` writes finds the track's time and each kept sample with its own bytes. |
| FragmentContent.NalsOfQueue | rover/html/jmuxer.js:1888-1899 | The NAL units found in the samples of a video fragment are the units of the kept queue entries. |
| ControllerProperties.RunLinked | rover/html/jmuxer.js:1970-2091 | For every run from construction, a reader of everything dispatched can read every fragment, finds the numbers 1, 2, 3, ... and the id of the track in each, and what it has read of each track (NAL units, audio payloads) plus what is queued or left over is what was accepted; its times differ from the decode times by the tracked lag. |
| ControllerProperties.MeaningPreserved | rover/html/jmuxer.js:1800-2011 | The NAL units read, followed by those queued, are the units of types 1, 5, 7, 8 of the accepted frames with positive duration, in order, each once. |
| ControllerProperties.AudioPreserved | rover/html/jmuxer.js:1688-1752 | The audio payloads read, followed by those left over and queued, are those of the accepted frames with positive duration, in order, each once. |
| ControllerProperties.FragmentsAbut | rover/html/jmuxer.js:1984-2002 | Every decode time is the sum of the durations read on that track since the last reset (modulo 2^32) if and only if each audio fragment is sent with as much time left over from unsent fragments as there was at the last reset, none before the first; for video it always is. |
| ControllerProperties.AbutWithoutReset | rover/html/jmuxer.js:1984-2002 | Without a reset, and with less than 2^32 left over: if and only if no audio fragment is sent with samples left over from an unsent one. |
| ControllerProperties.LeftOverArises | rover/html/jmuxer.js:1732-1752 | A flush leaves samples over exactly when it drains samples with a duration that have no bytes at all, or finds some left over and sends nothing. |
| ControllerProperties.AbutWithBytes | rover/html/jmuxer.js:1984-2002 | All fragments abut if, at each flush, the samples with a duration in the audio queue are none or have bytes; single empty payloads do no harm. |
| SyncSamples.RunMarked | rover/html/jmuxer.js:1871-1884 | In every run, if frames are keyframes exactly when they have an IDR unit, a reader finds a video sample marked as a sync sample if and only if an IDR slice is among the NAL units it reads from that sample. |
| Delivery.RunCaptures | rover/html/jmuxer.js:878-946 | In every run the captured parameter sets are the first unit of type 7 and the first of type 8 among all units handed over since the last reset, and the track is ready exactly when there are both. |
| Delivery.RunAudioReady | rover/html/jmuxer.js:1688-1706 | In every run the audio track is ready exactly when, since the last reset, an audio frame has been accepted while an ADTS header was known. |
| Delivery.NextCallAnnounces | rover/html/jmuxer.js:1970-2069 | After any run, the next call opens a session exactly when none is open and every track is ready and has something queued; it then dispatches the ready signal and the initialization segments, one a track in a browser and one for all elsewhere, the video track with exactly those parameter sets; otherwise nothing is announced. Once a session is open every call empties the queues. |
| Delivery.FlushSends | rover/html/jmuxer.js:1984-2002 | A flush sends one fragment for each track that has bytes to send, video first, and nothing while no session is open. |
| Delivery.RunDelivers | rover/html/jmuxer.js:1688-2011 | In every run, the samples a reader finds in the fragments of a track, followed by those that wait, are one for each accepted frame, in order: its duration, the flags and dependency byte of its kind, composition offset 0, and exactly its bytes. Accepted are frames with a duration and something to send, once the parameter sets are complete. |
| LagExamples.EmptyPayloadLeavesGap | rover/html/jmuxer.js:1984-1987 | A call whose only payload is empty sends nothing but its duration counts: the next fragment starts late. |
| LagExamples.EmptyPayloadLags | rover/html/jmuxer.js:1984-1987 | The same run seen by the condition of `FragmentsAbut`, in any environment. |
| LagExamples.ResetMovesTheLag | rover/html/jmuxer.js:1677-1686 | What is left over survives a reset: the fragment that then carries it starts right, and the one after it, which carries nothing, does not. |
| RemuxController.RemuxController.FlushTrack | rover/html/jmuxer.js:1984-2002 | The loop body of `flush`: what is dispatched, byte for byte, the next number, the cleared track. |
| RemuxController.RemuxController.Flush | rover/html/jmuxer.js:1970-2011 | Terminates, and announces and drains as the state machine does. |
| RemuxController.RemuxController.Remux | rover/html/jmuxer.js:2071-2091 | One call is one step of the state machine, and the bytes sent are those of the logged fragments. |
| RemuxController.RemuxController.Reset | rover/html/jmuxer.js:1945-1962 | Resets every track and the announcement, but not the sequence number or the queues. |
| EndToEnd.ReaderSeesStream | rover/html/jmuxer.js:2361-2406 | Video only, fixed rate: for every stream and every chunking, the NAL units a reader extracts from the dispatched fragments are those of types 1, 5, 7, 8 of the complete frames, from the first frame on with which both parameter sets are known, and the fragments abut. |
| EndToEnd.FirstReadyIs | rover/html/jmuxer.js:901-945 | That first frame is the one with which a unit of type 7 and one of type 8 have both occurred among the units of the frames. |
| EndToEnd.ReaderSeesEncoded | rover/html/jmuxer.js:2361-2406 | The same, stated for a stream written by an Annex B encoder without padding: the frames are made of the NAL units that were encoded, all but the last. |
| EndToEnd.SyncSamplesOfStream | rover/html/jmuxer.js:2361-2406 | In the setting of the two rows above the marks are right for every stream and chunking: the framer supplies the condition. |
| StreamSamples.ReaderSeesSamples | rover/html/jmuxer.js:2361-2406 | Video only, fixed rate: for every stream and every chunking, the samples a reader finds are one for each complete frame from that first one on, of the fixed duration, marked as the frame is, and with its bytes. |
| StreamSamples.FeedAudioIs | rover/html/jmuxer.js:2385-2393 | A feed with whole ADTS frames, with or without video, hands over one audio frame for each of them, with its payload and its share of the duration; the first header ever seen is kept. |
| StreamSamples.ReaderSeesAudio | rover/html/jmuxer.js:2361-2406 | Audio only: for all ADTS frames, fed in any chunks of whole frames, the samples a reader finds are one for each frame with a duration, in order, with its payload; only samples without bytes can be left over. |
| StreamSamples.FeedEnds | rover/html/jmuxer.js:2361-2406 | Exactly when a feed throws, hangs, calls the remuxer or is ignored. |
| Cleanup.BufferController.InitCleanup | rover/html/jmuxer.js:2167-2190 | Queues the cut ranges and starts one removal, or only remembers the limit while updating, or does nothing. |
| Cleanup.CutsExactly | rover/html/jmuxer.js:2174-2186 | The ranges cut for a limit cover exactly the times from the start of a buffered range to 30 seconds before the limit. |
| Cleanup.BufferController.UpdateEnd | rover/html/jmuxer.js:2119-2133 | Takes up a limit that waits, then starts a removal of its own: two removals when the cleanup has started one. |
| Cleanup.SafeLimit | rover/html/jmuxer.js:2633-2657 | On increasing positions the limit is the last but one before the offset, or if there is none 0, in audio mode the offset; the positions from the last one before the offset on are kept. |
| CleanupRuns.FeedsRecord | rover/html/jmuxer.js:2480-2493 | After any feeds without a duration, `kfCounter` is the number of frames passed on and `kfPosition` holds k times the frame duration, in seconds, for each k-th frame that has an IDR unit, and nothing else; nothing without `clearBuffer`. |
| CleanupRuns.PositionsAre | rover/html/jmuxer.js:2480-2657 | Over every run of feeds and cleanups at a positive frame duration the positions are those times, less the ones given up: at each cleanup all before the last one that precedes the offset. |
| CleanupRuns.TimedMarks | rover/html/jmuxer.js:2478-2493 | A call with a duration records, for each frame with an IDR unit, the number of frames so far times the share of the current chunk. |
| CleanupRuns.CleanupIsSafe | rover/html/jmuxer.js:2633-2664 | In every reachable state, for any offset, the limit is 0 or the time of the last but one frame with an IDR unit before the offset, and whatever is cut for it ends before the last such frame. |
| CleanupRuns.QueuedIsSafe | rover/html/jmuxer.js:2119-2190 | Over every run of feeds, cleanups and `updateend` events while playback goes forward, everything ever queued for removal ends before the last frame with an IDR unit that precedes the last playback position, and nothing is queued as long as there is none. |
| SerialMessages.RequestRoundTrip | rover/src/messages.hpp:9-20 | The slave decodes the arguments the master encoded if and only if each fits its bit field; the message length is the one in the size table. |
| SerialMessages.WireLayout | rover/src/messages.hpp:21-120 | The bytes of every in-range request as numbers: the type, and the fields side by side in the second byte. |
| SlaveFramer.Slave.ProcessMessage | rover_slave/src/main.cpp:197-269 | Decodes the buffer; of the registers only a duty request changes any. |
| SlaveFramer.Slave.ReceiveByte | rover_slave/src/main.cpp:374-441 | One turn of the receive loop is one step of the framer, within the buffer, keeping that bytes seen plus bytes expected is the size of the type. |
| SlaveFramer.Slave.Loop | rover_slave/src/main.cpp:372-456 | One call of `loop`: bytes, idle counter, resynchronisation, dispatched requests and registers. |
| SerialProperties.PassesAreBytes | rover_slave/src/main.cpp:372-456 | However the bytes are spread over passes, the outcome is that of the bytes alone, as long as no long gap lies inside a message. |
| SerialProperties.EndToEnd | rover_slave/src/main.cpp:372-456 | The bytes of any list of in-range requests, split in any way over passes with at most 273 empty passes in a row inside a request, dispatch exactly these requests in order and end synchronised. |
| SlaveFramer.WriteDutySets | rover_slave/src/main.cpp:172-195 | All six registers after one call: the addressed one has the duty, the others are as before. |
| SerialProperties.EndToEndRegisters | rover_slave/src/main.cpp:172-195 | The registers end as a fold of direct duty writes would leave them: each with the duty of the last request for it, or as it was. |
| SerialProperties.TextMessage | rover_slave/src/main.cpp:398-439 | Bytes that start with none of the seven types are text up to the delimiter: dispatched once, with the delimiter and a terminating zero, if that fits the buffer. |
| SerialProperties.Resync | rover_slave/src/main.cpp:443-455 | From any framer state 275 empty passes synchronise, and an unsynchronised framer gets there exactly when its counter exceeds the limit. |
| ArduinoMaster.ArduinoSlave.Recv | rover/src/arduino.cpp:60-94 | Succeeds if and only if enough bytes arrive within 52 polls; the buffer holds what arrived and is otherwise unchanged. |
| ArduinoMaster.ArduinoSlave.Transact | rover/src/arduino.cpp:144-152 | Sends the same bytes in every attempt although the reply is read over the request, stops at the first reply, at most `max_retry` attempts; both counters. |
| ArduinoMaster.ArduinoSlave.PinMode | rover/src/arduino.cpp:96-113 | Every attempt puts exactly the encoded request on the wire. |
| ArduinoMaster.ArduinoSlave.InitPwm | rover/src/arduino.cpp:115-133 | Every attempt puts exactly the encoded request on the wire. |
| ArduinoMaster.ArduinoSlave.PwmDuty | rover/src/arduino.cpp:135-153 | Every attempt puts exactly the encoded request on the wire. |
| ArduinoMaster.ArduinoSlave.AnalogRead | rover/src/arduino.cpp:155-172 | The number whose two bytes, the least significant first, are the first complete reply, or 0xFFFF if no attempt is answered; the number of attempts; both counters. |
| ArduinoMaster.RetryIsOneWrite | rover/src/arduino.cpp:135-153 | If every attempt reaches the slave as a prefix or whole, and each that is followed by another one arrives not at all, whole, or with the idle gap behind it, the registers end as one direct write leaves them if some attempt arrived whole, unchanged otherwise; the slave is synchronised once the last attempt meets that condition too, so at once after a whole request. |
| Watchdog.MainApp.HandleJs | rover/src/app.cpp:237-299 | The four writes in the order of the handler, the speeds and the watchdog counter. |
| Watchdog.MainApp.HandleTimer | rover/src/app.cpp:301-313 | Counts, and stops the motors and restarts the count at the limit. |
| Watchdog.JoystickEffect | rover/src/app.cpp:245-298 | After a joystick event the requested side of each bridge carries the share of the PWM range that the stick position is of 500, rounded down, if and only if position times range is below 128000 (else it wraps), so always for positions up to 500 and ranges up to 255, full deflection giving the range; the other side is 0, and the other registers are untouched. |
| Watchdog.LedEffect | rover/src/app.cpp:178-190 | The LED command sets its register to the percentage of 255, rounded down, and changes nothing else. |
| Watchdog.AlwaysSafe | rover/src/app.cpp:237-313 | At every handler boundary of every run each bridge has at most one driven input, and the counter is below 500. |
| Watchdog.WatchdogStops | rover/src/app.cpp:301-313 | Without joystick events the motors are untouched until the tick at which the counter reaches 500, and stand still from then on. |
| Watchdog.SilenceStopsMotors | rover/src/app.hpp:77 | After any history, any stretch without joystick events that has 500 timer events ends with all four duties 0. |
| Watchdog.ReversalTransient | rover/src/app.cpp:277-298 | Inside the handler both inputs of a bridge are driven exactly after the first write of a reversal of the left motor to forward and after the third of one of the right motor to backward. |
| Filter.AveragingFilter.Call | rover/src/filter.cpp:14-28 | The k-th call returns the mean of the last N inputs, padded on the left with the first one. |
| Filter.AveragingFilter.Last | rover/src/filter.cpp:30-40 | The output at the index that the unsigned arithmetic yields; for a relative index `r` with -N < r <= 0 that reaches back to a call, and a combined index that is not negative or a size that divides 2^32, the output of -r calls earlier. |
| Filter.LastIndexExact | rover/src/filter.cpp:32-37 | The unsigned index arithmetic finds the slot meant if and only if the combined index is not negative or the size divides 2^32. |
| Filter.LastOfWrappedBatteryFilter | rover/src/filter.cpp:32-37 | With 250 slots, right after the index has wrapped, `last(0)` reads slot 45 where slot 249 is meant. |

## Where code and documentation differ

- `ArduinoSlave::analogRead` returns -1 as an unsigned 16-bit number, so a failure reads as 65535
  (`rover/src/arduino.cpp:155-172`).
- `extractNALu` follows Annex B only for streams whose start codes have three or four bytes; further zero bytes are
  reported as part of, or as, a unit (`AnnexBEncoder.EncodeRoundTrip`).
- `readSPS` does not know the profiles 134, 135, 138 and 139, which carry the fields of the high profiles too
  (`SpsRoundTrip.UnknownProfileIsMisread`).
- `readSPS` scales the cropping rectangle as for 4:2:0 video whatever the chroma format
  (`SpsRoundTrip.SizeMatchesStandard`).

## Left out

- SpsRoundTrip.ReadsWhatWasWritten: VUI parameters and the sample aspect ratio (`rover/html/jmuxer.js:744-850`) and
  emulation prevention bytes, which the parser does not remove; reading past the flag of the former is not modelled.
- SpsReader.ReadSPS: the width is the one before the sample aspect ratio is applied; nothing behind the VUI flag is
  read.
- SpsRoundTrip.UnknownProfileIsMisread: parameter sets in the four unknown profiles can come out right by coincidence;
  when they do has no simpler description than reading them.
- ControllerProperties.RunLinked: fragments of 2 GiB and more, whose box sizes do not fit their fields.
- CleanupRuns.PositionsAre: stated for feeds without a duration; with durations that change, the positions are not the
  times of the frames (`CleanupRuns.TimedMarks`) and nothing is claimed for cleanups.
- FramerStreaming.StreamingEqualsBatch: stated for feeds without a duration, the fixed-rate mode; a feed with a duration
  closes its last frame, so chunk borders then show by design.
- EndToEnd.ReaderSeesStream: stated for video without audio; with both tracks `ControllerProperties.MeaningPreserved`
  says what is delivered and what is still queued while the audio track is not ready.
- CleanupRuns.QueuedIsSafe: seeking back, where only `CleanupRuns.CleanupIsSafe` is claimed; and progress: with two
  tracks the first call of `getSafeClearOffsetOfBuffer` has already thinned out the positions for the second.
- Filter.AveragingFilter.Last: rounding of doubles; they are real numbers here, also in `kfPosition`.
- Watchdog.JoystickEffect: rounding of doubles in the speed, which can fall just short of a whole number, and sticks and
  ranges whose product does not fit the registers of the master.
- ArduinoMaster.RetryIsOneWrite: link faults other than truncation; a lost first byte can turn a body byte into a type.
- SlaveFramer.Slave.ProcessMessage: replies, and the effects on pins.
- ArduinoMaster.ArduinoSlave.AnalogRead: replies that arrive after their attempt has been given up.
- Initialization segments: which tracks and parameter sets they carry is modelled, their bytes (moov, avcC, esds, codec
  string, picture size) are not.
- The DOM, MediaSource, object URLs, intervals, logging, the Node stream wrapper, `destroy`.
- Whether removals overlap in `BufferController`: `updateend` can start a second one while one is in progress.
- Durations beyond 2^53, where JavaScript numbers lose integers; durations that are not integers after `parseInt` (NaN
  counts as 0, as in the source).
- Track ids count on over all instances in the source; every controller starts with 1 here. `aacHeader` is one variable
  for all instances in the source and a field of `JMuxer` here.
- The slave's text protocol beyond its framing; reply contents; `initPwm` register bits, a dispatched event here;
  `pinMode`, `digitalWrite` and the other pin functions.
- The thermal, fan, battery and network code of `handle_timer`, and the LED writes of other handlers, which only appear
  as events that leave the motors alone.
- `averaging_filter::reset`, which keeps the index of the old ring.
- Sockets, threads and the queue between them: handlers run one after the other.
