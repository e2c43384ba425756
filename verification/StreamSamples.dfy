/** From the bytes that are fed to the samples a reader finds, for each of the two tracks. */
module StreamSamples {
  import opened Bytes
  import opened Media
  import opened Tracks
  import opened Mp4Reader
  import opened Framer
  import opened FramerStreaming
  import opened Controller
  import opened ControllerProperties
  import opened Delivery
  import opened EndToEnd
  import FramerProperties
  import FragmentContent
  import Adts
  import AnnexB
  import JMuxer

  // ----- Video -----

  /** What the last frame adds. */
  function AcceptedLast(units: seq<Nalu>, frames: seq<VideoFrame>): seq<SampleView>
    requires frames != []
  {
    var last := frames[|frames| - 1];
    if last.duration > 0 && SlicesAndSets(last.units) != [] && Complete(units + FramerProperties.FrameUnits(frames))
    then [VideoView(last)] else []
  }

  lemma AcceptedSnoc(units: seq<Nalu>, frames: seq<VideoFrame>)
    requires frames != []
    ensures AcceptedVideo(units, frames) ==
            AcceptedVideo(units, frames[..|frames| - 1]) + AcceptedLast(units, frames)
  {
  }

  lemma SameLast(units: seq<Nalu>, a: seq<VideoFrame>, b: seq<VideoFrame>)
    requires b != []
    ensures AcceptedLast(units, a + b) == AcceptedLast(units + FramerProperties.FrameUnits(a), b)
  {
    FrameUnitsAppend(a, b);
    Delivery.UnitsRegroup(units, FramerProperties.FrameUnits(a), FramerProperties.FrameUnits(b));
  }

  lemma {:induction false} AcceptedAppend(units: seq<Nalu>, a: seq<VideoFrame>, b: seq<VideoFrame>)
    ensures AcceptedVideo(units, a + b) ==
            AcceptedVideo(units, a) + AcceptedVideo(units + FramerProperties.FrameUnits(a), b)
    decreases |b|
  {
    var more := units + FramerProperties.FrameUnits(a);
    if b == [] {
      assert a + b == a;
      assert AcceptedVideo(units, a) + [] == AcceptedVideo(units, a);
    } else {
      AcceptedAppend(units, a, b[..|b| - 1]);
      assert (a + b)[..|a + b| - 1] == a + b[..|b| - 1];
      AcceptedSnoc(units, a + b);
      AcceptedSnoc(more, b);
      SameLast(units, a, b);
      ViewsRegroup(AcceptedVideo(units, a), AcceptedVideo(more, b[..|b| - 1]), AcceptedLast(more, b));
    }
  }

  lemma OpsSnoc(ops: seq<Op>, frames: seq<VideoFrame>)
    ensures var more := ops + [Remux(frames, [], false)];
            && Session(more) == Session(ops) + FramerProperties.FrameUnits(frames)
            && VideoSamples(more) == VideoSamples(ops) + AcceptedVideo(Session(ops), frames)
  {
    assert (ops + [Remux(frames, [], false)])[..|ops|] == ops;
  }

  lemma OneFeedSamples(ops: seq<Op>, frames: seq<VideoFrame>, outcome: JMuxer.Outcome, more: seq<VideoFrame>)
    requires Session(ops) == FramerProperties.FrameUnits(frames) && VideoSamples(ops) == AcceptedVideo([], frames)
    requires if outcome.Passed? then outcome == JMuxer.Passed(more, []) else more == []
    ensures Session(ops + OpOf(outcome)) == FramerProperties.FrameUnits(frames + more)
    ensures VideoSamples(ops + OpOf(outcome)) == AcceptedVideo([], frames + more)
  {
    if outcome.Passed? {
      OpsSnoc(ops, more);
      FrameUnitsAppend(frames, more);
      AcceptedAppend([], frames, more);
      assert [] + FramerProperties.FrameUnits(frames) == FramerProperties.FrameUnits(frames);
    } else {
      assert ops + [] == ops && frames + [] == frames;
    }
  }

  lemma {:induction false} ChunkSamples(c: Config, chunks: seq<ByteString>)
    ensures var f, r := FeedChunks(c, chunks), FeedAll(c, START, chunks);
            && f.state == r.state && Session(f.ops) == FramerProperties.FrameUnits(r.frames)
            && VideoSamples(f.ops) == AcceptedVideo([], r.frames)
    decreases |chunks|
  {
    if chunks != [] {
      var front, last := chunks[..|chunks| - 1], chunks[|chunks| - 1];
      ChunkSamples(c, front);
      var before := FeedChunks(c, front);
      OneFeed(c, before.state, last);
      OneFeedSamples(before.ops, FeedAll(c, START, front).frames,
                     JMuxer.FeedResult(c, before.state, None, VideoInput(last)).outcome,
                     FeedOnce(c, before.state, last).frames);
    }
  }

  /** One sample a frame. */
  function FrameViews(frames: seq<VideoFrame>): seq<SampleView> {
    if frames == [] then [] else FrameViews(frames[..|frames| - 1]) + [VideoView(frames[|frames| - 1])]
  }

  lemma {:induction false} SetsAfter(frames: seq<VideoFrame>)
    ensures ParamsAfter(NO_PARAMS, frames) == Sets(FramerProperties.FrameUnits(frames))
    decreases |frames|
  {
    if frames != [] {
      SetsAfter(frames[..|frames| - 1]);
      UnitsKeepSets(FramerProperties.FrameUnits(frames[..|frames| - 1]), frames[|frames| - 1].units);
    }
  }

  lemma ViewsFront(frames: seq<VideoFrame>, k: nat)
    requires k < |frames|
    ensures FrameViews(frames[k..]) == FrameViews(frames[..|frames| - 1][k..]) + [VideoView(frames[|frames| - 1])]
  {
    assert frames[k..][..|frames[k..]| - 1] == frames[..|frames| - 1][k..];
  }

  /** Frames with a slice and a duration are all accepted, from the first complete one on. */
  lemma {:induction false} AcceptedFrom(frames: seq<VideoFrame>)
    requires Shown(frames)
    ensures AcceptedVideo([], frames) == FrameViews(frames[FirstReady(NO_PARAMS, frames)..])
    decreases |frames|
  {
    if frames != [] {
      var front := frames[..|frames| - 1];
      AcceptedFrom(front);
      SetsAfter(frames);
      ReadyFrom(NO_PARAMS, frames);
      ReadyFrom(NO_PARAMS, front);
      assert [] + FramerProperties.FrameUnits(frames) == FramerProperties.FrameUnits(frames);
      if ParamsAfter(NO_PARAMS, frames).ready {
        ViewsFront(frames, FirstReady(NO_PARAMS, frames));
      } else {
        NotReadyBefore(NO_PARAMS, front, frames[|frames| - 1]);
      }
    }
  }

  lemma NothingLeftOver(c: Ctl, ops: seq<Op>)
    requires Fresh(c) && c.video.Some? && Small(Run(c, ops).events)
    ensures Run(c, ops).ctl.video.Some? && Run(c, ops).ctl.video.value.done == []
  {
    RunLinked(c, ops);
    RunKeepsTracks(c, ops);
  }

  /** Video only, at a fixed frame rate: for every byte stream and every partition of it into chunks, the
      samples a reader finds are one for each complete frame of the stream, from the first one on with which
      both parameter sets are known: of the fixed duration, marked as the frame is, presented when decoded,
      and with the bytes of that frame. */
  lemma ReaderSeesSamples(c: Config, ctl: Ctl, chunks: seq<ByteString>)
    requires Fresh(ctl) && ctl.video.Some? && ctl.audio.None? && c.frameDuration > 0
    requires Small(Run(ctl, FeedChunks(c, chunks).ops).events)
    ensures var frames := StreamFrames(Flatten(chunks), c.frameDuration);
            SamplesRead(Video, Run(ctl, FeedChunks(c, chunks).ops).events) ==
            FrameViews(frames[FirstReady(NO_PARAMS, frames)..])
  {
    var ops := FeedChunks(c, chunks).ops;
    ChunkSamples(c, chunks);
    StartSettled();
    StreamingEqualsBatch(c, START, chunks);
    BatchFrames(c, Flatten(chunks));
    AcceptedFrom(StreamFrames(Flatten(chunks), c.frameDuration));
    RunDelivers(ctl, ops);
    ChunksAre(c, NothingAccepted(ctl), chunks);
    RunDrained(ctl, ops);
    NothingLeftOver(ctl, ops);
    var es := Run(ctl, ops).events;
    NothingWaits(Run(ctl, ops).ctl.video.value);
    assert SamplesRead(Video, es) + [] == SamplesRead(Video, es);
  }

  // ----- Audio -----

  /** ADTS frames that are fed together. */
  datatype AudioChunk = AudioChunk(frames: seq<Adts.Frame>, duration: int)

  /** The length fields hold the lengths, and the header lengths agree. */
  predicate GoodChunk(k: AudioChunk) {
    k.frames != [] && Adts.AllFit(k.frames) && Adts.AllAligned(k.frames, k.frames[0].HeaderSize())
  }

  predicate GoodChunks(ks: seq<AudioChunk>) {
    ks == [] || (GoodChunk(ks[|ks| - 1]) && GoodChunks(ks[..|ks| - 1]))
  }

  /** The frames of a chunk with their shares of its duration. */
  function ChunkFrames(c: Config, k: AudioChunk): (fs: seq<AudioFrame>)
    requires k.frames != []
    ensures |fs| == |k.frames|
  {
    var ds := FrameDurations(k.duration, |k.frames|, c.frameDuration);
    seq(|k.frames|, i requires 0 <= i < |k.frames| => AudioFrame(k.frames[i].payload, ds[i]))
  }

  lemma {:induction false} PayloadAt(fs: seq<Adts.Frame>, i: nat)
    requires i < |fs|
    ensures Adts.Payloads(fs)[i] == fs[i].payload
    decreases i
  {
    if i > 0 { PayloadAt(fs[1..], i - 1); }
  }

  lemma {:induction false} TimedAudioAt(payloads: seq<ByteString>, ds: seq<int>, i: nat)
    requires |payloads| == |ds| && i < |ds|
    ensures JMuxer.TimedAudio(payloads, ds)[i] == AudioFrame(payloads[i], ds[i])
    decreases |ds|
  {
    if i < |ds| - 1 { TimedAudioAt(payloads[..|ds| - 1], ds[..|ds| - 1], i); }
  }

  lemma TimedAudioIs(c: Config, k: AudioChunk)
    requires k.frames != []
    ensures JMuxer.TimedAudio(Adts.Payloads(k.frames), FrameDurations(k.duration, |k.frames|, c.frameDuration)) ==
            ChunkFrames(c, k)
  {
    var ps, ds := Adts.Payloads(k.frames), FrameDurations(k.duration, |k.frames|, c.frameDuration);
    forall i | 0 <= i < |k.frames|
      ensures JMuxer.TimedAudio(ps, ds)[i] == ChunkFrames(c, k)[i]
    {
      PayloadAt(k.frames, i);
      TimedAudioAt(ps, ds, i);
    }
  }

  lemma ScanIs(k: AudioChunk, header: Option<ByteString>)
    requires GoodChunk(k)
    ensures var scan := JMuxer.ScanAudio(Some(Adts.EncodeAll(k.frames)), header);
            && scan.extracted == Adts.Frames(Adts.Payloads(k.frames)) && scan.header.Some?
            && (header.Some? ==> scan.header == header)
            && (header.None? ==> scan.header == Some(Adts.Header(k.frames[0])))
  {
    var f, rest := k.frames[0], Adts.EncodeAll(k.frames[1..]);
    Adts.AdtsRoundTrip(k.frames);
    Adts.ReadsHeader(f, rest);
    var b := Adts.EncodeAll(k.frames);
    assert b == Adts.Header(f) + f.payload + rest;
    assert b[0..f.HeaderSize()] == Adts.Header(f);
  }

  /** What one feed with ADTS frames hands to the remuxer, with whatever video comes with it: one audio frame
      for each of them, with its payload and its share of the duration. The first header ever seen is kept. */
  lemma FeedAudioIs(c: Config, s: State, header: Option<ByteString>, video: Option<ByteString>, k: AudioChunk)
    requires GoodChunk(k)
    ensures var input := JMuxer.Input(video, Some(Adts.EncodeAll(k.frames)), k.duration);
            var r, fed := JMuxer.FeedResult(c, s, header, input), JMuxer.VideoPart(c, s, input);
            && r.state == fed.state && (fed.failed ==> r.outcome.Failed?)
            && (!fed.failed ==>
                  && r.outcome == JMuxer.Passed(if fed.frames.Some? then fed.frames.value else [], ChunkFrames(c, k))
                  && r.header == Some(if header.Some? then header.value else Adts.Header(k.frames[0])))
  {
    ScanIs(k, header);
    TimedAudioIs(c, k);
  }

  /** Whether complete units, or whole audio payloads, have come with a feed. */
  predicate BringsVideo(s: State, input: JMuxer.Input) {
    input.video.Some? && AnnexB.Extract(s.remaining + input.video.value).units != []
  }

  predicate BringsAudio(input: JMuxer.Input) {
    input.audio.Some? &&
    var r := Adts.ExtractAac(input.audio.value); r.Frames? && r.payloads != []
  }

  /** How a feed ends, exactly. It throws if its duration cannot be given to any frame, hangs if the audio scan
      does, and calls the remuxer if and only if video units or audio payloads have come. */
  lemma FeedEnds(c: Config, s: State, header: Option<ByteString>, input: JMuxer.Input)
    requires FramerProperties.OpenOk(s.pending)
    ensures var r := JMuxer.FeedResult(c, s, header, input);
            && (r.outcome.Failed? <==>
                  && BringsVideo(s, input) && input.duration != 0
                  && !FramerProperties.AnySlice(s.pending.units + MakeUnits(
                        AnnexB.Extract(s.remaining + input.video.value).units)))
            && (r.outcome.Hangs? <==>
                  !r.outcome.Failed? && input.audio.Some? && Adts.ExtractAac(input.audio.value).Stuck?)
            && (r.outcome.Passed? <==>
                  !r.outcome.Failed? && !r.outcome.Hangs? && (BringsVideo(s, input) || BringsAudio(input)))
  {
    if input.video.Some? { FailedFeed(c, s, Chunk(input.video.value, input.duration)); }
  }

  datatype AudioCalls = AudioCalls(header: Option<ByteString>, ops: seq<Op>)

  /** The calls of `remux` that feeds of audio alone make. */
  function FeedAudio(c: Config, ks: seq<AudioChunk>): AudioCalls
    requires GoodChunks(ks)
    decreases |ks|
  {
    if ks == [] then AudioCalls(None, []) else
      var before, k := FeedAudio(c, ks[..|ks| - 1]), ks[|ks| - 1];
      var input := JMuxer.Input(None, Some(Adts.EncodeAll(k.frames)), k.duration);
      var r := JMuxer.FeedResult(c, START, before.header, input);
      AudioCalls(r.header,
                 before.ops +
                 if r.outcome.Passed? then [Remux(r.outcome.video, r.outcome.audio, r.header.Some?)] else [])
  }

  /** All frames with a duration, one after the other. */
  function AudioViews(c: Config, ks: seq<AudioChunk>): seq<SampleView>
    requires GoodChunks(ks)
    decreases |ks|
  {
    if ks == [] then []
    else AudioViews(c, ks[..|ks| - 1]) + AcceptedAudio(ChunkFrames(c, ks[|ks| - 1]))
  }

  /** A call with a frame and a known header leaves an audio-only controller ready to flush. */
  lemma CallWaits(c: Ctl, op: Op)
    requires c.video.None? && c.audio.Some? && op.Remux? && op.audio != [] && op.headerKnown
    ensures AllWaiting(BeforeFlush(c, op))
  {
  }

  lemma OneCallMore(ctl: Ctl, ops: seq<Op>, frames: seq<AudioFrame>)
    requires Fresh(ctl) && ctl.video.None? && ctl.audio.Some? && frames != []
    ensures var more := ops + [Remux([], frames, true)];
            && AudioSamples(false, more) == AudioSamples(false, ops) + AcceptedAudio(frames)
            && Run(ctl, more).ctl.initialized && Emptied(Run(ctl, more).ctl)
  {
    var op := Remux([], frames, true);
    assert (ops + [op])[..|ops|] == ops;
    NextCallAnnounces(ctl, ops, op);
    RunTracks(ctl, ops);
    CallWaits(Run(ctl, ops).ctl, op);
  }

  lemma {:induction false} AudioCallsAre(c: Config, ctl: Ctl, ks: seq<AudioChunk>)
    requires Fresh(ctl) && ctl.video.None? && ctl.audio.Some? && GoodChunks(ks)
    ensures var f := FeedAudio(c, ks);
            && (ks != [] ==> f.header.Some?) && AudioSamples(false, f.ops) == AudioViews(c, ks)
            && (ks != [] ==> Run(ctl, f.ops).ctl.initialized)
            && Emptied(Run(ctl, f.ops).ctl)
    decreases |ks|
  {
    if ks != [] {
      var front, k := ks[..|ks| - 1], ks[|ks| - 1];
      AudioCallsAre(c, ctl, front);
      FeedAudioIs(c, START, FeedAudio(c, front).header, None, k);
      OneCallMore(ctl, FeedAudio(c, front).ops, ChunkFrames(c, k));
    }
  }

  /** Audio only: for all ADTS frames, fed in any chunks of whole frames, the samples a reader finds are one
      for each frame with a duration, in order, with its payload and its share of the duration of its chunk;
      only samples without bytes can be left over behind them. */
  lemma ReaderSeesAudio(c: Config, ctl: Ctl, ks: seq<AudioChunk>)
    requires Fresh(ctl) && ctl.video.None? && ctl.audio.Some? && GoodChunks(ks)
    requires Small(Run(ctl, FeedAudio(c, ks).ops).events)
    ensures var r := Run(ctl, FeedAudio(c, ks).ops);
            && r.ctl.audio.Some? && AllEmpty(r.ctl.audio.value.done) && r.ctl.audio.value.queue == []
            && SamplesRead(Audio, r.events) + Waiting(r.ctl.audio.value) == AudioViews(c, ks)
  {
    var ops := FeedAudio(c, ks).ops;
    AudioCallsAre(c, ctl, ks);
    RunDelivers(ctl, ops);
    RunTracks(ctl, ops);
  }
}
