/** From the raw byte stream, fed in any chunks, to what an ISO reader finds in the dispatched fragments. */
module EndToEnd {
  import opened Bytes
  import opened Media
  import opened Tracks
  import opened Framer
  import opened FramerStreaming
  import FramerProperties
  import AnnexB
  import AnnexBEncoder
  import opened Controller
  import opened ControllerProperties
  import opened SyncSamples
  import JMuxer

  // ----- The calls of the remuxer -----

  /** Video data without a duration. */
  function VideoInput(chunk: ByteString): JMuxer.Input {
    JMuxer.Input(Some(chunk), None, 0)
  }

  function OpOf(outcome: JMuxer.Outcome): seq<Op> {
    if outcome.Passed? then [Remux(outcome.video, outcome.audio, false)] else []
  }

  datatype Calls = Calls(state: State, ops: seq<Op>)

  /** The state after all feeds and the calls of `remux` they made. */
  function FeedChunks(c: Config, chunks: seq<ByteString>): Calls
    decreases |chunks|
  {
    if chunks == [] then Calls(START, []) else
      var before := FeedChunks(c, chunks[..|chunks| - 1]);
      var r := JMuxer.FeedResult(c, before.state, None, VideoInput(chunks[|chunks| - 1]));
      Calls(r.state, before.ops + OpOf(r.outcome))
  }

  lemma {:induction false} AcceptFramesAppend(h: History, a: seq<VideoFrame>, b: seq<VideoFrame>)
    ensures AcceptFrames(h, a + b) == AcceptFrames(AcceptFrames(h, a), b)
    decreases |b|
  {
    if b == [] {
      assert a + b == a;
    } else {
      AcceptFramesAppend(h, a, b[..|b| - 1]);
      assert (a + b)[..|a + b| - 1] == a + b[..|b| - 1];
    }
  }

  lemma OneFeed(c: Config, s: State, chunk: ByteString)
    ensures var r, f := JMuxer.FeedResult(c, s, None, VideoInput(chunk)), FeedOnce(c, s, chunk);
            && r.state == f.state && !r.outcome.Failed? && !r.outcome.Hangs?
            && if r.outcome.Passed? then r.outcome == JMuxer.Passed(f.frames, []) else f.frames == []
  {
  }

  lemma AcceptSnoc(h: History, ops: seq<Op>, op: Op)
    ensures AcceptOps(h, ops + [op]) == AcceptOp(AcceptOps(h, ops), op)
  {
    assert (ops + [op])[..|ops|] == ops;
  }

  /** Only video, no audio, no reset. */
  predicate VideoOps(ops: seq<Op>) {
    ops == [] || (ops[|ops| - 1].Remux? && ops[|ops| - 1].audio == [] && VideoOps(ops[..|ops| - 1]))
  }

  lemma VideoOpsSnoc(ops: seq<Op>, op: Op)
    requires VideoOps(ops) && op.Remux? && op.audio == []
    ensures VideoOps(ops + [op])
  {
    assert (ops + [op])[..|ops|] == ops;
  }

  /** The calls of the remuxer pass on the frames of the feeds. */
  lemma {:induction false} ChunksAre(c: Config, h: History, chunks: seq<ByteString>)
    requires !h.hasAudio
    ensures var f, r := FeedChunks(c, chunks), FeedAll(c, START, chunks);
            && f.state == r.state && VideoOps(f.ops)
            && AcceptOps(h, f.ops) == AcceptFrames(h, r.frames)
    decreases |chunks|
  {
    if chunks != [] {
      var front, last := chunks[..|chunks| - 1], chunks[|chunks| - 1];
      ChunksAre(c, h, front);
      var before := FeedChunks(c, front);
      OneFeed(c, before.state, last);
      var outcome := JMuxer.FeedResult(c, before.state, None, VideoInput(last)).outcome;
      OpsPassOn(h, before.ops, FeedAll(c, START, front).frames, outcome, FeedOnce(c, before.state, last).frames);
    }
  }

  lemma OneRemux(h: History, frames: seq<VideoFrame>)
    requires !h.hasAudio
    ensures AcceptOp(h, Remux(frames, [], false)) == AcceptFrames(h, frames)
  {
    AcceptFramesKeep(h, frames);
  }

  lemma {:induction false} OpsKeep(h: History, ops: seq<Op>)
    ensures AcceptOps(h, ops).hasAudio == h.hasAudio
    decreases |ops|
  {
    if ops != [] {
      OpsKeep(h, ops[..|ops| - 1]);
      if ops[|ops| - 1].Remux? { AcceptFramesKeep(AcceptOps(h, ops[..|ops| - 1]), ops[|ops| - 1].video); }
    }
  }

  /** One more feed. */
  lemma OpsPassOn(h: History, ops: seq<Op>, frames: seq<VideoFrame>, outcome: JMuxer.Outcome, more: seq<VideoFrame>)
    requires !h.hasAudio && VideoOps(ops) && AcceptOps(h, ops) == AcceptFrames(h, frames)
    requires if outcome.Passed? then outcome == JMuxer.Passed(more, []) else more == []
    ensures VideoOps(ops + OpOf(outcome)) && AcceptOps(h, ops + OpOf(outcome)) == AcceptFrames(h, frames + more)
  {
    if outcome.Passed? {
      var op := Remux(more, [], false);
      VideoOpsSnoc(ops, op);
      AcceptSnoc(h, ops, op);
      OpsKeep(h, ops);
      OneRemux(AcceptOps(h, ops), more);
      AcceptFramesAppend(h, frames, more);
    } else {
      assert frames + [] == frames && ops + [] == ops;
    }
  }

  // ----- The queue of a video-only controller -----

  /** Only a ready track has anything queued. */
  predicate QueueReady(t: Track) {
    t.queue != [] ==> t.params.ready
  }

  lemma {:induction false} RemuxQueueReady(t: Track, frames: seq<VideoFrame>)
    requires QueueReady(t)
    ensures QueueReady(RemuxVideo(t, frames))
    decreases |frames|
  {
    if frames != [] {
      var u := RemuxVideo(t, frames[..|frames| - 1]);
      RemuxQueueReady(t, frames[..|frames| - 1]);
      if u.params.ready { UnitsKeepReady(u.params, frames[|frames| - 1].units); }
    }
  }

  /** A video-only controller with nothing queued. */
  predicate Drained(c: Ctl) {
    c.video.Some? && c.audio.None? && c.video.value.queue == []
  }

  lemma FlushTrackDrains(t: Track, seqNo: int)
    requires QueueReady(t)
    ensures FlushTrack(t, seqNo).track.queue == []
  {
  }

  lemma FlushDrains(c: Ctl)
    requires c.video.Some? && c.audio.None? && QueueReady(c.video.value)
    ensures Drained(FlushCtl(c).ctl)
  {
    FlushTrackDrains(c.video.value, c.seqNo);
  }

  lemma StepDrains(c: Ctl, op: Op)
    requires Drained(c) && op.Remux?
    ensures Drained(Step(c, op).ctl)
  {
    RemuxQueueReady(c.video.value, op.video);
    FlushDrains(Accept(c, op));
  }

  lemma {:induction false} RunDrained(c: Ctl, ops: seq<Op>)
    requires Drained(c) && VideoOps(ops)
    ensures Drained(Run(c, ops).ctl)
    decreases |ops|
  {
    if ops != [] {
      RunDrained(c, ops[..|ops| - 1]);
      StepDrains(Run(c, ops[..|ops| - 1]).ctl, ops[|ops| - 1]);
    }
  }

  // ----- What is accepted -----

  /** The index of the first frame with which the track becomes ready. */
  function FirstReady(p: Params, frames: seq<VideoFrame>): (k: nat)
    ensures k <= |frames|
  {
    if frames == [] then 0 else
      var k := FirstReady(p, frames[..|frames| - 1]);
      if k == |frames| - 1 && !ParamsAfter(p, frames).ready then k + 1 else k
  }

  /** The parameter sets captured from a list of frames. */
  function ParamsAfter(p: Params, frames: seq<VideoFrame>): Params
    decreases |frames|
  {
    if frames == [] then p
    else ParseUnits(ParamsAfter(p, frames[..|frames| - 1]), frames[|frames| - 1].units).params
  }

  lemma {:induction false} ReadyFrom(p: Params, frames: seq<VideoFrame>)
    requires !p.ready
    ensures ParamsAfter(p, frames).ready <==> FirstReady(p, frames) < |frames|
    decreases |frames|
  {
    if frames != [] {
      var front := frames[..|frames| - 1];
      ReadyFrom(p, front);
      if ParamsAfter(p, front).ready { UnitsKeepReady(ParamsAfter(p, front), frames[|frames| - 1].units); }
    }
  }

  predicate UnitsHave(units: seq<Nalu>, kind: nat) {
    units != [] && (units[|units| - 1].Type() == kind || UnitsHave(units[..|units| - 1], kind))
  }

  /** A unit of that type is among the units of the frames. */
  predicate FramesHave(frames: seq<VideoFrame>, kind: nat) {
    frames != [] && (UnitsHave(frames[|frames| - 1].units, kind) || FramesHave(frames[..|frames| - 1], kind))
  }

  /** Ready means that both parameter sets have been captured. */
  predicate ReadyWithBoth(p: Params) {
    p.ready <==> p.sps.Some? && p.pps.Some?
  }

  lemma {:induction false} UnitsCapture(p: Params, units: seq<Nalu>)
    requires ReadyWithBoth(p)
    ensures var q := ParseUnits(p, units).params;
            && ReadyWithBoth(q) && (q.sps.Some? <==> p.sps.Some? || UnitsHave(units, SPS))
            && (q.pps.Some? <==> p.pps.Some? || UnitsHave(units, PPS))
    decreases |units|
  {
    if units != [] { UnitsCapture(p, units[..|units| - 1]); }
  }

  lemma {:induction false} FramesCapture(p: Params, frames: seq<VideoFrame>)
    requires ReadyWithBoth(p)
    ensures var q := ParamsAfter(p, frames);
            && ReadyWithBoth(q) && (q.sps.Some? <==> p.sps.Some? || FramesHave(frames, SPS))
            && (q.pps.Some? <==> p.pps.Some? || FramesHave(frames, PPS))
    decreases |frames|
  {
    if frames != [] {
      var front := frames[..|frames| - 1];
      FramesCapture(p, front);
      UnitsCapture(ParamsAfter(p, front), frames[|frames| - 1].units);
    }
  }

  predicate HaveBoth(frames: seq<VideoFrame>) {
    FramesHave(frames, 7) && FramesHave(frames, 8)
  }

  /** The first frame that counts is the one with which a sequence and a picture parameter set have both
      occurred among the units of the frames; without them there is none. */
  lemma {:induction false} FirstReadyIs(frames: seq<VideoFrame>)
    ensures var k := FirstReady(NO_PARAMS, frames);
            !HaveBoth(frames[..k]) && (k < |frames| ==> HaveBoth(frames[..k + 1]))
    decreases |frames|
  {
    if frames != [] {
      var front := frames[..|frames| - 1];
      var k := FirstReady(NO_PARAMS, front);
      FirstReadyIs(front);
      FramesCapture(NO_PARAMS, frames);
      FramesCapture(NO_PARAMS, front);
      ReadyFrom(NO_PARAMS, front);
      assert front[..k] == frames[..k] && frames[..|frames|] == frames;
      if k < |front| { assert front[..k + 1] == frames[..k + 1]; }
    }
  }

  /** Frames as `getVideoFrames` makes them at a fixed rate: each keeps a unit and has a duration. */
  predicate Shown(frames: seq<VideoFrame>) {
    frames == [] ||
    (frames[|frames| - 1].duration > 0 && SlicesAndSets(frames[|frames| - 1].units) != []
     && Shown(frames[..|frames| - 1]))
  }

  lemma {:induction false} SetsAppend(a: seq<Nalu>, b: seq<Nalu>)
    ensures SlicesAndSets(a + b) == SlicesAndSets(a) + SlicesAndSets(b)
    decreases |b|
  {
    if b == [] {
      assert a + b == a;
      assert SlicesAndSets(a) + [] == SlicesAndSets(a);
    } else {
      SetsAppend(a, b[..|b| - 1]);
      assert (a + b)[..|a + b| - 1] == a + b[..|b| - 1];
      var last := b[|b| - 1];
      var more := if last.Type() in {1, 5, 7, 8} then [last.payload] else [];
      Reassociate(SlicesAndSets(a), SlicesAndSets(b[..|b| - 1]), more);
    }
  }

  lemma Reassociate(a: seq<ByteString>, b: seq<ByteString>, c: seq<ByteString>)
    ensures (a + b) + c == a + (b + c)
  {
  }

  /** The units of the types 1, 5, 7 and 8 in a list of frames, in order. */
  function KeptUnits(frames: seq<VideoFrame>): seq<ByteString> {
    if frames == [] then [] else KeptUnits(frames[..|frames| - 1]) + SlicesAndSets(frames[|frames| - 1].units)
  }

  lemma AcceptFrameIs(h: History, frame: VideoFrame)
    requires frame.duration > 0 && SlicesAndSets(frame.units) != []
    ensures var p := ParseUnits(h.params, frame.units).params;
            AcceptFrame(h, frame) ==
            h.(params := p, units := if p.ready then h.units + SlicesAndSets(frame.units) else h.units)
  {
    KeptAre(h.params, frame.units);
  }

  lemma SuffixFront(frames: seq<VideoFrame>, k: nat)
    requires k < |frames|
    ensures KeptUnits(frames[k..]) ==
            KeptUnits(frames[..|frames| - 1][k..]) + SlicesAndSets(frames[|frames| - 1].units)
  {
    assert frames[k..][..|frames[k..]| - 1] == frames[..|frames| - 1][k..];
  }

  /** The history of a controller that has video only. */
  function VideoHistory(p: Params, units: seq<ByteString>): History {
    History(true, false, p, units, [])
  }

  /** Everything is accepted from the first frame on with which both parameter sets are known. */
  lemma {:induction false} AcceptedAre(p: Params, frames: seq<VideoFrame>)
    requires !p.ready && Shown(frames)
    ensures AcceptFrames(VideoHistory(p, []), frames) ==
            VideoHistory(ParamsAfter(p, frames), KeptUnits(frames[FirstReady(p, frames)..]))
    decreases |frames|
  {
    if frames != [] {
      var front, last := frames[..|frames| - 1], frames[|frames| - 1];
      AcceptedAre(p, front);
      ReadyFrom(p, front);
      ReadyFrom(p, frames);
      AcceptFrameIs(AcceptFrames(VideoHistory(p, []), front), last);
      if ParamsAfter(p, frames).ready {
        SuffixFront(frames, FirstReady(p, frames));
      } else {
        assert KeptUnits([]) == [];
        NotReadyBefore(p, front, last);
      }
    }
  }

  lemma NotReadyBefore(p: Params, front: seq<VideoFrame>, last: VideoFrame)
    requires !ParseUnits(ParamsAfter(p, front), last.units).params.ready
    ensures !ParamsAfter(p, front).ready
  {
    if ParamsAfter(p, front).ready { UnitsKeepReady(ParamsAfter(p, front), last.units); }
  }

  lemma {:induction false} SliceIsKept(us: seq<Nalu>)
    requires FramerProperties.FrameShape(us)
    ensures SlicesAndSets(us) != []
  {
  }

  lemma {:induction false} FramesShown(g: Grouping, fd: int)
    requires FramerProperties.WellGrouped(g) && fd > 0
    ensures Shown(Even(g.frames, fd))
    decreases |g.frames|
  {
    var n := |g.frames|;
    if n > 0 {
      var before := Grouping(g.frames[..n - 1], FramerProperties.AsOpen(g.frames[n - 1]));
      FramesShown(before, fd);
      SliceIsKept(g.frames[n - 1].units);
    }
  }

  /** Without audio nothing is ever left over. */
  lemma {:induction false} NoAudioDrained(c: Ctl, ops: seq<Op>)
    requires c.audio.None?
    ensures BytesInEveryDrain(c, ops)
    decreases |ops|
  {
    if ops != [] {
      NoAudioDrained(c, ops[..|ops| - 1]);
      RunKeepsTracks(c, ops[..|ops| - 1]);
    }
  }

  // ----- The theorem -----

  /** The frames of a whole byte stream: its units grouped one by one, each frame lasting `fd`. */
  function StreamFrames(stream: ByteString, fd: int): seq<VideoFrame> {
    Even(PushAll(Grouping([], NOTHING_OPEN), MakeUnits(AnnexB.Extract(stream).units)).frames, fd)
  }

  lemma BatchFrames(c: Config, stream: ByteString)
    requires c.frameDuration > 0
    ensures FeedOnce(c, START, stream).frames == StreamFrames(stream, c.frameDuration)
    ensures Shown(StreamFrames(stream, c.frameDuration))
  {
    assert START.remaining + stream == stream;
    var nalus := AnnexB.Extract(stream).units;
    FeedConsumes(c, START, stream);
    FramerProperties.PushAllOk(Grouping([], NOTHING_OPEN), MakeUnits(nalus));
    FramesShown(PushAll(Grouping([], NOTHING_OPEN), MakeUnits(nalus)), c.frameDuration);
  }

  lemma StartSettled()
    ensures Settled(START)
  {
    assert START.remaining[0..] == [];
  }

  /** Video only, at a fixed frame rate: for every byte stream and every partition of it into chunks, the
      NAL units that an ISO reader extracts from the dispatched fragments, up to the last feed, are those
      of types 1, 5, 7 and 8 of the complete frames of the stream, from the first frame on with which a
      sequence and a picture parameter set are known; in order, each once. The fragments abut in time. */
  lemma ReaderSeesStream(c: Config, ctl: Ctl, chunks: seq<ByteString>)
    requires Fresh(ctl) && ctl.video.Some? && ctl.audio.None? && c.frameDuration > 0
    requires Small(Run(ctl, FeedChunks(c, chunks).ops).events)
    ensures var frames := StreamFrames(Flatten(chunks), c.frameDuration);
            var r := ReadAll(NothingRead(ctl), Run(ctl, FeedChunks(c, chunks).ops).events);
            r.ok && r.abuts && r.nals == KeptUnits(frames[FirstReady(NO_PARAMS, frames)..])
  {
    var ops := FeedChunks(c, chunks).ops;
    var frames := StreamFrames(Flatten(chunks), c.frameDuration);
    ChunksAre(c, NothingAccepted(ctl), chunks);
    StartSettled();
    StreamingEqualsBatch(c, START, chunks);
    BatchFrames(c, Flatten(chunks));
    RunDrained(ctl, ops);
    MeaningPreserved(ctl, ops);
    NoAudioDrained(ctl, ops);
    AbutWithBytes(ctl, ops);
    AcceptedAre(NO_PARAMS, frames);
    NothingQueued(ReadAll(NothingRead(ctl), Run(ctl, ops).events).nals);
  }

  /** With a stream written by an Annex B encoder that pads no start code, the frames are made of the NAL
      units that were encoded, but for the last, which is still waiting for its end. */
  lemma ReaderSeesEncoded(c: Config, ctl: Ctl, us: seq<AnnexBEncoder.StreamUnit>, chunks: seq<ByteString>)
    requires Fresh(ctl) && ctl.video.Some? && ctl.audio.None? && c.frameDuration > 0
    requires us != [] && AnnexBEncoder.GoodStream(us) && AnnexBEncoder.Unpadded(us)
    requires Flatten(chunks) == AnnexBEncoder.Encode(us)
    requires Small(Run(ctl, FeedChunks(c, chunks).ops).events)
    ensures var g := PushAll(Grouping([], NOTHING_OPEN), MakeUnits(AnnexBEncoder.NalsButLast(us)));
            var frames := Even(g.frames, c.frameDuration);
            var r := ReadAll(NothingRead(ctl), Run(ctl, FeedChunks(c, chunks).ops).events);
            r.ok && r.abuts && r.nals == KeptUnits(frames[FirstReady(NO_PARAMS, frames)..])
  {
    AnnexBEncoder.EncodeRoundTrip(us);
    ReaderSeesStream(c, ctl, chunks);
  }

  // ----- Sync samples -----

  lemma {:induction false} ShapedMarked(frames: seq<VideoFrame>)
    requires FramerProperties.AllShaped(frames)
    ensures FramesMarked(frames)
    decreases |frames|
  {
    if frames != [] { ShapedMarked(frames[..|frames| - 1]); }
  }

  lemma FeedMarked(c: Config, s: State, chunk: ByteString)
    requires FramerProperties.OpenOk(s.pending)
    ensures var f := FeedOnce(c, s, chunk); FramerProperties.OpenOk(f.state.pending) && FramesMarked(f.frames)
  {
    FeedConsumes(c, s, chunk);
    ConsumeShaped(c, s, AnnexB.Extract(s.remaining + chunk).units);
    ShapedMarked(FeedOnce(c, s, chunk).frames);
  }

  lemma OpsMarkedSnoc(ops: seq<Op>, op: Op)
    requires OpsMarked(ops) && op.Remux? && FramesMarked(op.video)
    ensures OpsMarked(ops + [op])
  {
    assert (ops + [op])[..|ops|] == ops;
  }

  lemma {:induction false} ChunksMarked(c: Config, chunks: seq<ByteString>)
    ensures var f := FeedChunks(c, chunks); FramerProperties.OpenOk(f.state.pending) && OpsMarked(f.ops)
    decreases |chunks|
  {
    if chunks != [] {
      var front, last := chunks[..|chunks| - 1], chunks[|chunks| - 1];
      ChunksMarked(c, front);
      var before := FeedChunks(c, front);
      FeedMarked(c, before.state, last);
      OneFeed(c, before.state, last);
      var outcome := JMuxer.FeedResult(c, before.state, None, VideoInput(last)).outcome;
      if outcome.Passed? {
        OpsMarkedSnoc(before.ops, Remux(outcome.video, [], false));
      } else {
        assert before.ops + [] == before.ops;
      }
    }
  }

  /** In the same setting, a sample of a dispatched fragment is marked as a sync sample if and only if an
      IDR slice is among the NAL units read from it. */
  lemma SyncSamplesOfStream(c: Config, ctl: Ctl, chunks: seq<ByteString>)
    requires Fresh(ctl) && ctl.video.Some? && ctl.audio.None?
    requires Small(Run(ctl, FeedChunks(c, chunks).ops).events)
    ensures LogMarked(Run(ctl, FeedChunks(c, chunks).ops).events)
  {
    var ops := FeedChunks(c, chunks).ops;
    ChunksAre(c, NothingAccepted(ctl), chunks);
    RunDrained(ctl, ops);
    ChunksMarked(c, chunks);
    RunMarked(ctl, ops);
  }
}
