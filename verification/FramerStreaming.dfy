/** At a fixed frame rate the chunks in which a stream is fed make no difference. */
module FramerStreaming {
  import opened Bytes
  import opened Media
  import opened Framer
  import opened AnnexB
  import opened AnnexBProperties
  import opened FramerProperties

  // ----- The folds distribute over concatenation -----

  lemma {:induction false} MakeUnitsAppend(a: seq<ByteString>, b: seq<ByteString>)
    ensures MakeUnits(a + b) == MakeUnits(a) + MakeUnits(b)
    decreases |b|
  {
    if b == [] {
      assert a + b == a;
    } else {
      MakeUnitsAppend(a, b[..|b| - 1]);
      assert (a + b)[..|a + b| - 1] == a + b[..|b| - 1];
    }
  }

  lemma {:induction false} PushAllAppend(g: Grouping, a: seq<Nalu>, b: seq<Nalu>)
    ensures PushAll(g, a + b) == PushAll(PushAll(g, a), b)
    decreases |b|
  {
    if b == [] {
      assert a + b == a;
    } else {
      PushAllAppend(g, a, b[..|b| - 1]);
      assert (a + b)[..|a + b| - 1] == a + b[..|b| - 1];
    }
  }

  /** The frames found before do not matter for those found next. */
  lemma {:induction false} PushAllAfter(frames: seq<Group>, o: Open, us: seq<Nalu>)
    ensures var g := PushAll(Grouping([], o), us);
            PushAll(Grouping(frames, o), us) == Grouping(frames + g.frames, g.open)
    decreases |us|
  {
    if us == [] {
      assert frames + [] == frames;
    } else {
      PushAllAfter(frames, o, us[..|us| - 1]);
    }
  }

  lemma {:induction false} MarkAllAppend(m: Marks, a: seq<Group>, b: seq<Group>, fd: int, clearBuffer: bool)
    ensures MarkAll(m, a + b, fd, clearBuffer) == MarkAll(MarkAll(m, a, fd, clearBuffer), b, fd, clearBuffer)
    decreases |b|
  {
    if b == [] {
      assert a + b == a;
    } else {
      MarkAllAppend(m, a, b[..|b| - 1], fd, clearBuffer);
      assert (a + b)[..|a + b| - 1] == a + b[..|b| - 1];
    }
  }

  lemma {:induction false} EvenSpread(n: nat, fd: int, k: nat)
    requires k < n
    ensures Spread(n, fd, 0)[k] == fd
    decreases n
  {
    if k > 0 { EvenSpread(n - 1, fd, k - 1); }
  }

  /** Frames of one fixed duration each. */
  function Even(groups: seq<Group>, fd: int): (fs: seq<VideoFrame>) {
    if groups == [] then [] else
      var last := groups[|groups| - 1];
      Even(groups[..|groups| - 1], fd) + [VideoFrame(last.units, last.keyFrame, fd)]
  }

  lemma {:induction false} TimedEvenly(groups: seq<Group>, ds: seq<int>, fd: int)
    requires |ds| == |groups| && forall k :: 0 <= k < |ds| ==> ds[k] == fd
    ensures Timed(groups, ds) == Even(groups, fd)
    decreases |groups|
  {
    if groups != [] { TimedEvenly(groups[..|groups| - 1], ds[..|groups| - 1], fd); }
  }

  lemma FixedRate(groups: seq<Group>, fd: int)
    ensures Timed(groups, FrameDurations(0, |groups|, fd)) == Even(groups, fd)
  {
    forall k | 0 <= k < |groups|
      ensures Spread(|groups|, fd, 0)[k] == fd
    {
      EvenSpread(|groups|, fd, k);
    }
    TimedEvenly(groups, Spread(|groups|, fd, 0), fd);
  }

  lemma {:induction false} EvenAppend(a: seq<Group>, b: seq<Group>, fd: int)
    ensures Even(a + b, fd) == Even(a, fd) + Even(b, fd)
    decreases |b|
  {
    if b == [] {
      assert a + b == a;
    } else {
      EvenAppend(a, b[..|b| - 1], fd);
      assert (a + b)[..|a + b| - 1] == a + b[..|b| - 1];
    }
  }

  // ----- Streaming equals batch -----

  /** The state and all frames passed on so far. */
  datatype Collected = Collected(state: State, frames: seq<VideoFrame>)

  /** One feed without a duration. */
  function FeedOnce(c: Config, s: State, data: ByteString): Collected {
    var fed := FeedVideo(c, s, data, 0);
    Collected(fed.state, if fed.frames.Some? then fed.frames.value else [])
  }

  function FeedAll(c: Config, s: State, chunks: seq<ByteString>): Collected
    decreases |chunks|
  {
    if chunks == [] then Collected(s, []) else
      var before := FeedAll(c, s, chunks[..|chunks| - 1]);
      var last := FeedOnce(c, before.state, chunks[|chunks| - 1]);
      Collected(last.state, before.frames + last.frames)
  }

  /** What a list of complete units adds to the state. */
  function Consume(c: Config, s: State, nalus: seq<ByteString>): Collected {
    var g := PushAll(Grouping([], s.pending), MakeUnits(nalus));
    Collected(State(s.remaining, g.open, MarkAll(s.marks, g.frames, c.frameDuration, c.clearBuffer)),
              Even(g.frames, c.frameDuration))
  }

  lemma FeedConsumes(c: Config, s: State, data: ByteString)
    ensures var split, r := Extract(s.remaining + data), Consume(c, s, Extract(s.remaining + data).units);
            FeedOnce(c, s, data) == Collected(r.state.(remaining := split.left), r.frames)
  {
    var g := PushAll(Grouping([], s.pending), MakeUnits(Extract(s.remaining + data).units));
    FixedRate(g.frames, c.frameDuration);
  }

  lemma ConsumeAppend(c: Config, s: State, left: ByteString, a: seq<ByteString>, b: seq<ByteString>)
    ensures var first := Consume(c, s, a);
            var second := Consume(c, first.state.(remaining := left), b);
            Consume(c, s, a + b) == Collected(second.state.(remaining := s.remaining), first.frames + second.frames)
  {
    var start := Grouping([], s.pending);
    var g := PushAll(start, MakeUnits(a));
    var h := PushAll(Grouping([], g.open), MakeUnits(b));
    MakeUnitsAppend(a, b);
    PushAllAppend(start, MakeUnits(a), MakeUnits(b));
    PushAllAfter(g.frames, g.open, MakeUnits(b));
    MarkAllAppend(s.marks, g.frames, h.frames, c.frameDuration, c.clearBuffer);
    EvenAppend(g.frames, h.frames, c.frameDuration);
  }

  lemma BytesRegroup(x: ByteString, a: ByteString, b: ByteString)
    ensures x + (a + b) == (x + a) + b
  {
  }

  lemma FeedTwice(c: Config, s: State, a: ByteString, b: ByteString)
    ensures var first := FeedOnce(c, s, a);
            var second := FeedOnce(c, first.state, b);
            FeedOnce(c, s, a + b) == Collected(second.state, first.frames + second.frames)
  {
    BytesRegroup(s.remaining, a, b);
    ExtractAppend(s.remaining + a, b);
    var one := Extract(s.remaining + a);
    FeedConsumes(c, s, a);
    FeedConsumes(c, FeedOnce(c, s, a).state, b);
    FeedConsumes(c, s, a + b);
    ConsumeAppend(c, s, one.left, one.units, Extract(one.left + b).units);
  }

  /** No complete unit waits in the rest of the stream, as it is at the start and after every feed. */
  predicate Settled(s: State) {
    Extract(s.remaining) == Split([], s.remaining)
  }

  lemma StaysSettled(c: Config, s: State, data: ByteString)
    ensures Settled(FeedOnce(c, s, data).state)
  {
    FeedConsumes(c, s, data);
    ExtractLeft(s.remaining + data);
  }

  lemma NothingFed(c: Config, s: State)
    requires Settled(s)
    ensures FeedOnce(c, s, []) == Collected(s, [])
  {
    assert s.remaining + [] == s.remaining;
  }

  /** For every byte stream and every partition of it into chunks, at a fixed frame rate: the frames passed
      on and the final `remainingData`, `pendingUnits`, `kfCounter` and `kfPosition` are those of one feed
      of the whole stream. */
  lemma {:induction false} StreamingEqualsBatch(c: Config, s: State, chunks: seq<ByteString>)
    requires Settled(s)
    ensures FeedAll(c, s, chunks) == FeedOnce(c, s, Flatten(chunks))
    ensures Settled(FeedAll(c, s, chunks).state)
    decreases |chunks|
  {
    if chunks == [] {
      NothingFed(c, s);
    } else {
      var front, last := chunks[..|chunks| - 1], chunks[|chunks| - 1];
      StreamingEqualsBatch(c, s, front);
      FeedTwice(c, s, Flatten(front), last);
      StaysSettled(c, FeedAll(c, s, front).state, last);
      FlattenLast(chunks);
    }
  }

  lemma FlattenLast(chunks: seq<ByteString>)
    requires chunks != []
    ensures Flatten(chunks) == Flatten(chunks[..|chunks| - 1]) + chunks[|chunks| - 1]
  {
    var front, last := chunks[..|chunks| - 1], chunks[|chunks| - 1];
    assert chunks == front + [last];
    FlattenAppend(front, [last]);
    FlattenOne(last);
  }

  // ----- The frames of a run -----

  lemma {:induction false} EvenShaped(g: Grouping, fd: int)
    requires WellGrouped(g)
    ensures AllShaped(Even(g.frames, fd)) && FrameUnits(Even(g.frames, fd)) == UnitsIn(g.frames)
    decreases |g.frames|
  {
    var n := |g.frames|;
    if n > 0 { EvenShaped(Grouping(g.frames[..n - 1], AsOpen(g.frames[n - 1])), fd); }
  }

  lemma ConsumeShaped(c: Config, s: State, nalus: seq<ByteString>)
    requires OpenOk(s.pending)
    ensures var r := Consume(c, s, nalus);
            && AllShaped(r.frames) && OpenOk(r.state.pending)
            && FrameUnits(r.frames) + r.state.pending.units == s.pending.units + MakeUnits(nalus)
  {
    FixedRateFrames(s, nalus);
    EvenShaped(PushAll(Grouping([], s.pending), MakeUnits(nalus)), c.frameDuration);
  }

  /** Across any sequence of feeds at a fixed frame rate: the units of all frames passed on, followed by
      the pending ones, are the units of the whole stream, in order, and every frame has the shape. */
  lemma FramesOfStream(c: Config, s: State, chunks: seq<ByteString>)
    requires Settled(s) && OpenOk(s.pending)
    ensures var r := FeedAll(c, s, chunks);
            && AllShaped(r.frames) && OpenOk(r.state.pending)
            && FrameUnits(r.frames) + r.state.pending.units ==
               s.pending.units + MakeUnits(Extract(s.remaining + Flatten(chunks)).units)
  {
    StreamingEqualsBatch(c, s, chunks);
    FeedConsumes(c, s, Flatten(chunks));
    ConsumeShaped(c, s, Extract(s.remaining + Flatten(chunks)).units);
  }

  // ----- Feeds with and without a duration -----

  datatype Chunk = Chunk(data: ByteString, duration: int)

  function Datas(chunks: seq<Chunk>): (ds: seq<ByteString>)
    ensures |ds| == |chunks|
  {
    if chunks == [] then [] else Datas(chunks[..|chunks| - 1]) + [chunks[|chunks| - 1].data]
  }

  /** The state and all frames after a list of feeds; `failed` once one of them has thrown. */
  datatype Mixed = Mixed(state: State, frames: seq<VideoFrame>, failed: bool)

  function FeedMixed(c: Config, s: State, chunks: seq<Chunk>): Mixed
    decreases |chunks|
  {
    if chunks == [] then Mixed(s, [], false) else
      var before := FeedMixed(c, s, chunks[..|chunks| - 1]);
      var last := chunks[|chunks| - 1];
      var fed := FeedVideo(c, before.state, last.data, last.duration);
      Mixed(fed.state, if fed.frames.Some? then before.frames + fed.frames.value else before.frames,
            before.failed || fed.failed)
  }

  /** One feed that does not fail. */
  lemma FeedConserves(c: Config, s: State, chunk: Chunk)
    requires OpenOk(s.pending)
    ensures var split, fed := Extract(s.remaining + chunk.data), FeedVideo(c, s, chunk.data, chunk.duration);
            !fed.failed ==>
              && fed.state.remaining == split.left && OpenOk(fed.state.pending)
              && FrameUnits(if fed.frames.Some? then fed.frames.value else []) + fed.state.pending.units ==
                 s.pending.units + MakeUnits(split.units)
  {
    var units := Extract(s.remaining + chunk.data).units;
    if units == [] {
      assert FrameUnits([]) + s.pending.units == s.pending.units == s.pending.units + MakeUnits(units);
    } else if chunk.duration == 0 {
      FeedConsumes(c, s, chunk.data);
      ConsumeShaped(c, s, units);
    } else {
      TimedCall(c, s, units, chunk.duration);
      AllPassed(s.pending.units + MakeUnits(units));
    }
  }

  /** A feed fails exactly when it has a duration and completes units, but neither those nor the pending ones
      hold a slice. It loses both and the bytes of the chunk, and leaves everything else as it was. */
  lemma FailedFeed(c: Config, s: State, chunk: Chunk)
    requires OpenOk(s.pending)
    ensures var units := Extract(s.remaining + chunk.data).units;
            var fed := FeedVideo(c, s, chunk.data, chunk.duration);
            && (fed.failed <==> chunk.duration != 0 && units != [] && !AnySlice(s.pending.units + MakeUnits(units)))
            && (fed.failed ==> fed.frames.None? && fed.state == s.(pending := NOTHING_OPEN))
  {
    var units := Extract(s.remaining + chunk.data).units;
    if units != [] && chunk.duration != 0 { TimedCall(c, s, units, chunk.duration); }
  }

  lemma AllPassed(us: seq<Nalu>)
    ensures us + NOTHING_OPEN.units == us && OpenOk(NOTHING_OPEN)
  {
  }

  lemma {:induction false} FrameUnitsAppend(a: seq<VideoFrame>, b: seq<VideoFrame>)
    ensures FrameUnits(a + b) == FrameUnits(a) + FrameUnits(b)
    decreases |b|
  {
    if b == [] {
      assert a + b == a;
      assert FrameUnits(a) + [] == FrameUnits(a);
    } else {
      FrameUnitsAppend(a, b[..|b| - 1]);
      assert (a + b)[..|a + b| - 1] == a + b[..|b| - 1];
      UnitsRegroup(FrameUnits(a), FrameUnits(b[..|b| - 1]), b[|b| - 1].units);
    }
  }

  lemma UnitsRegroup(a: seq<Nalu>, b: seq<Nalu>, c: seq<Nalu>)
    ensures (a + b) + c == a + (b + c)
  {
  }

  /** What one more feed adds to an account that balances. */
  lemma Balances(out: seq<Nalu>, pending: seq<Nalu>, all: seq<Nalu>, more: seq<Nalu>, next: seq<Nalu>, units: seq<Nalu>)
    requires out + pending == all && more + next == pending + units
    ensures (out + more) + next == all + units
  {
    UnitsRegroup(out, more, next);
    UnitsRegroup(out, pending, units);
  }

  /** Across any sequence of feeds, with and without a duration, none of which fails: the units of all frames
      passed on, followed by the pending ones, are the units of the stream, in order. */
  lemma {:induction false} MixedFeedsConserve(c: Config, s: State, chunks: seq<Chunk>)
    requires Settled(s) && OpenOk(s.pending) && !FeedMixed(c, s, chunks).failed
    ensures var r, split := FeedMixed(c, s, chunks), Extract(s.remaining + Flatten(Datas(chunks)));
            && r.state.remaining == split.left && OpenOk(r.state.pending)
            && FrameUnits(r.frames) + r.state.pending.units == s.pending.units + MakeUnits(split.units)
    decreases |chunks|, 1
  {
    if chunks == [] {
      assert s.remaining + [] == s.remaining;
      assert FrameUnits([]) + s.pending.units == s.pending.units == s.pending.units + MakeUnits([]);
    } else {
      MixedStep(c, s, chunks);
    }
  }

  lemma {:induction false} MixedStep(c: Config, s: State, chunks: seq<Chunk>)
    requires Settled(s) && OpenOk(s.pending) && chunks != [] && !FeedMixed(c, s, chunks).failed
    ensures var r, split := FeedMixed(c, s, chunks), Extract(s.remaining + Flatten(Datas(chunks)));
            && r.state.remaining == split.left && OpenOk(r.state.pending)
            && FrameUnits(r.frames) + r.state.pending.units == s.pending.units + MakeUnits(split.units)
    decreases |chunks|, 0
  {
    var front, last := chunks[..|chunks| - 1], chunks[|chunks| - 1];
    MixedFeedsConserve(c, s, front);
    var before := FeedMixed(c, s, front);
    var first := Extract(s.remaining + Flatten(Datas(front)));
    var second := Extract(first.left + last.data);
    var fed := FeedVideo(c, before.state, last.data, last.duration);
    var more := if fed.frames.Some? then fed.frames.value else [];
    FeedConserves(c, before.state, last);
    StreamGrows(s.remaining, Datas(front), last.data);
    MakeUnitsAppend(first.units, second.units);
    FrameUnitsAppend(before.frames, more);
    assert before.frames + [] == before.frames;
    Balances(FrameUnits(before.frames), before.state.pending.units, s.pending.units + MakeUnits(first.units),
             FrameUnits(more), fed.state.pending.units, MakeUnits(second.units));
    UnitsRegroup(s.pending.units, MakeUnits(first.units), MakeUnits(second.units));
  }

  lemma StreamGrows(start: ByteString, datas: seq<ByteString>, data: ByteString)
    ensures var first := Extract(start + Flatten(datas));
            Extract(start + Flatten(datas + [data])) == Prepend(first.units, Extract(first.left + data))
  {
    FlattenAppend(datas, [data]);
    FlattenOne(data);
    BytesRegroup(start, Flatten(datas), data);
    ExtractAppend(start + Flatten(datas), data);
  }
}
