/** Over runs of feeds and cleanups: what the keyframe positions are, and that a cleanup spares all that is needed
    to decode from the playback position on. */
module CleanupRuns {
  import opened Bytes
  import opened Media
  import opened Framer
  import opened FramerProperties
  import opened FramerStreaming
  import opened Cleanup
  import AnnexB

  // ----- Times of keyframes -----

  /** The times, in seconds, of the frames that have an IDR unit: frames last `fd` milliseconds each, and the
      k-th one is given the time at which it ends. */
  function KeyTimes(frames: seq<VideoFrame>, fd: int): seq<real> {
    if frames == [] then [] else
      var last := frames[|frames| - 1];
      KeyTimes(frames[..|frames| - 1], fd) + if HasIdr(last.units) then [(|frames| * fd) as real / 1000.0] else []
  }

  lemma KeyTimesSnoc(frames: seq<VideoFrame>, frame: VideoFrame, fd: int)
    ensures KeyTimes(frames + [frame], fd) ==
            KeyTimes(frames, fd) + if HasIdr(frame.units) then [((|frames| + 1) * fd) as real / 1000.0] else []
  {
    assert (frames + [frame])[..|frames|] == frames;
  }

  lemma Later(a: nat, b: nat, fd: int)
    requires a < b && fd > 0
    ensures 0.0 <= (a * fd) as real / 1000.0 < (b * fd) as real / 1000.0
  {
    assert b * fd == a * fd + (b - a) * fd;
    Products(a, fd);
    Products(b - a, fd);
    Thousandths(a * fd, b * fd, (b - a) * fd);
  }

  lemma Products(a: nat, fd: int)
    requires fd > 0
    ensures a * fd >= 0 && (a > 0 ==> a * fd > 0)
  {
  }

  lemma Thousandths(x: int, y: int, d: int)
    requires 0 <= x && d > 0 && y == x + d
    ensures 0.0 <= x as real / 1000.0 < y as real / 1000.0
  {
  }

  lemma SnocIncreases(times: seq<real>, last: real, time: real)
    requires Increasing(times) && (times != [] ==> times[|times| - 1] <= last) && last < time
    ensures Increasing(times + [time])
  {
    var more := times + [time];
    assert more[..|more| - 1] == times;
    if times != [] { assert more[|more| - 2] == times[|times| - 1] < time == more[|more| - 1]; }
  }

  lemma SnocPositive(times: seq<real>, time: real)
    requires AllPositive(times) && time > 0.0
    ensures AllPositive(times + [time])
  {
    assert (times + [time])[..|times|] == times;
  }

  lemma StepIncreases(times: seq<real>, isKey: bool, last: real, time: real)
    requires Increasing(times) && AllPositive(times) && (times != [] ==> times[|times| - 1] <= last)
    requires 0.0 <= last < time
    ensures var more := times + if isKey then [time] else [];
            Increasing(more) && AllPositive(more) && (more != [] ==> more[|more| - 1] <= time)
  {
    if isKey {
      SnocIncreases(times, last, time);
      SnocPositive(times, time);
    } else {
      assert times + [] == times;
    }
  }

  lemma {:induction false} KeyTimesIncrease(frames: seq<VideoFrame>, fd: int)
    requires fd > 0
    ensures var keys := KeyTimes(frames, fd);
            && Increasing(keys) && AllPositive(keys)
            && (keys != [] ==> keys[|keys| - 1] <= (|frames| * fd) as real / 1000.0)
    decreases |frames|
  {
    if frames != [] {
      var front := frames[..|frames| - 1];
      KeyTimesIncrease(front, fd);
      Later(|front|, |frames|, fd);
      StepIncreases(KeyTimes(front, fd), HasIdr(frames[|front|].units), (|front| * fd) as real / 1000.0,
                    (|frames| * fd) as real / 1000.0);
    }
  }

  // ----- What framing records -----

  /** The frames so far have been counted, and the times of the keyframes among them recorded but for the
      first `d`; nothing is recorded if the buffer is not to be cleared. */
  predicate Recorded(m: Marks, frames: seq<VideoFrame>, c: Config, d: nat) {
    && m.counter == |frames| && d <= |KeyTimes(frames, c.frameDuration)|
    && m.positions == if c.clearBuffer then KeyTimes(frames, c.frameDuration)[d..] else []
  }

  lemma RecordOne(m: Marks, frames: seq<VideoFrame>, c: Config, d: nat, g: Group)
    requires Recorded(m, frames, c, d) && g.keyFrame == HasIdr(g.units)
    ensures Recorded(Mark(m, g, c.frameDuration, c.clearBuffer),
                     frames + [VideoFrame(g.units, g.keyFrame, c.frameDuration)], c, d)
  {
    var frame := VideoFrame(g.units, g.keyFrame, c.frameDuration);
    KeyTimesSnoc(frames, frame, c.frameDuration);
    DropSnoc(KeyTimes(frames, c.frameDuration), KeyTimes(frames + [frame], c.frameDuration), d, g.keyFrame,
             Position(m.counter + 1, c.frameDuration));
  }

  lemma DropSnoc(keys: seq<real>, more: seq<real>, d: nat, isKey: bool, time: real)
    requires d <= |keys| && more == keys + if isKey then [time] else []
    ensures d <= |more| && more[d..] == if isKey then keys[d..] + [time] else keys[d..]
  {
  }

  lemma {:induction false} RecordAll(m: Marks, frames: seq<VideoFrame>, c: Config, d: nat, groups: seq<Group>)
    requires Recorded(m, frames, c, d) && AllShaped(Even(groups, c.frameDuration))
    ensures Recorded(MarkAll(m, groups, c.frameDuration, c.clearBuffer), frames + Even(groups, c.frameDuration), c, d)
    decreases |groups|
  {
    if groups == [] {
      assert frames + [] == frames;
    } else {
      var front, last := groups[..|groups| - 1], groups[|groups| - 1];
      RecordAll(m, frames, c, d, front);
      RecordOne(MarkAll(m, front, c.frameDuration, c.clearBuffer), frames + Even(front, c.frameDuration), c, d, last);
      FramesRegroup(frames, Even(front, c.frameDuration), [VideoFrame(last.units, last.keyFrame, c.frameDuration)]);
    }
  }

  lemma FramesRegroup(a: seq<VideoFrame>, b: seq<VideoFrame>, c: seq<VideoFrame>)
    ensures (a + b) + c == a + (b + c)
  {
  }

  lemma FeedRecords(c: Config, s: State, frames: seq<VideoFrame>, d: nat, data: ByteString)
    requires OpenOk(s.pending) && Recorded(s.marks, frames, c, d)
    ensures var r := FeedOnce(c, s, data);
            OpenOk(r.state.pending) && Recorded(r.state.marks, frames + r.frames, c, d)
  {
    var units := AnnexB.Extract(s.remaining + data).units;
    var g := PushAll(Grouping([], s.pending), MakeUnits(units));
    FeedConsumes(c, s, data);
    ConsumeShaped(c, s, units);
    RecordAll(s.marks, frames, c, d, g.frames);
  }

  /** After any feeds without a duration, from the start: `kfCounter` is the number of frames passed on, and
      `kfPosition` holds the time of every one of them that has an IDR unit, and nothing else; or nothing at
      all without `clearBuffer`. */
  lemma {:induction false} FeedsRecord(c: Config, chunks: seq<ByteString>)
    ensures var r := FeedAll(c, START, chunks);
            && OpenOk(r.state.pending) && Recorded(r.state.marks, r.frames, c, 0)
    decreases |chunks|
  {
    if chunks == [] {
      assert Recorded(START.marks, [], c, 0);
    } else {
      var before := FeedAll(c, START, chunks[..|chunks| - 1]);
      FeedsRecord(c, chunks[..|chunks| - 1]);
      FeedRecords(c, before.state, before.frames, 0, chunks[|chunks| - 1]);
    }
  }

  // ----- Calls with a duration -----

  /** The same behind `start` frames. */
  function TimesFrom(start: int, frames: seq<VideoFrame>, fd: int): seq<real> {
    if frames == [] then [] else
      var last := frames[|frames| - 1];
      TimesFrom(start, frames[..|frames| - 1], fd) +
      if HasIdr(last.units) then [((start + |frames|) * fd) as real / 1000.0] else []
  }

  predicate AllKeyed(frames: seq<VideoFrame>) {
    frames == [] ||
    (frames[|frames| - 1].keyFrame == HasIdr(frames[|frames| - 1].units) && AllKeyed(frames[..|frames| - 1]))
  }

  lemma {:induction false} ShapedKeyed(frames: seq<VideoFrame>)
    requires AllShaped(frames)
    ensures AllKeyed(frames)
    decreases |frames|
  {
    if frames != [] { ShapedKeyed(frames[..|frames| - 1]); }
  }

  lemma PositionFrom(m: Marks, g: Group, fd: int, clearBuffer: bool, before: seq<real>, start: int, n: nat)
    requires m == Marks(start + n, before)
    ensures Mark(m, g, fd, clearBuffer) ==
            Marks(start + (n + 1),
                  before + if g.keyFrame && clearBuffer then [((start + (n + 1)) * fd) as real / 1000.0] else [])
  {
    assert before + [] == before;
  }

  lemma RealsRegroup(a: seq<real>, b: seq<real>, c: seq<real>)
    ensures (a + b) + c == a + (b + c)
  {
  }

  lemma TimesSnoc(start: int, groups: seq<Group>, ds: seq<int>, fd: int)
    requires |ds| == |groups| > 0 && AllKeyed(Timed(groups, ds))
    ensures var n := |groups| - 1;
            && AllKeyed(Timed(groups[..n], ds[..n]))
            && TimesFrom(start, Timed(groups, ds), fd) ==
               TimesFrom(start, Timed(groups[..n], ds[..n]), fd)
               + if groups[n].keyFrame then [((start + (n + 1)) * fd) as real / 1000.0] else []
  {
    var n := |groups| - 1;
    assert Timed(groups, ds)[..n] == Timed(groups[..n], ds[..n]);
  }

  lemma {:induction false} MarksFrom(m: Marks, groups: seq<Group>, ds: seq<int>, fd: int, clearBuffer: bool)
    requires |ds| == |groups| && AllKeyed(Timed(groups, ds))
    ensures MarkAll(m, groups, fd, clearBuffer) ==
            Marks(m.counter + |groups|,
                  m.positions + if clearBuffer then TimesFrom(m.counter, Timed(groups, ds), fd) else [])
    decreases |groups|
  {
    if groups == [] {
      assert m.positions + [] == m.positions;
    } else {
      var n := |groups| - 1;
      TimesSnoc(m.counter, groups, ds, fd);
      MarksFrom(m, groups[..n], ds[..n], fd, clearBuffer);
      var front := if clearBuffer then TimesFrom(m.counter, Timed(groups[..n], ds[..n]), fd) else [];
      MarkedNext(m, MarkAll(m, groups[..n], fd, clearBuffer), groups[n], fd, clearBuffer, front, n,
                 if clearBuffer then TimesFrom(m.counter, Timed(groups, ds), fd) else []);
    }
  }

  lemma MarkedNext(m: Marks, before: Marks, g: Group, fd: int, clearBuffer: bool, front: seq<real>, n: nat,
                   all: seq<real>)
    requires before == Marks(m.counter + n, m.positions + front)
    requires all == front + if g.keyFrame && clearBuffer then [((m.counter + (n + 1)) * fd) as real / 1000.0] else []
    ensures Mark(before, g, fd, clearBuffer) == Marks(m.counter + (n + 1), m.positions + all)
  {
    PositionFrom(before, g, fd, clearBuffer, m.positions + front, m.counter, n);
    RealsRegroup(m.positions, front, if g.keyFrame && clearBuffer
                                     then [((m.counter + (n + 1)) * fd) as real / 1000.0] else []);
  }

  /** A call with a duration counts its frames too, and records for each with an IDR unit the number of frames so
      far times the share of this chunk. That is the time of the frame only if all have had that share. */
  lemma TimedMarks(c: Config, s: State, nalus: seq<ByteString>, duration: int) returns (frames: seq<VideoFrame>)
    requires OpenOk(s.pending) && nalus != [] && duration != 0
    requires AnySlice(s.pending.units + MakeUnits(nalus))
    ensures frames != [] && GetVideoFrames(c, s, nalus, duration).frames == Some(frames)
    ensures GetVideoFrames(c, s, nalus, duration).state.marks ==
            Marks(s.marks.counter + |frames|,
                  s.marks.positions +
                  if c.clearBuffer then TimesFrom(s.marks.counter, frames, ToInt32(TruncDiv(duration, |frames|)))
                  else [])
  {
    var g := PushAll(Grouping([], s.pending), MakeUnits(nalus));
    frames := TimedFrames(c, s, nalus, duration);
    ShapedKeyed(frames[..|frames| - 1]);
    CallTimes(c, s, nalus, duration, g);
    var groups := Close(g).value;
    var ds := FrameDurations(duration, |groups|, c.frameDuration);
    assert frames == Timed(groups, ds);
    MarksFrom(s.marks, groups, ds, Share(duration, |groups|, c.frameDuration), c.clearBuffer);
    PushedSome(Grouping([], s.pending), MakeUnits(nalus));
  }

  // ----- Runs of feeds and cleanups -----

  /** A chunk without a duration, or a cleanup at a playback position. */
  datatype Op = Feed(data: ByteString) | Clean(offset: real)

  function Step(c: Config, s: State, op: Op): State {
    match op
    case Feed(data) => FeedOnce(c, s, data).state
    case Clean(offset) =>
      s.(marks := s.marks.(positions := SafeClearOffset(s.marks.positions, offset, false).positions))
  }

  function Run(c: Config, ops: seq<Op>): State
    decreases |ops|
  {
    if ops == [] then START else Step(c, Run(c, ops[..|ops| - 1]), ops[|ops| - 1])
  }

  function Fed(ops: seq<Op>): seq<ByteString> {
    if ops == [] then [] else
      Fed(ops[..|ops| - 1]) + if ops[|ops| - 1].Feed? then [ops[|ops| - 1].data] else []
  }

  /** The frames passed on, whatever has been cleaned up in between. */
  function FramesOf(c: Config, ops: seq<Op>): seq<VideoFrame> {
    FeedAll(c, START, Fed(ops)).frames
  }

  function KeysOf(c: Config, ops: seq<Op>): seq<real> {
    KeyTimes(FramesOf(c, ops), c.frameDuration)
  }

  /** How many of the times lie before an offset. */
  function Before(times: seq<real>, offset: real): (n: nat)
    ensures n <= |times|
  {
    if times == [] then 0
    else Before(times[..|times| - 1], offset) + if times[|times| - 1] < offset then 1 else 0
  }

  /** How many keyframes have been given up after a cleanup: all before the last one that precedes the offset. */
  function DroppedBy(keys: seq<real>, d: nat, offset: real): nat {
    if Before(keys, offset) > d then Before(keys, offset) - 1 else d
  }

  function Dropped(c: Config, ops: seq<Op>): nat {
    if ops == [] then 0 else
      var front, op := ops[..|ops| - 1], ops[|ops| - 1];
      if op.Clean? then DroppedBy(KeysOf(c, front), Dropped(c, front), op.offset) else Dropped(c, front)
  }

  lemma FedSnoc(c: Config, ops: seq<Op>, data: ByteString)
    ensures var before := FeedAll(c, START, Fed(ops));
            var more := FeedOnce(c, before.state, data);
            FeedAll(c, START, Fed(ops + [Feed(data)])) == Collected(more.state, before.frames + more.frames)
  {
    assert (ops + [Feed(data)])[..|ops|] == ops;
    assert (Fed(ops) + [data])[..|Fed(ops)|] == Fed(ops);
  }

  lemma FedRest(ops: seq<Op>, offset: real)
    ensures Fed(ops + [Clean(offset)]) == Fed(ops)
  {
    assert (ops + [Clean(offset)])[..|ops|] == ops;
    assert Fed(ops) + [] == Fed(ops);
  }

  lemma RunSnoc(c: Config, ops: seq<Op>, op: Op)
    ensures Run(c, ops + [op]) == Step(c, Run(c, ops), op)
    ensures Dropped(c, ops + [op]) ==
            if op.Clean? then DroppedBy(KeysOf(c, ops), Dropped(c, ops), op.offset) else Dropped(c, ops)
    ensures op.Clean? ==> KeysOf(c, ops + [op]) == KeysOf(c, ops)
  {
    assert (ops + [op])[..|ops|] == ops;
    if op.Clean? { FedRest(ops, op.offset); }
  }

  /** The frames do not depend on the marks. */
  lemma SameFeed(c: Config, s: State, t: State, data: ByteString)
    requires t == s.(marks := t.marks)
    ensures FeedOnce(c, t, data).frames == FeedOnce(c, s, data).frames
    ensures FeedOnce(c, t, data).state == FeedOnce(c, s, data).state.(marks := FeedOnce(c, t, data).state.marks)
  {
    FeedConsumes(c, s, data);
    FeedConsumes(c, t, data);
  }

  lemma {:induction false} BeforeAt(times: seq<real>, offset: real, j: nat)
    requires Increasing(times) && j < |times|
    ensures times[j] < offset <==> j < Before(times, offset)
    decreases |times|
  {
    var n := |times| - 1;
    if j < n {
      BeforeAt(times[..n], offset, j);
      IncreasingAt(times, j, n);
    } else if n > 0 {
      BeforeAt(times[..n], offset, n - 1);
    }
  }

  /** The loop over the positions that are left counts those of them before the offset. */
  lemma PassedIsBefore(times: seq<real>, d: nat, offset: real)
    requires Increasing(times) && AllPositive(times) && d <= |times|
    ensures var n, m := Passed(times[d..], offset), Before(times, offset);
            if m > d then n == m - d else n == 0
  {
    var n := Passed(times[d..], offset);
    SuffixIncreasing(times, d);
    PassedBounds(times[d..], offset);
    if n > 0 { BeforeAt(times, offset, d + n - 1); }
    if d + n < |times| { BeforeAt(times, offset, d + n); }
  }

  lemma SuffixAt(keys: seq<real>, d: nat, n: nat)
    requires 0 < n && d + n <= |keys|
    ensures keys[d..][n - 1..] == keys[d + n - 1..] && (n > 1 ==> keys[d..][n - 2] == keys[d + n - 2])
  {
  }

  lemma KeysLeft(keys: seq<real>, d: nat, offset: real, n: nat)
    requires Increasing(keys) && AllPositive(keys) && d <= |keys| && n == Passed(keys[d..], offset)
    ensures SafeClearOffset(keys[d..], offset, false) ==
            if n > 0 then Safe(if n > 1 then keys[d + n - 2] else 0.0, keys[d + n - 1..]) else Safe(0.0, keys[d..])
  {
    var rest := keys[d..];
    SuffixIncreasing(keys, d);
    if n > 0 {
      SafeSome(rest, offset, false, n);
      SuffixAt(keys, d, n);
    }
  }

  /** What a cleanup makes of the keyframes that are left: the limit, and which are kept. */
  lemma KeysSafe(keys: seq<real>, d: nat, offset: real)
    requires Increasing(keys) && AllPositive(keys) && d <= |keys|
    ensures DroppedBy(keys, d, offset) <= |keys|
    ensures SafeClearOffset(keys[d..], offset, false) ==
            Safe(if Before(keys, offset) >= d + 2 then keys[Before(keys, offset) - 2] else 0.0,
                 keys[DroppedBy(keys, d, offset)..])
  {
    var n, m := Passed(keys[d..], offset), Before(keys, offset);
    PassedIsBefore(keys, d, offset);
    KeysLeft(keys, d, offset, n);
    if m > d {
      assert d + n == m && (m >= d + 2 <==> n > 1) && DroppedBy(keys, d, offset) == d + n - 1;
    } else {
      assert n == 0 && DroppedBy(keys, d, offset) == d;
    }
  }

  lemma CleanDrops(c: Config, s: State, frames: seq<VideoFrame>, d: nat, offset: real)
    requires Recorded(s.marks, frames, c, d) && c.clearBuffer && c.frameDuration > 0
    ensures Recorded(Step(c, s, Clean(offset)).marks, frames, c,
                     DroppedBy(KeyTimes(frames, c.frameDuration), d, offset))
  {
    KeyTimesIncrease(frames, c.frameDuration);
    KeysSafe(KeyTimes(frames, c.frameDuration), d, offset);
  }

  /** The state after a run: that of the feeds alone, but for the marks, which hold the times of the keyframes
      among all frames passed on, less those given up. */
  predicate Kept(c: Config, ops: seq<Op>) {
    var s := Run(c, ops);
    && s == FeedAll(c, START, Fed(ops)).state.(marks := s.marks) && OpenOk(s.pending)
    && Dropped(c, ops) <= |KeysOf(c, ops)|
    && s.marks == Marks(|FramesOf(c, ops)|, KeysOf(c, ops)[Dropped(c, ops)..])
  }

  lemma FeedKept(c: Config, ops: seq<Op>, data: ByteString)
    requires c.clearBuffer && Kept(c, ops)
    ensures Kept(c, ops + [Feed(data)])
  {
    RunSnoc(c, ops, Feed(data));
    FedSnoc(c, ops, data);
    SameFeed(c, FeedAll(c, START, Fed(ops)).state, Run(c, ops), data);
    FeedRecords(c, Run(c, ops), FramesOf(c, ops), Dropped(c, ops), data);
  }

  lemma CleanKept(c: Config, ops: seq<Op>, offset: real)
    requires c.clearBuffer && c.frameDuration > 0 && Kept(c, ops)
    ensures Kept(c, ops + [Clean(offset)])
  {
    RunSnoc(c, ops, Clean(offset));
    FedRest(ops, offset);
    CleanDrops(c, Run(c, ops), FramesOf(c, ops), Dropped(c, ops), offset);
  }

  /** Over every run of feeds and cleanups at a fixed frame rate: the positions are the times of the frames with
      an IDR unit among all frames passed on, less those given up. */
  lemma {:induction false} PositionsAre(c: Config, ops: seq<Op>)
    requires c.clearBuffer && c.frameDuration > 0
    ensures Kept(c, ops)
    decreases |ops|
  {
    if ops != [] {
      var front, op := ops[..|ops| - 1], ops[|ops| - 1];
      PositionsAre(c, front);
      assert ops == front + [op];
      match op
      case Feed(data) => FeedKept(c, front, data);
      case Clean(offset) => CleanKept(c, front, offset);
    }
  }

  /** With `m` of the keyframes before the offset, `d` of them given up: the limit is the time of the last but one
      before the offset, or 0 when that one has been given up or there is none; and what is cut for it ends
      before the last one that precedes the offset. */
  predicate SafeCut(keys: seq<real>, d: nat, offset: real, buffered: seq<Range>, limit: real) {
    var m := Before(keys, offset);
    && limit == (if m >= d + 2 then keys[m - 2] else 0.0)
    && (m > 0 ==> limit < keys[m - 1] < offset && EndBefore(CleanRanges(buffered, limit), keys[m - 1]))
    && (m < |keys| ==> offset <= keys[m])
  }

  lemma LastBefore(keys: seq<real>, offset: real, m: nat, limit: real, buffered: seq<Range>)
    requires Increasing(keys) && AllPositive(keys) && m == Before(keys, offset) > 0
    requires limit == 0.0 || (m >= 2 && limit == keys[m - 2])
    ensures limit < keys[m - 1] < offset && EndBefore(CleanRanges(buffered, limit), keys[m - 1])
  {
    BeforeAt(keys, offset, m - 1);
    PositiveAt(keys, m - 1);
    if m > 1 { IncreasingAt(keys, m - 2, m - 1); }
    RangesEndBefore(buffered, limit, keys[m - 1]);
  }

  lemma KeysCut(keys: seq<real>, d: nat, offset: real, buffered: seq<Range>, limit: real)
    requires Increasing(keys) && AllPositive(keys)
    requires limit == if Before(keys, offset) >= d + 2 then keys[Before(keys, offset) - 2] else 0.0
    ensures SafeCut(keys, d, offset, buffered, limit)
  {
    var m := Before(keys, offset);
    if m < |keys| { BeforeAt(keys, offset, m); }
    if m > 0 { LastBefore(keys, offset, m, limit, buffered); }
  }

  lemma CutOf(keys: seq<real>, d: nat, positions: seq<real>, offset: real, buffered: seq<Range>)
    requires Increasing(keys) && AllPositive(keys) && d <= |keys| && positions == keys[d..]
    ensures SafeCut(keys, d, offset, buffered, SafeClearOffset(positions, offset, false).limit)
  {
    KeysSafe(keys, d, offset);
    KeysCut(keys, d, offset, buffered, SafeClearOffset(positions, offset, false).limit);
  }

  /** A cleanup in any reachable state, at any playback position and whatever is buffered, is safe: the limit is 0
      or the time of a frame that has an IDR unit, with another such frame between it and the playback position,
      and everything that is cut ends before the last such frame. */
  lemma CleanupIsSafe(c: Config, ops: seq<Op>, offset: real, buffered: seq<Range>)
    requires c.clearBuffer && c.frameDuration > 0
    ensures SafeCut(KeysOf(c, ops), Dropped(c, ops), offset, buffered,
                    SafeClearOffset(Run(c, ops).marks.positions, offset, false).limit)
  {
    PositionsAre(c, ops);
    KeyTimesIncrease(FramesOf(c, ops), c.frameDuration);
    CutOf(KeysOf(c, ops), Dropped(c, ops), Run(c, ops).marks.positions, offset, buffered);
  }

  // ----- Everything ever queued for removal -----

  /** The framer, all ranges queued so far, the limit that waits for the source buffer, and the last playback
      position a cleanup was asked for. */
  datatype Cleaner = Cleaner(state: State, queued: seq<Range>, pending: real, offset: real)

  /** `busy` and `blocked` tell whether the source buffer is updating and whether a cleanup is in progress;
      `UpdateEnd` is the listener that takes up a limit that waits. */
  datatype Call =
    | Arrive(data: ByteString)
    | Ask(offset: real, busy: bool, blocked: bool, buffered: seq<Range>)
    | UpdateEnd(blocked: bool, buffered: seq<Range>)

  function Serve(c: Config, k: Cleaner, call: Call): Cleaner {
    match call
    case Arrive(data) => k.(state := Step(c, k.state, Feed(data)))
    case Ask(offset, busy, blocked, buffered) =>
      var limit := SafeClearOffset(k.state.marks.positions, offset, false).limit;
      Cleaner(Step(c, k.state, Clean(offset)), k.queued + Queue(limit, busy || blocked, buffered),
              if busy then limit else k.pending, offset)
    case UpdateEnd(blocked, buffered) =>
      if k.pending > 0.0 then k.(queued := k.queued + Queue(k.pending, blocked, buffered), pending := 0.0) else k
  }

  function ServeAll(c: Config, calls: seq<Call>): Cleaner
    decreases |calls|
  {
    if calls == [] then Cleaner(START, [], 0.0, 0.0)
    else Serve(c, ServeAll(c, calls[..|calls| - 1]), calls[|calls| - 1])
  }

  predicate FromZero(buffered: seq<Range>) {
    buffered == [] || (buffered[|buffered| - 1].start >= 0.0 && FromZero(buffered[..|buffered| - 1]))
  }

  /** Playback does not go back, and nothing is buffered before the start. */
  predicate Playing(calls: seq<Call>)
    decreases |calls|
  {
    calls == [] ||
    (Playing(calls[..|calls| - 1])
     && match calls[|calls| - 1]
        case Arrive(_) => true
        case Ask(offset, _, _, buffered) => Asked(calls[..|calls| - 1]) <= offset && FromZero(buffered)
        case UpdateEnd(_, _) => true)
  }

  /** The last playback position asked for. */
  function Asked(calls: seq<Call>): real {
    if calls == [] then 0.0
    else if calls[|calls| - 1].Ask? then calls[|calls| - 1].offset else Asked(calls[..|calls| - 1])
  }

  /** The feeds and cleanups among the calls. */
  function OpsOf(calls: seq<Call>): seq<Op> {
    if calls == [] then [] else
      var front := OpsOf(calls[..|calls| - 1]);
      match calls[|calls| - 1]
      case Arrive(data) => front + [Feed(data)]
      case Ask(offset, _, _, _) => front + [Clean(offset)]
      case UpdateEnd(_, _) => front
  }

  lemma {:induction false} EndBeforeAppend(a: seq<Range>, b: seq<Range>, bound: real)
    requires EndBefore(a, bound) && EndBefore(b, bound)
    ensures EndBefore(a + b, bound)
    decreases |b|
  {
    if b == [] {
      assert a + b == a;
    } else {
      EndBeforeAppend(a, b[..|b| - 1], bound);
      assert (a + b)[..|a + b| - 1] == a + b[..|b| - 1];
    }
  }

  lemma {:induction false} EndBeforeLater(a: seq<Range>, bound: real, later: real)
    requires EndBefore(a, bound) && bound <= later
    ensures EndBefore(a, later)
    decreases |a|
  {
    if a != [] { EndBeforeLater(a[..|a| - 1], bound, later); }
  }

  lemma {:induction false} NothingBeforeZero(buffered: seq<Range>)
    requires FromZero(buffered)
    ensures CleanRanges(buffered, 0.0) == []
    decreases |buffered|
  {
    if buffered != [] { NothingBeforeZero(buffered[..|buffered| - 1]); }
  }

  /** With `d` keyframes given up: no keyframe has preceded a playback position yet, and nothing is queued or
      waits; or the first one kept precedes it, and all that has been queued ends before that. */
  predicate Guarded(k: Cleaner, keys: seq<real>, d: nat) {
    && d <= |keys|
    && if d == |keys| || keys[d] >= k.offset then d == 0 && k.queued == [] && k.pending == 0.0
       else EndBefore(k.queued, keys[d]) && k.pending < keys[d]
  }

  lemma QueueGuarded(queued: seq<Range>, limit: real, blocked: bool, buffered: seq<Range>, bound: real)
    requires EndBefore(queued, bound) && limit < bound
    ensures EndBefore(queued + Queue(limit, blocked, buffered), bound)
  {
    RangesEndBefore(buffered, limit, bound);
    EndBeforeAppend(queued, Queue(limit, blocked, buffered), bound);
  }

  /** More keyframes do no harm. */
  lemma ArriveGuarded(k: Cleaner, keys: seq<real>, more: seq<real>, d: nat)
    requires Guarded(k, keys, d) && keys <= more && AllPositive(more)
    ensures Guarded(k, more, d)
  {
    if |more| > 0 { PositiveAt(more, 0); }
  }

  lemma {:induction false} KeysGrow(a: seq<VideoFrame>, b: seq<VideoFrame>, fd: int)
    ensures KeyTimes(a, fd) <= KeyTimes(a + b, fd)
    decreases |b|
  {
    if b == [] {
      assert a + b == a;
    } else {
      KeysGrow(a, b[..|b| - 1], fd);
      assert (a + b)[..|a + b| - 1] == a + b[..|b| - 1];
    }
  }

  lemma AskGuarded(k: Cleaner, keys: seq<real>, d: nat, call: Call, limit: real, queued: seq<Range>,
                   pending: real)
    requires Guarded(k, keys, d) && Increasing(keys) && AllPositive(keys)
    requires call.Ask? && k.offset <= call.offset && FromZero(call.buffered)
    requires SafeCut(keys, d, call.offset, call.buffered, limit)
    requires queued == k.queued + Queue(limit, call.busy || call.blocked, call.buffered)
    requires pending == if call.busy then limit else k.pending
    ensures Guarded(Cleaner(k.state, queued, pending, call.offset), keys, DroppedBy(keys, d, call.offset))
  {
    var m := Before(keys, call.offset);
    if d < |keys| { BeforeAt(keys, call.offset, d); }
    if m > d {
      LimitGuarded(k, keys, d, call.offset, m);
      QueueGuarded(k.queued, limit, call.busy || call.blocked, call.buffered, keys[m - 1]);
    } else {
      NothingBeforeZero(call.buffered);
    }
  }

  lemma LimitGuarded(k: Cleaner, keys: seq<real>, d: nat, offset: real, m: nat)
    requires Guarded(k, keys, d) && Increasing(keys) && AllPositive(keys)
    requires k.offset <= offset && m == Before(keys, offset) > d
    ensures keys[m - 1] < offset && EndBefore(k.queued, keys[m - 1]) && k.pending < keys[m - 1]
  {
    BeforeAt(keys, offset, m - 1);
    PositiveAt(keys, m - 1);
    if m - 1 > d { IncreasingAt(keys, d, m - 1); }
    if keys[d] < k.offset { EndBeforeLater(k.queued, keys[d], keys[m - 1]); }
  }

  lemma EndGuarded(k: Cleaner, keys: seq<real>, d: nat, blocked: bool, buffered: seq<Range>)
    requires Guarded(k, keys, d) && AllPositive(keys) && k.pending > 0.0
    ensures Guarded(k.(queued := k.queued + Queue(k.pending, blocked, buffered), pending := 0.0), keys, d)
  {
    PositiveAt(keys, d);
    QueueGuarded(k.queued, k.pending, blocked, buffered, keys[d]);
  }

  /** The cleaner keeps step with the run of the framer, and is guarded. */
  predicate InStep(c: Config, k: Cleaner, ops: seq<Op>, asked: real) {
    k.state == Run(c, ops) && k.offset == asked && Guarded(k, KeysOf(c, ops), Dropped(c, ops))
  }

  lemma ArriveCall(c: Config, k: Cleaner, ops: seq<Op>, data: ByteString)
    requires InStep(c, k, ops, k.offset) && c.frameDuration > 0
    ensures InStep(c, Serve(c, k, Arrive(data)), ops + [Feed(data)], k.offset)
  {
    var more, before := ops + [Feed(data)], FeedAll(c, START, Fed(ops));
    RunSnoc(c, ops, Feed(data));
    FedSnoc(c, ops, data);
    KeysGrow(before.frames, FeedOnce(c, before.state, data).frames, c.frameDuration);
    KeyTimesIncrease(FramesOf(c, more), c.frameDuration);
    ArriveGuarded(k, KeysOf(c, ops), KeysOf(c, more), Dropped(c, ops));
  }

  lemma AskCall(c: Config, k: Cleaner, ops: seq<Op>, call: Call)
    requires InStep(c, k, ops, k.offset) && c.clearBuffer && c.frameDuration > 0
    requires call.Ask? && k.offset <= call.offset && FromZero(call.buffered)
    ensures InStep(c, Serve(c, k, call), ops + [Clean(call.offset)], call.offset)
  {
    RunSnoc(c, ops, Clean(call.offset));
    CleanupIsSafe(c, ops, call.offset, call.buffered);
    KeyTimesIncrease(FramesOf(c, ops), c.frameDuration);
    var next, limit := Serve(c, k, call), SafeClearOffset(k.state.marks.positions, call.offset, false).limit;
    AskGuarded(k, KeysOf(c, ops), Dropped(c, ops), call, limit, next.queued, next.pending);
  }

  lemma EndCall(c: Config, k: Cleaner, ops: seq<Op>, call: Call)
    requires InStep(c, k, ops, k.offset) && c.frameDuration > 0 && call.UpdateEnd?
    ensures InStep(c, Serve(c, k, call), ops, k.offset)
  {
    KeyTimesIncrease(FramesOf(c, ops), c.frameDuration);
    if k.pending > 0.0 { EndGuarded(k, KeysOf(c, ops), Dropped(c, ops), call.blocked, call.buffered); }
  }

  lemma {:induction false} CallsGuarded(c: Config, calls: seq<Call>)
    requires Playing(calls) && c.clearBuffer && c.frameDuration > 0
    ensures InStep(c, ServeAll(c, calls), OpsOf(calls), Asked(calls))
    decreases |calls|
  {
    if calls != [] {
      var front, call := calls[..|calls| - 1], calls[|calls| - 1];
      CallsGuarded(c, front);
      var k, ops := ServeAll(c, front), OpsOf(front);
      match call
      case Arrive(data) => ArriveCall(c, k, ops, data);
      case Ask(_, _, _, _) => AskCall(c, k, ops, call);
      case UpdateEnd(_, _) => EndCall(c, k, ops, call);
    }
  }

  /** Everything ends before the last keyframe that precedes the offset; without one there is nothing. */
  predicate Spares(queued: seq<Range>, keys: seq<real>, offset: real) {
    var m := Before(keys, offset);
    if m > 0 then EndBefore(queued, keys[m - 1]) else queued == []
  }

  lemma GuardedIsSafe(k: Cleaner, keys: seq<real>, d: nat)
    requires Guarded(k, keys, d) && Increasing(keys)
    ensures Spares(k.queued, keys, k.offset)
  {
    var m := Before(keys, k.offset);
    if d < |keys| {
      BeforeAt(keys, k.offset, d);
      if m > d {
        if m - 1 > d { IncreasingAt(keys, d, m - 1); }
        EndBeforeLater(k.queued, keys[d], keys[m - 1]);
      }
    }
  }

  /** Over every run of feeds, cleanups and `updateend` events while playback goes forward: everything that has
      ever been queued for removal ends before the last frame with an IDR unit that precedes the last playback
      position, and as long as none precedes it nothing has been queued. */
  lemma QueuedIsSafe(c: Config, calls: seq<Call>)
    requires Playing(calls) && c.clearBuffer && c.frameDuration > 0
    ensures Spares(ServeAll(c, calls).queued, KeysOf(c, OpsOf(calls)), Asked(calls))
  {
    CallsGuarded(c, calls);
    KeyTimesIncrease(FramesOf(c, OpsOf(calls)), c.frameDuration);
    GuardedIsSafe(ServeAll(c, calls), KeysOf(c, OpsOf(calls)), Dropped(c, OpsOf(calls)));
  }
}
