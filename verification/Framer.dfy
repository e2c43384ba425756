/** How `JMuxer` groups NAL units into frames and gives the frames their durations. */
module Framer {
  import opened Bytes
  import opened Media
  import AnnexB
  import BitStream

  // ----- Units -----

  /** first_mb_in_slice as `parseHeader` reads it behind the NAL unit header. */
  function FirstMb(payload: ByteString): int {
    var bits := BitStream.Bits(payload);
    BitStream.ReadUEG(bits, BitStream.ReadBits(bits, 8, 0).index).value
  }

  predicate IsSlice(payload: ByteString) {
    NalType(payload) == IDR || NalType(payload) == NDR
  }

  function MakeUnit(payload: ByteString): Nalu {
    Nalu(payload, IsSlice(payload) && FirstMb(payload) == 0)
  }

  function MakeUnits(payloads: seq<ByteString>): (us: seq<Nalu>)
    ensures |us| == |payloads|
  {
    if payloads == [] then [] else MakeUnits(payloads[..|payloads| - 1]) + [MakeUnit(payloads[|payloads| - 1])]
  }

  // ----- Frames -----

  /** A frame that has no duration yet. */
  datatype Group = Group(units: seq<Nalu>, keyFrame: bool)

  /** The units that have not been decided on, `pendingUnits` between calls. */
  datatype Open = Open(units: seq<Nalu>, keyFrame: bool, vcl: bool)

  const NOTHING_OPEN := Open([], false, false)

  datatype Grouping = Grouping(frames: seq<Group>, open: Open)

  /** A slice has been seen, and the unit is no further slice of that picture. */
  predicate Breaks(o: Open, u: Nalu) {
    o.units != [] && o.vcl && (u.isfmb || !u.IsVcl())
  }

  function Extend(o: Open, u: Nalu): Open {
    Open(o.units + [u], o.keyFrame || u.Type() == IDR, o.vcl || u.IsVcl())
  }

  function Push(g: Grouping, u: Nalu): Grouping {
    if Breaks(g.open, u) then
      Grouping(g.frames + [Group(g.open.units, g.open.keyFrame)], Extend(NOTHING_OPEN, u))
    else Grouping(g.frames, Extend(g.open, u))
  }

  function PushAll(g: Grouping, us: seq<Nalu>): Grouping
    decreases |us|
  {
    if us == [] then g else Push(PushAll(g, us[..|us| - 1]), us[|us| - 1])
  }

  /** A chunk with a duration is closed: the open units become a frame if they have a slice and join the
      last frame otherwise. Without a frame to join the source fails with a TypeError. */
  function Close(g: Grouping): Option<seq<Group>> {
    var n := |g.frames|;
    if g.open.units == [] then Some(g.frames)
    else if g.open.vcl then Some(g.frames + [Group(g.open.units, g.open.keyFrame)])
    else if n == 0 then None
    else Some(g.frames[..n - 1] + [Group(g.frames[n - 1].units + g.open.units, g.frames[n - 1].keyFrame)])
  }

  // ----- Time -----

  /** The share of one frame: `duration / n | 0`, or the fixed duration. */
  function Share(duration: int, n: nat, frameDuration: int): int
    requires duration != 0 ==> n > 0
  {
    if duration != 0 then ToInt32(TruncDiv(duration, n)) else frameDuration
  }

  /** What the shares leave over. */
  function Rest(duration: int, n: nat, fd: int): int {
    if duration != 0 then duration - fd * n else 0
  }

  /** `n` shares; the first `tt` of them are one longer. */
  function Spread(n: nat, fd: int, tt: int): (ds: seq<int>)
    ensures |ds| == n
  {
    if n == 0 then [] else [if tt > 0 then fd + 1 else fd] + Spread(n - 1, fd, if tt > 0 then tt - 1 else tt)
  }

  /** The durations that `getVideoFrames` and `getAudioFrames` give to the `n` frames of a chunk. */
  function FrameDurations(duration: int, n: nat, frameDuration: int): (ds: seq<int>)
    requires duration != 0 ==> n > 0
    ensures |ds| == n
  {
    var fd := Share(duration, n, frameDuration);
    Spread(n, fd, Rest(duration, n, fd))
  }

  function Timed(groups: seq<Group>, ds: seq<int>): (fs: seq<VideoFrame>)
    requires |groups| == |ds|
    ensures |fs| == |groups|
  {
    if groups == [] then [] else
      var n := |groups| - 1;
      Timed(groups[..n], ds[..n]) + [VideoFrame(groups[n].units, groups[n].keyFrame, ds[n])]
  }

  /** `kfCounter` and `kfPosition`. */
  datatype Marks = Marks(counter: int, positions: seq<real>)

  function Position(counter: int, fd: int): real {
    (counter * fd) as real / 1000.0
  }

  function Mark(m: Marks, g: Group, fd: int, clearBuffer: bool): Marks {
    Marks(m.counter + 1,
          if g.keyFrame && clearBuffer then m.positions + [Position(m.counter + 1, fd)] else m.positions)
  }

  function MarkAll(m: Marks, groups: seq<Group>, fd: int, clearBuffer: bool): Marks
    decreases |groups|
  {
    if groups == [] then m
    else Mark(MarkAll(m, groups[..|groups| - 1], fd, clearBuffer), groups[|groups| - 1], fd, clearBuffer)
  }

  // ----- Calls -----

  datatype Config = Config(frameDuration: int, clearBuffer: bool)

  /** What a `JMuxer` keeps of the video between calls. */
  datatype State = State(remaining: ByteString, pending: Open, marks: Marks)

  const START := State([], NOTHING_OPEN, Marks(0, []))

  /** `frames` is None when the call fails. */
  datatype Framed = Framed(state: State, frames: Option<seq<VideoFrame>>)

  /** `getVideoFrames`; it is called with at least one unit. */
  function GetVideoFrames(c: Config, s: State, nalus: seq<ByteString>, duration: int): Framed
    requires nalus != []
  {
    var g := PushAll(Grouping([], s.pending), MakeUnits(nalus));
    PushedSome(Grouping([], s.pending), MakeUnits(nalus));
    var groups := if duration == 0 then Some(g.frames) else Close(g);
    if groups.None? then Framed(s.(pending := NOTHING_OPEN), None)
    else
      var n := |groups.value|;
      var fd := Share(duration, n, c.frameDuration);
      Framed(s.(pending := if duration == 0 then g.open else NOTHING_OPEN,
                marks := MarkAll(s.marks, groups.value, fd, c.clearBuffer)),
             Some(Timed(groups.value, FrameDurations(duration, n, c.frameDuration))))
  }

  lemma PushedSome(g: Grouping, us: seq<Nalu>)
    requires us != []
    ensures PushAll(g, us).open.units != []
    ensures Close(PushAll(g, us)).Some? ==> Close(PushAll(g, us)).value != []
  {
  }

  /** What `feed` does with video data. The frames are None when nothing is passed on because no unit is
      complete; `failed` when the call throws. */
  datatype Fed = Fed(state: State, frames: Option<seq<VideoFrame>>, failed: bool)

  function FeedVideo(c: Config, s: State, data: ByteString, duration: int): Fed {
    var split := AnnexB.Extract(s.remaining + data);
    if split.units == [] then Fed(s.(remaining := split.left), None, false)
    else
      var framed := GetVideoFrames(c, s, split.units, duration);
      if framed.frames.None? then Fed(framed.state, None, true)
      else Fed(framed.state.(remaining := split.left), framed.frames, false)
  }
}
