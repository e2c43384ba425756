/** `JMuxer`: raw chunks in, frames to the remuxer. */
module JMuxer {
  import opened Bytes
  import opened Media
  import opened Framer
  import FramerProperties
  import FrameTimes
  import AnnexB
  import Adts
  import BitReader
  import BitStream
  import opened ExpGolombCodes
  import Cleanup
  import Controller
  import RemuxController

  // ----- A feed as a function -----

  function TimedAudio(payloads: seq<ByteString>, ds: seq<int>): (fs: seq<AudioFrame>)
    requires |payloads| == |ds|
    ensures |fs| == |payloads|
  {
    if payloads == [] then [] else
      var n := |payloads| - 1;
      TimedAudio(payloads[..n], ds[..n]) + [AudioFrame(payloads[n], ds[n])]
  }

  /** The object passed to `feed`; a missing duration is 0. */
  datatype Input = Input(video: Option<ByteString>, audio: Option<ByteString>, duration: int)

  /** `Failed`: a TypeError is thrown; `Hangs`: the audio scanner does not return; `Ignored`: nothing to
      pass on; `Passed`: the frames handed to the remuxer. */
  datatype Outcome = Failed | Hangs | Ignored | Passed(video: seq<VideoFrame>, audio: seq<AudioFrame>)

  datatype Feeding = Feeding(state: State, header: Option<ByteString>, outcome: Outcome)

  function VideoPart(c: Config, s: State, input: Input): Fed {
    if input.video.Some? then FeedVideo(c, s, input.video.value, input.duration) else Fed(s, None, false)
  }

  /** `extractAAC` and the header it leaves behind. */
  datatype AudioPart = AudioPart(extracted: Adts.Extracted, header: Option<ByteString>)

  function ScanAudio(audio: Option<ByteString>, header: Option<ByteString>): AudioPart {
    if audio.None? then AudioPart(Adts.Invalid, header)
    else
      var r := Adts.ExtractAac(audio.value);
      AudioPart(r, if header.None? && !r.Invalid?
                   then Some(Adts.SubArray(audio.value, 0, Adts.HeaderLength(audio.value))) else header)
  }

  function AudioFrames(c: Config, extracted: Adts.Extracted, duration: int): Option<seq<AudioFrame>> {
    if extracted.Frames? && extracted.payloads != [] then
      Some(TimedAudio(extracted.payloads, FrameDurations(duration, |extracted.payloads|, c.frameDuration)))
    else None
  }

  function OrNone<T>(frames: Option<seq<T>>): seq<T> {
    if frames.Some? then frames.value else []
  }

  function FeedResult(c: Config, s: State, header: Option<ByteString>, input: Input): Feeding {
    var fed := VideoPart(c, s, input);
    if fed.failed then Feeding(fed.state, header, Failed)
    else
      var scan := ScanAudio(input.audio, header);
      if scan.extracted.Stuck? then Feeding(fed.state, scan.header, Hangs)
      else
        var audio := AudioFrames(c, scan.extracted, input.duration);
        Feeding(fed.state, scan.header,
                if fed.frames.None? && audio.None? then Ignored else Passed(OrNone(fed.frames), OrNone(audio)))
  }

  // ----- The class -----

  datatype Mode = Both | AudioOnly | VideoOnly

  /** How far the durations have been given out. */
  lemma SpreadStep(n: nat, fd: int, tt: int, i: nat)
    requires i < n
    ensures Spread(n, fd, tt)[i] == if tt - i > 0 then fd + 1 else fd
  {
    FrameTimes.SpreadAt(n, fd, tt, i);
  }

  /** The grouping once `i` units have been taken. */
  ghost function Taken(start: Grouping, nalus: seq<ByteString>, i: nat): Grouping
    requires i <= |nalus|
  {
    PushAll(start, MakeUnits(nalus[..i]))
  }

  lemma NoneTaken(start: Grouping, nalus: seq<ByteString>)
    ensures Taken(start, nalus, 0) == start
  {
    assert nalus[..0] == [];
  }

  lemma TakeNext(start: Grouping, nalus: seq<ByteString>, i: nat)
    requires i < |nalus|
    ensures Taken(start, nalus, i + 1) == Push(Taken(start, nalus, i), MakeUnit(nalus[i]))
  {
    assert nalus[..i + 1][..i] == nalus[..i];
    FramerProperties.Front(MakeUnits(nalus[..i]), MakeUnit(nalus[i]));
  }

  lemma AllTaken(start: Grouping, nalus: seq<ByteString>)
    ensures Taken(start, nalus, |nalus|) == PushAll(start, MakeUnits(nalus))
  {
    assert nalus[..|nalus|] == nalus;
  }

  class JMuxer {
    const mode: Mode
    const config: Config
    const remuxController: RemuxController.RemuxController
    var remainingData: ByteString
    var pendingUnits: Open
    var kfCounter: int
    var kfPosition: seq<real>
    /** `aacHeader` is shared by all instances in the source. */
    var aacHeader: Option<ByteString>

    constructor (mode: Mode, config: Config, browser: bool)
      ensures this.mode == mode && this.config == config && View() == START && aacHeader.None?
      ensures fresh(remuxController) && remuxController.Valid() && fresh(remuxController.Tracks())
      ensures Controller.Fresh(remuxController.View()) && remuxController.log == []
      ensures remuxController.View().video.Some? == (mode != AudioOnly)
      ensures remuxController.View().audio.Some? == (mode != VideoOnly)
    {
      this.mode, this.config := mode, config;
      remuxController := new RemuxController.RemuxController(browser, mode != AudioOnly, mode != VideoOnly);
      remainingData, pendingUnits, kfCounter, kfPosition, aacHeader := [], NOTHING_OPEN, 0, [], None;
    }

    ghost function View(): State
      reads this
    {
      State(remainingData, pendingUnits, Marks(kfCounter, kfPosition))
    }

    /** `parseHeader`: is this the first slice of a picture? */
    method ParseHeader(payload: ByteString) returns (isfmb: bool)
      ensures isfmb == (FirstMb(payload) == 0)
      ensures forall k: nat :: k + 1 < TWO_32 && BitsAt(BitStream.Bits(payload), 8, Ue(k)) ==> isfmb == (k == 0)
    {
      forall k: nat | k + 1 < TWO_32 && BitsAt(BitStream.Bits(payload), 8, Ue(k))
        ensures FirstMb(payload) == 0 <==> k == 0
      {
        FramerProperties.FirstMbIs(payload, k);
      }
      var decoder := new BitReader.ExpGolomb(payload);
      var nalType := decoder.ReadBits(8);
      var firstMb := decoder.ReadUEG();
      isfmb := firstMb == 0;
      var sliceType := decoder.ReadUEG();
    }

    /** `new NALU`, with the slice header parsed. */
    method MakeNalu(payload: ByteString) returns (unit: Nalu)
      ensures unit == MakeUnit(payload)
    {
      unit := Nalu(payload, false);
      if unit.Type() == IDR || unit.Type() == NDR {
        var isfmb := ParseHeader(payload);
        unit := Nalu(payload, isfmb);
      }
    }

    /** The loop over the units of a chunk. */
    method GroupUnits(nalus: seq<ByteString>) returns (frames: seq<Group>, open: Open)
      modifies this`pendingUnits
      ensures pendingUnits == NOTHING_OPEN
      ensures Grouping(frames, open) == PushAll(Grouping([], old(pendingUnits)), MakeUnits(nalus))
    {
      frames := [];
      var units, keyFrame, vcl := pendingUnits.units, pendingUnits.keyFrame, pendingUnits.vcl;
      pendingUnits := NOTHING_OPEN;
      ghost var start := Grouping([], old(pendingUnits));
      var i := 0;
      NoneTaken(start, nalus);
      while i < |nalus|
        invariant 0 <= i <= |nalus|
        invariant pendingUnits == NOTHING_OPEN
        invariant Grouping(frames, Open(units, keyFrame, vcl)) == Taken(start, nalus, i)
      {
        TakeNext(start, nalus, i);
        var unit := MakeNalu(nalus[i]);
        if |units| > 0 && vcl && (unit.isfmb || !unit.IsVcl()) {
          frames := frames + [Group(units, keyFrame)];
          units, keyFrame, vcl := [], false, false;
        }
        units := units + [unit];
        keyFrame := keyFrame || unit.Type() == IDR;
        vcl := vcl || unit.IsVcl();
        i := i + 1;
      }
      open := Open(units, keyFrame, vcl);
      AllTaken(start, nalus);
    }

    /** `frames.map`: durations and keyframe positions. */
    method TimeFrames(frames: seq<Group>, fd: int, rest: int) returns (timed: seq<VideoFrame>)
      modifies this`kfCounter, this`kfPosition
      ensures timed == Timed(frames, Spread(|frames|, fd, rest))
      ensures View().marks == MarkAll(old(View().marks), frames, fd, config.clearBuffer)
    {
      timed := [];
      var tt, i := rest, 0;
      ghost var ds := Spread(|frames|, fd, rest);
      assert frames[..0] == [];
      while i < |frames|
        invariant 0 <= i <= |frames|
        invariant tt == if rest <= 0 then rest else if i < rest then rest - i else 0
        invariant timed == Timed(frames[..i], ds[..i])
        invariant Marks(kfCounter, kfPosition) == MarkAll(old(View().marks), frames[..i], fd, config.clearBuffer)
      {
        assert frames[..i + 1][..i] == frames[..i] && ds[..i + 1][..i] == ds[..i];
        SpreadStep(|frames|, fd, rest, i);
        var duration := fd;
        if tt > 0 {
          duration := duration + 1;
          tt := tt - 1;
        }
        timed := timed + [VideoFrame(frames[i].units, frames[i].keyFrame, duration)];
        kfCounter := kfCounter + 1;
        if frames[i].keyFrame && config.clearBuffer {
          kfPosition := kfPosition + [Position(kfCounter, fd)];
        }
        i := i + 1;
      }
      assert frames[..i] == frames && ds[..i] == ds;
    }

    method GetVideoFrames(nalus: seq<ByteString>, duration: int) returns (result: Option<seq<VideoFrame>>)
      requires nalus != []
      modifies this`pendingUnits, this`kfCounter, this`kfPosition
      ensures Framed(View(), result) == Framer.GetVideoFrames(config, old(View()), nalus, duration)
    {
      ghost var g := PushAll(Grouping([], pendingUnits), MakeUnits(nalus));
      PushedSome(Grouping([], pendingUnits), MakeUnits(nalus));
      var frames, open := GroupUnits(nalus);
      var units := open.units;
      if |units| > 0 {
        if duration == 0 {
          pendingUnits := open;
        } else if open.vcl {
          frames := frames + [Group(units, open.keyFrame)];
        } else {
          var last := |frames| - 1;
          if last < 0 {
            return None;
          }
          frames := frames[..last] + [frames[last].(units := frames[last].units + units)];
        }
      }
      var fd := if duration != 0 then ToInt32(TruncDiv(duration, |frames|)) else config.frameDuration;
      var tt := if duration != 0 then duration - fd * |frames| else 0;
      var timed := TimeFrames(frames, fd, tt);
      result := Some(timed);
    }

    method GetAudioFrames(aacFrames: seq<ByteString>, duration: int) returns (frames: seq<AudioFrame>)
      requires aacFrames != []
      ensures frames == TimedAudio(aacFrames, FrameDurations(duration, |aacFrames|, config.frameDuration))
    {
      frames := [];
      var n := |aacFrames|;
      var fd := if duration != 0 then ToInt32(TruncDiv(duration, n)) else config.frameDuration;
      var rest := if duration != 0 then duration - fd * n else 0;
      var tt, i := rest, 0;
      ghost var ds := Spread(n, fd, rest);
      assert aacFrames[..0] == [];
      while i < n
        invariant 0 <= i <= n
        invariant tt == if rest <= 0 then rest else if i < rest then rest - i else 0
        invariant frames == TimedAudio(aacFrames[..i], ds[..i])
      {
        assert aacFrames[..i + 1][..i] == aacFrames[..i] && ds[..i + 1][..i] == ds[..i];
        SpreadStep(n, fd, rest, i);
        var duration := fd;
        if tt > 0 {
          duration := duration + 1;
          tt := tt - 1;
        }
        frames := frames + [AudioFrame(aacFrames[i], duration)];
        i := i + 1;
      }
      assert aacFrames[..i] == aacFrames && ds[..i] == ds;
    }

    /** The video half of `feed`. */
    method FeedVideoData(video: ByteString, duration: int) returns (frames: Option<seq<VideoFrame>>, failed: bool)
      modifies this`remainingData, this`pendingUnits, this`kfCounter, this`kfPosition
      ensures Fed(View(), frames, failed) == FeedVideo(config, old(View()), video, duration)
    {
      var data := remainingData + video;
      var slices, left := AnnexB.ExtractNALu(data);
      assert AnnexB.Split(slices, left) == AnnexB.Extract(old(remainingData) + video);
      frames, failed := None, false;
      if |slices| > 0 {
        frames := GetVideoFrames(slices, duration);
        if frames.None? {
          failed := true;
          return;
        }
      }
      remainingData := left;
    }

    /** The audio half of `feed`. */
    method FeedAudioData(audio: ByteString, duration: int) returns (frames: Option<seq<AudioFrame>>, stuck: bool)
      modifies this`aacHeader
      ensures var scan := ScanAudio(Some(audio), old(aacHeader));
              && aacHeader == scan.header && stuck == scan.extracted.Stuck?
              && frames == AudioFrames(config, scan.extracted, duration)
    {
      var extracted, header := Adts.ExtractAAC(audio, aacHeader);
      aacHeader := header;
      frames, stuck := None, extracted.Stuck?;
      if extracted.Frames? && |extracted.payloads| > 0 {
        var timed := GetAudioFrames(extracted.payloads, duration);
        frames := Some(timed);
      }
    }

    /** `feed` up to the call of the remuxer. */
    method MakeChunks(data: Input) returns (outcome: Outcome)
      modifies this`remainingData, this`pendingUnits, this`kfCounter, this`kfPosition, this`aacHeader
      ensures Feeding(View(), aacHeader, outcome) == FeedResult(config, old(View()), old(aacHeader), data)
    {
      var video: Option<seq<VideoFrame>>, audio: Option<seq<AudioFrame>>, failed, stuck := None, None, false, false;
      if data.video.Some? {
        video, failed := FeedVideoData(data.video.value, data.duration);
        if failed {
          return Failed;
        }
      }
      if data.audio.Some? {
        audio, stuck := FeedAudioData(data.audio.value, data.duration);
        if stuck {
          return Hangs;
        }
      }
      if video.None? && audio.None? {
        return Ignored;
      }
      outcome := Passed(OrNone(video), OrNone(audio));
    }

    method Feed(data: Input) returns (outcome: Outcome)
      requires remuxController.Valid()
      modifies this, remuxController, remuxController.Tracks()
      ensures remuxController.Valid()
      ensures Feeding(View(), aacHeader, outcome) == FeedResult(config, old(View()), old(aacHeader), data)
      ensures var before := old(remuxController.View());
              if outcome.Passed? then
                var r := Controller.Step(before, Controller.Remux(outcome.video, outcome.audio, aacHeader.Some?));
                remuxController.View() == r.ctl && remuxController.log == old(remuxController.log) + r.events
              else remuxController.View() == before && remuxController.log == old(remuxController.log)
    {
      outcome := MakeChunks(data);
      if outcome.Passed? {
        ghost var events := remuxController.Remux(outcome.video, outcome.audio, aacHeader.Some?);
      }
    }

    method GetSafeClearOffsetOfBuffer(offset: real) returns (maxLimit: real)
      modifies this`kfPosition
      ensures Cleanup.Safe(maxLimit, kfPosition) == Cleanup.SafeClearOffset(old(kfPosition), offset, mode == AudioOnly)
    {
      maxLimit := if mode == AudioOnly then offset else 0.0;
      var i := 0;
      assert kfPosition[0..] == kfPosition;
      while i < |kfPosition| && kfPosition[i] < offset
        invariant 0 <= i <= |kfPosition|
        invariant Cleanup.Passed(kfPosition, offset) == i + Cleanup.Passed(kfPosition[i..], offset)
      {
        assert kfPosition[i..][1..] == kfPosition[i + 1..];
        i := i + 1;
      }
      if i > 0 && kfPosition[i - 1] != 0.0 {
        maxLimit := FilterPositions(kfPosition[i - 1], maxLimit);
      }
    }

    /** `kfPosition.filter`, which also moves the limit. */
    method FilterPositions(adjacentOffset: real, limit: real) returns (maxLimit: real)
      modifies this`kfPosition
      ensures kfPosition == Cleanup.Kept(old(kfPosition), adjacentOffset)
      ensures maxLimit == Cleanup.LastBelow(old(kfPosition), adjacentOffset, limit)
    {
      maxLimit := limit;
      var kept: seq<real>, i := [], 0;
      assert kfPosition[..0] == [];
      while i < |kfPosition|
        invariant 0 <= i <= |kfPosition| && kfPosition == old(kfPosition)
        invariant kept == Cleanup.Kept(kfPosition[..i], adjacentOffset)
        invariant maxLimit == Cleanup.LastBelow(kfPosition[..i], adjacentOffset, limit)
      {
        assert kfPosition[..i + 1][..i] == kfPosition[..i];
        if kfPosition[i] < adjacentOffset {
          maxLimit := kfPosition[i];
        } else {
          kept := kept + [kfPosition[i]];
        }
        i := i + 1;
      }
      assert kfPosition[..i] == kfPosition;
      kfPosition := kept;
    }
  }
}
