/** A track of the remuxer: parameter sets, the queue of accepted samples, byte and time accounts. The
    video and the audio remuxer drain their queues by the same code; they differ in how a sample's
    units are laid out and flagged, and in what makes them ready. */
module Tracks {
  import opened Bytes
  import opened Media
  import Mp4
  import opened Mp4Reader

  datatype Kind = Video | Audio

  datatype Params = Params(sps: Option<ByteString>, pps: Option<ByteString>, ready: bool)

  const NO_PARAMS := Params(None, None, false)

  /** An accepted frame: its unit payloads and the number of bytes they will take. */
  datatype Queued = Queued(units: seq<ByteString>, size: nat, duration: int, keyFrame: bool)

  /** `done` are the samples of the fragment being assembled (`mp4track.samples`), `len` is
      `mp4track.len`. */
  datatype Track = Track(kind: Kind, id: int, params: Params, queue: seq<Queued>, len: int,
                         done: seq<Mp4.Sample>, dts: int, nextDts: int)

  // ----- Accepting frames -----

  datatype Parsed = Parsed(params: Params, push: bool)

  /** `parseNAL`: parameter sets are captured once; slices and parameter sets are kept. */
  function ParseNal(p: Params, nal: ByteString): Parsed {
    var kind := NalType(nal);
    if kind == IDR || kind == NDR then Parsed(p, true)
    else if kind == PPS then
      var pps := if p.pps.None? then Some(nal) else p.pps;
      Parsed(p.(pps := pps, ready := p.ready || (p.pps.None? && p.sps.Some?)), true)
    else if kind == SPS then
      var sps := if p.sps.None? then Some(nal) else p.sps;
      Parsed(p.(sps := sps, ready := p.ready || (p.sps.None? && p.pps.Some?)), true)
    else Parsed(p, false)
  }

  datatype Kept = Kept(params: Params, units: seq<ByteString>)

  /** The units of one frame, in order. */
  function ParseUnits(p: Params, units: seq<Nalu>): Kept
    decreases |units|
  {
    if units == [] then Kept(p, []) else
      var before := ParseUnits(p, units[..|units| - 1]);
      var nal := units[|units| - 1].payload;
      var parsed := ParseNal(before.params, nal);
      Kept(parsed.params, if parsed.push then before.units + [nal] else before.units)
  }

  /** The units of the types 1, 5, 7 and 8: slices and parameter sets. */
  function SlicesAndSets(units: seq<Nalu>): seq<ByteString> {
    if units == [] then [] else
      var last := units[|units| - 1];
      SlicesAndSets(units[..|units| - 1]) + if last.Type() in {1, 5, 7, 8} then [last.payload] else []
  }

  /** Exactly those are kept, whatever parameter sets have been captured. */
  lemma {:induction false} KeptAre(p: Params, units: seq<Nalu>)
    ensures ParseUnits(p, units).units == SlicesAndSets(units)
    decreases |units|
  {
    if units != [] {
      KeptAre(p, units[..|units| - 1]);
      assert SlicesAndSets(units[..|units| - 1]) + [] == SlicesAndSets(units[..|units| - 1]);
    }
  }

  /** The bytes a unit takes in a sample: NAL units are preceded by their length. */
  function UnitData(kind: Kind, unit: ByteString): ByteString {
    if kind.Video? then LengthPrefixed(unit) else unit
  }

  function SampleData(kind: Kind, units: seq<ByteString>): ByteString {
    if units == [] then [] else SampleData(kind, units[..|units| - 1]) + UnitData(kind, units[|units| - 1])
  }

  /** A frame is accepted when it keeps a unit and the track is ready once it has been parsed. */
  function RemuxVideoFrame(t: Track, frame: VideoFrame): Track {
    var kept := ParseUnits(t.params, frame.units);
    var u := t.(params := kept.params);
    if kept.units != [] && kept.params.ready then
      var size := |SampleData(Video, kept.units)|;
      u.(len := t.len + size, queue := t.queue + [Queued(kept.units, size, frame.duration, frame.keyFrame)])
    else u
  }

  function RemuxVideo(t: Track, frames: seq<VideoFrame>): Track
    decreases |frames|
  {
    if frames == [] then t else RemuxVideoFrame(RemuxVideo(t, frames[..|frames| - 1]), frames[|frames| - 1])
  }

  /** `headerKnown`: an ADTS header has been seen, so that the first frame can configure the track. */
  function RemuxAudioFrame(t: Track, frame: AudioFrame, headerKnown: bool): Track {
    var size := |frame.payload|;
    t.(len := t.len + size, queue := t.queue + [Queued([frame.payload], size, frame.duration, false)],
       params := t.params.(ready := t.params.ready || headerKnown))
  }

  function RemuxAudio(t: Track, frames: seq<AudioFrame>, headerKnown: bool): Track
    decreases |frames|
  {
    if frames == [] then t
    else RemuxAudioFrame(RemuxAudio(t, frames[..|frames| - 1], headerKnown), frames[|frames| - 1], headerKnown)
  }

  /** Once ready, a video track stays ready until it is reset. */
  lemma {:induction false} UnitsKeepReady(p: Params, units: seq<Nalu>)
    requires p.ready
    ensures ParseUnits(p, units).params.ready
    decreases |units|
  {
    if units != [] { UnitsKeepReady(p, units[..|units| - 1]); }
  }

  lemma {:induction false} VideoKeepsReady(t: Track, frames: seq<VideoFrame>)
    requires t.params.ready
    ensures RemuxVideo(t, frames).params.ready
    decreases |frames|
  {
    if frames != [] {
      VideoKeepsReady(t, frames[..|frames| - 1]);
      UnitsKeepReady(RemuxVideo(t, frames[..|frames| - 1]).params, frames[|frames| - 1].units);
    }
  }

  // ----- Draining the queue -----

  /** Samples with no duration are dropped. */
  function Timed(queue: seq<Queued>): seq<Queued> {
    if queue == [] then []
    else Timed(queue[..|queue| - 1]) + if queue[|queue| - 1].duration > 0 then [queue[|queue| - 1]] else []
  }

  function Sizes(queue: seq<Queued>): nat {
    if queue == [] then 0 else Sizes(queue[..|queue| - 1]) + queue[|queue| - 1].size
  }

  function Durations(queue: seq<Queued>): int {
    if queue == [] then 0 else Durations(queue[..|queue| - 1]) + queue[|queue| - 1].duration
  }

  function ToSample(kind: Kind, q: Queued): Mp4.Sample {
    if kind.Video? then
      Mp4.Sample(q.size, q.duration, if q.keyFrame then 2 else 1, if q.keyFrame then 0 else 1)
    else Mp4.Sample(q.size, q.duration, 1, 0)
  }

  function ToSamples(kind: Kind, queue: seq<Queued>): (s: seq<Mp4.Sample>)
    ensures |s| == |queue|
  {
    if queue == [] then [] else ToSamples(kind, queue[..|queue| - 1]) + [ToSample(kind, queue[|queue| - 1])]
  }

  function Datas(kind: Kind, queue: seq<Queued>): (d: seq<ByteString>)
    ensures |d| == |queue|
  {
    if queue == [] then [] else Datas(kind, queue[..|queue| - 1]) + [SampleData(kind, queue[|queue| - 1].units)]
  }

  datatype Payload = Payload(track: Track, bytes: Option<ByteString>)

  /** `getPayload` of an accounted track. */
  function GetPayload(t: Track): Payload {
    if !t.params.ready || t.queue == [] then Payload(t, None)
    else
      var kept := Timed(t.queue);
      var u := t.(queue := [], len := t.len - (Sizes(t.queue) - Sizes(kept)), dts := t.nextDts,
                  nextDts := t.nextDts + Durations(kept), done := t.done + ToSamples(t.kind, kept));
      Payload(u, if u.done == [] then None else Some(Flatten(Datas(t.kind, kept))))
  }

  /** `BaseRemuxer.flush` */
  function Cleared(t: Track): Track {
    t.(len := 0, done := [])
  }

  function ResetTrack(t: Track): Track {
    t.(params := Params(None, None, false), nextDts := 0, dts := 0)
  }

  // ----- The accounts -----

  predicate QueueSized(kind: Kind, queue: seq<Queued>) {
    queue == [] ||
    (queue[|queue| - 1].size == |SampleData(kind, queue[|queue| - 1].units)| && QueueSized(kind, queue[..|queue| - 1]))
  }

  predicate AllEmpty(done: seq<Mp4.Sample>) {
    done == [] || (done[0].size == 0 && AllEmpty(done[1..]))
  }

  /** `len` is the number of queued bytes. Samples can stay behind in an unsent fragment only if they
      have no bytes. */
  predicate Accounted(t: Track) {
    t.len == Sizes(t.queue) && QueueSized(t.kind, t.queue) && AllEmpty(t.done)
  }

  lemma QueueSizedAppend(kind: Kind, queue: seq<Queued>, q: Queued)
    requires QueueSized(kind, queue) && q.size == |SampleData(kind, q.units)|
    ensures QueueSized(kind, queue + [q]) && Sizes(queue + [q]) == Sizes(queue) + q.size
  {
    assert (queue + [q])[..|queue|] == queue;
  }

  lemma {:induction false} VideoAccounted(t: Track, frames: seq<VideoFrame>)
    requires Accounted(t) && t.kind == Video
    ensures Accounted(RemuxVideo(t, frames)) && RemuxVideo(t, frames).kind == Video
    decreases |frames|
  {
    if frames != [] {
      VideoAccounted(t, frames[..|frames| - 1]);
      var u, frame := RemuxVideo(t, frames[..|frames| - 1]), frames[|frames| - 1];
      var kept := ParseUnits(u.params, frame.units);
      QueueSizedAppend(Video, u.queue,
                       Queued(kept.units, |SampleData(Video, kept.units)|, frame.duration, frame.keyFrame));
    }
  }

  lemma AudioSampleData(payload: ByteString)
    ensures SampleData(Audio, [payload]) == payload
  {
    assert [payload][..0] == [];
  }

  lemma {:induction false} AudioAccounted(t: Track, frames: seq<AudioFrame>, headerKnown: bool)
    requires Accounted(t) && t.kind == Audio
    ensures Accounted(RemuxAudio(t, frames, headerKnown)) && RemuxAudio(t, frames, headerKnown).kind == Audio
    decreases |frames|
  {
    if frames != [] {
      AudioAccounted(t, frames[..|frames| - 1], headerKnown);
      var u, frame := RemuxAudio(t, frames[..|frames| - 1], headerKnown), frames[|frames| - 1];
      AudioSampleData(frame.payload);
      QueueSizedAppend(Audio, u.queue, Queued([frame.payload], |frame.payload|, frame.duration, false));
    }
  }

  lemma {:induction false} TimedSized(kind: Kind, queue: seq<Queued>)
    requires QueueSized(kind, queue)
    ensures QueueSized(kind, Timed(queue)) && Sizes(Timed(queue)) <= Sizes(queue)
    decreases |queue|
  {
    if queue != [] {
      var front, last := queue[..|queue| - 1], queue[|queue| - 1];
      TimedSized(kind, front);
      QueueSizedAppend(kind, Timed(front), last);
      assert Timed(front) + [] == Timed(front);
    }
  }

  lemma {:induction false} DatasLength(kind: Kind, queue: seq<Queued>)
    requires QueueSized(kind, queue)
    ensures |Flatten(Datas(kind, queue))| == Sizes(queue)
    decreases |queue|
  {
    if queue != [] {
      var front, data := queue[..|queue| - 1], SampleData(kind, queue[|queue| - 1].units);
      DatasLength(kind, front);
      FlattenAppend(Datas(kind, front), [data]);
      FlattenOne(data);
    }
  }

  lemma {:induction false} AllEmptyAppend(a: seq<Mp4.Sample>, b: seq<Mp4.Sample>)
    requires AllEmpty(a) && AllEmpty(b)
    ensures AllEmpty(a + b)
  {
    if a == [] {
      assert a + b == b;
    } else {
      assert (a + b)[1..] == a[1..] + b;
      AllEmptyAppend(a[1..], b);
    }
  }

  lemma {:induction false} NoBytes(kind: Kind, queue: seq<Queued>)
    requires Sizes(queue) == 0
    ensures AllEmpty(ToSamples(kind, queue))
    decreases |queue|
  {
    if queue != [] {
      NoBytes(kind, queue[..|queue| - 1]);
      AllEmptyAppend(ToSamples(kind, queue[..|queue| - 1]), [ToSample(kind, queue[|queue| - 1])]);
    }
  }

  /** After `getPayload`, dropped samples included, `len` is exactly the number of bytes emitted; a
      track that is not sent, or that is cleared after it was, is accounted again. */
  lemma PayloadAccounted(t: Track)
    requires Accounted(t)
    ensures var p := GetPayload(t);
            && p.track.kind == t.kind && p.track.id == t.id
            && (p.bytes.Some? ==> p.track.len == |p.bytes.value| && p.track.queue == [] && Accounted(Cleared(p.track)))
            && (p.bytes.None? || p.bytes.value == [] ==> Accounted(p.track))
  {
    var kept := Timed(t.queue);
    TimedSized(t.kind, t.queue);
    DatasLength(t.kind, kept);
    if t.params.ready && t.queue != [] && Sizes(kept) == 0 {
      NoBytes(t.kind, kept);
      AllEmptyAppend(t.done, ToSamples(t.kind, kept));
    }
  }
}
