/** `RemuxController` as a state machine over its calls, and what it dispatches. */
module Controller {
  import opened Bytes
  import opened Media
  import opened Tracks
  import Mp4
  import opened Mp4Reader

  /** What an initialization segment is made from. */
  datatype Announced = Announced(kind: Kind, params: Params)

  /** What a media fragment is written from; `dts` is its base media decode time. */
  datatype Written = Written(sequenceNumber: int, dts: int, id: int, samples: seq<Mp4.Sample>, data: ByteString)
  {
    /** The dispatched payload: moof and mdat. */
    function Bytes(): ByteString {
      Mp4.FragmentBytes(sequenceNumber, dts, id, samples, data)
    }
  }

  /** What is dispatched: the ready signal, initialization segments with the parameter sets they carry,
      and media fragments. `Reset` marks a call of `reset` in a log; nothing is dispatched for it. */
  datatype Event =
    | Ready
    | Init(tracks: seq<Announced>)
    | Media(kind: Kind, fragment: Written)
    | Reset

  /** The audio track exists in modes audio and both, the video track in modes video and both. */
  datatype Ctl = Ctl(browser: bool, initialized: bool, video: Option<Track>, audio: Option<Track>, seqNo: int)

  datatype Op =
    | Remux(video: seq<VideoFrame>, audio: seq<AudioFrame>, headerKnown: bool)
    | Flush
    | ResetAll

  datatype Result = Result(ctl: Ctl, events: seq<Event>)

  datatype TrackResult = TrackResult(track: Track, seqNo: int, events: seq<Event>)

  /** One turn of the loop of `flush`. */
  function FlushTrack(t: Track, seqNo: int): TrackResult {
    var p := GetPayload(t);
    if p.bytes.Some? && p.bytes.value != [] then
      var u := p.track;
      TrackResult(Cleared(u), seqNo + 1,
                  [Media(u.kind, Written(seqNo, u.dts, u.id, u.done, p.bytes.value))])
    else TrackResult(p.track, seqNo, [])
  }

  datatype MaybeResult = MaybeResult(track: Option<Track>, seqNo: int, events: seq<Event>)

  function FlushMaybe(t: Option<Track>, seqNo: int): MaybeResult {
    match t
    case None => MaybeResult(None, seqNo, [])
    case Some(track) =>
      var r := FlushTrack(track, seqNo);
      MaybeResult(Some(r.track), r.seqNo, r.events)
  }

  /** The loop of `flush`: video first. */
  function FlushTracks(c: Ctl): Result {
    var v := FlushMaybe(c.video, c.seqNo);
    var a := FlushMaybe(c.audio, v.seqNo);
    Result(c.(video := v.track, audio := a.track, seqNo := a.seqNo), v.events + a.events)
  }

  predicate TrackReady(t: Option<Track>) {
    t.Some? ==> t.value.params.ready && t.value.queue != []
  }

  function Snapshot(t: Option<Track>): seq<Announced> {
    if t.Some? then [Announced(t.value.kind, t.value.params)] else []
  }

  /** In a browser one segment per track, otherwise one for all. */
  function InitSegments(c: Ctl): seq<Event> {
    if c.browser then
      (if c.video.Some? then [Init(Snapshot(c.video))] else [])
      + (if c.audio.Some? then [Init(Snapshot(c.audio))] else [])
    else [Init(Snapshot(c.video) + Snapshot(c.audio))]
  }

  /** `flush`; the recursive call of the source finds `initialized` set. */
  function FlushCtl(c: Ctl): Result {
    if c.initialized then FlushTracks(c)
    else if TrackReady(c.video) && TrackReady(c.audio) then
      var r := FlushTracks(c.(initialized := true));
      Result(r.ctl, [Ready] + InitSegments(c) + r.events)
    else Result(c, [])
  }

  /** Audio is skipped while there is a video track that is not ready. */
  function Accept(c: Ctl, op: Op): Ctl
    requires op.Remux?
  {
    var video := if c.video.Some? then Some(RemuxVideo(c.video.value, op.video)) else None;
    var audio :=
      if c.audio.Some? && !(video.Some? && !video.value.params.ready)
      then Some(RemuxAudio(c.audio.value, op.audio, op.headerKnown)) else c.audio;
    c.(video := video, audio := audio)
  }

  function ResetCtl(c: Ctl): Ctl {
    c.(initialized := false,
       video := if c.video.Some? then Some(ResetTrack(c.video.value)) else None,
       audio := if c.audio.Some? then Some(ResetTrack(c.audio.value)) else None)
  }

  function Step(c: Ctl, op: Op): Result {
    match op
    case Remux(_, _, _) => FlushCtl(Accept(c, op))
    case Flush => FlushCtl(c)
    case ResetAll => Result(ResetCtl(c), [Reset])
  }

  function Run(c: Ctl, ops: seq<Op>): Result
    decreases |ops|
  {
    if ops == [] then Result(c, []) else
      var before := Run(c, ops[..|ops| - 1]);
      var after := Step(before.ctl, ops[|ops| - 1]);
      Result(after.ctl, before.events + after.events)
  }

  /** A controller as constructed. */
  predicate Fresh(c: Ctl) {
    && !c.initialized && c.seqNo == 1
    && (c.video.Some? ==> c.video.value == Track(Video, c.video.value.id, Params(None, None, false), [], 0, [], 0, 0))
    && (c.audio.Some? ==> c.audio.value == Track(Audio, c.audio.value.id, Params(None, None, false), [], 0, [], 0, 0))
  }

  predicate CtlAccounted(c: Ctl) {
    && (c.video.Some? ==> Accounted(c.video.value) && c.video.value.kind == Video)
    && (c.audio.Some? ==> Accounted(c.audio.value) && c.audio.value.kind == Audio)
  }

  // ----- Byte accounting over runs -----

  lemma FlushMaybeAccounted(t: Option<Track>, seqNo: int)
    requires t.Some? ==> Accounted(t.value)
    ensures var r := FlushMaybe(t, seqNo);
            && r.track.Some? == t.Some?
            && (t.Some? ==> Accounted(r.track.value) && r.track.value.kind == t.value.kind)
  {
    if t.Some? { PayloadAccounted(t.value); }
  }

  lemma FlushAccounted(c: Ctl)
    requires CtlAccounted(c)
    ensures CtlAccounted(FlushCtl(c).ctl)
  {
    FlushMaybeAccounted(c.video, c.seqNo);
    FlushMaybeAccounted(c.audio, FlushMaybe(c.video, c.seqNo).seqNo);
  }

  lemma AcceptAccounted(c: Ctl, op: Op)
    requires CtlAccounted(c) && op.Remux?
    ensures CtlAccounted(Accept(c, op))
  {
    if c.video.Some? { VideoAccounted(c.video.value, op.video); }
    if c.audio.Some? { AudioAccounted(c.audio.value, op.audio, op.headerKnown); }
  }

  lemma StepAccounted(c: Ctl, op: Op)
    requires CtlAccounted(c)
    ensures CtlAccounted(Step(c, op).ctl)
  {
    match op
    case Remux(_, _, _) =>
      AcceptAccounted(c, op);
      FlushAccounted(Accept(c, op));
    case Flush => FlushAccounted(c);
    case ResetAll =>
  }

  /** Between calls `len` is the number of queued bytes, on every track, in every run. */
  lemma {:induction false} RunAccounted(c: Ctl, ops: seq<Op>)
    requires CtlAccounted(c)
    ensures CtlAccounted(Run(c, ops).ctl)
    decreases |ops|
  {
    if ops != [] {
      RunAccounted(c, ops[..|ops| - 1]);
      StepAccounted(Run(c, ops[..|ops| - 1]).ctl, ops[|ops| - 1]);
    }
  }

  // ----- Initialization order -----

  /** A track that can be announced: video needs both parameter sets. */
  predicate Announceable(a: Announced) {
    a.params.ready && (a.kind == Video ==> a.params.sps.Some? && a.params.pps.Some?)
  }

  predicate AllAnnounceable(tracks: seq<Announced>) {
    tracks == [] || (Announceable(tracks[0]) && AllAnnounceable(tracks[1..]))
  }

  /** What an observer of the log finds, who knows which tracks there are: `ok` as long as every fragment
      had the next sequence number and came when all tracks had been announced in its session, its own
      among them, and as long as initialization segments list only tracks there are and that are complete;
      `video` and `audio` tell what has been announced since the last reset. */
  datatype Order = Order(hasVideo: bool, hasAudio: bool, ok: bool, video: bool, audio: bool, count: nat)

  predicate AllAnnounced(o: Order) {
    (o.hasVideo ==> o.video) && (o.hasAudio ==> o.audio)
  }

  predicate IsAnnounced(o: Order, kind: Kind) {
    if kind.Video? then o.video else o.audio
  }

  predicate Lists(tracks: seq<Announced>, kind: Kind) {
    tracks != [] && (tracks[0].kind == kind || Lists(tracks[1..], kind))
  }

  function Observe(o: Order, e: Event): Order {
    match e
    case Ready => o
    case Init(tracks) =>
      var video, audio := Lists(tracks, Video), Lists(tracks, Audio);
      o.(ok := o.ok && AllAnnounceable(tracks) && (video ==> o.hasVideo) && (audio ==> o.hasAudio),
         video := o.video || video, audio := o.audio || audio)
    case Media(kind, w) =>
      o.(ok := o.ok && AllAnnounced(o) && IsAnnounced(o, kind) && w.sequenceNumber == o.count + 1,
         count := o.count + 1)
    case Reset => o.(video := false, audio := false)
  }

  function ObserveAll(o: Order, es: seq<Event>): Order {
    if es == [] then o else Observe(ObserveAll(o, es[..|es| - 1]), es[|es| - 1])
  }

  lemma {:induction false} ObserveAppend(o: Order, a: seq<Event>, b: seq<Event>)
    ensures ObserveAll(o, a + b) == ObserveAll(ObserveAll(o, a), b)
  {
    if b == [] {
      assert a + b == a;
    } else {
      ObserveAppend(o, a, b[..|b| - 1]);
      assert (a + b)[..|a + b| - 1] == a + b[..|b| - 1];
    }
  }

  lemma ObserveOne(o: Order, e: Event)
    ensures ObserveAll(o, [e]) == Observe(o, e)
  {
    assert [e][..0] == [];
  }

  /** The observer stays content and only counts; the next number is as expected. */
  predicate Counted(o: Order, p: Order, seqNo: int) {
    p.ok && p == o.(count := p.count) && seqNo == p.count + 1
  }

  lemma ObserveFlushMaybe(o: Order, t: Option<Track>, seqNo: int)
    requires Counted(o, o, seqNo) && AllAnnounced(o) && (t.Some? ==> IsAnnounced(o, t.value.kind))
    ensures var r := FlushMaybe(t, seqNo); Counted(o, ObserveAll(o, r.events), r.seqNo)
  {
    var es := FlushMaybe(t, seqNo).events;
    if es != [] {
      ObserveOne(o, es[0]);
      assert es == [es[0]];
    }
  }

  /** The observer knows the tracks of the controller and expects its next number. */
  predicate Knows(o: Order, c: Ctl) {
    o.ok && c.seqNo == o.count + 1 && o.hasVideo == c.video.Some? && o.hasAudio == c.audio.Some?
  }

  lemma ObserveTwo(o: Order, v: MaybeResult, a: MaybeResult)
    requires Counted(o, ObserveAll(o, v.events), v.seqNo)
    requires Counted(ObserveAll(o, v.events), ObserveAll(ObserveAll(o, v.events), a.events), a.seqNo)
    ensures Counted(o, ObserveAll(o, v.events + a.events), a.seqNo)
  {
    ObserveAppend(o, v.events, a.events);
  }

  lemma ObserveFlushTracks(o: Order, c: Ctl)
    requires Knows(o, c) && AllAnnounced(o) && CtlParamsOk(c)
    ensures Counted(o, ObserveAll(o, FlushTracks(c).events), FlushTracks(c).ctl.seqNo)
  {
    var v := FlushMaybe(c.video, c.seqNo);
    var a := FlushMaybe(c.audio, v.seqNo);
    ObserveFlushMaybe(o, c.video, c.seqNo);
    ObserveFlushMaybe(ObserveAll(o, v.events), c.audio, v.seqNo);
    ObserveTwo(o, v, a);
  }

  /** A video track is ready only with both parameter sets. */
  predicate ParamsOk(p: Params) {
    p.ready ==> p.sps.Some? && p.pps.Some?
  }

  predicate CtlParamsOk(c: Ctl) {
    && (c.video.Some? ==> c.video.value.kind == Video && ParamsOk(c.video.value.params))
    && (c.audio.Some? ==> c.audio.value.kind == Audio)
  }

  lemma {:induction false} UnitsParamsOk(p: Params, units: seq<Nalu>)
    requires ParamsOk(p)
    ensures ParamsOk(ParseUnits(p, units).params)
    decreases |units|
  {
    if units != [] { UnitsParamsOk(p, units[..|units| - 1]); }
  }

  lemma {:induction false} VideoParamsOk(t: Track, frames: seq<VideoFrame>)
    requires ParamsOk(t.params)
    ensures ParamsOk(RemuxVideo(t, frames).params) && RemuxVideo(t, frames).kind == t.kind
    decreases |frames|
  {
    if frames != [] {
      VideoParamsOk(t, frames[..|frames| - 1]);
      UnitsParamsOk(RemuxVideo(t, frames[..|frames| - 1]).params, frames[|frames| - 1].units);
    }
  }

  lemma {:induction false} AudioKind(t: Track, frames: seq<AudioFrame>, headerKnown: bool)
    ensures RemuxAudio(t, frames, headerKnown).kind == t.kind
    decreases |frames|
  {
    if frames != [] { AudioKind(t, frames[..|frames| - 1], headerKnown); }
  }

  lemma AcceptParamsOk(c: Ctl, op: Op)
    requires CtlParamsOk(c) && op.Remux?
    ensures CtlParamsOk(Accept(c, op))
    ensures Accept(c, op).video.Some? == c.video.Some? && Accept(c, op).audio.Some? == c.audio.Some?
  {
    if c.video.Some? { VideoParamsOk(c.video.value, op.video); }
    if c.audio.Some? { AudioKind(c.audio.value, op.audio, op.headerKnown); }
  }

  lemma AnnounceAll(c: Ctl)
    requires CtlParamsOk(c) && TrackReady(c.video) && TrackReady(c.audio)
    ensures AllAnnounceable(Snapshot(c.video)) && AllAnnounceable(Snapshot(c.audio))
    ensures AllAnnounceable(Snapshot(c.video) + Snapshot(c.audio))
  {
    var v, a := Snapshot(c.video), Snapshot(c.audio);
    if v == [] {
      assert v + a == a;
    } else {
      assert v[1..] == [] && (v + a)[1..] == a;
    }
    assert a != [] ==> a[1..] == [];
  }

  lemma ListsOne(a: Announced, kind: Kind)
    ensures Lists([a], kind) <==> a.kind == kind
  {
    assert [a][1..] == [];
  }

  lemma ListsSnapshots(c: Ctl)
    requires CtlParamsOk(c)
    ensures var v, a := Snapshot(c.video), Snapshot(c.audio);
            && (Lists(v, Video) <==> c.video.Some?) && !Lists(v, Audio)
            && (Lists(a, Audio) <==> c.audio.Some?) && !Lists(a, Video)
            && (Lists(v + a, Video) <==> c.video.Some?) && (Lists(v + a, Audio) <==> c.audio.Some?)
  {
    var v, a := Snapshot(c.video), Snapshot(c.audio);
    if v != [] {
      ListsOne(v[0], Video);
      ListsOne(v[0], Audio);
      assert (v + a)[1..] == a;
    } else {
      assert v + a == a;
    }
    if a != [] {
      ListsOne(a[0], Video);
      ListsOne(a[0], Audio);
    }
  }

  /** The observer once the tracks of a session have been announced. */
  function Opened(o: Order): Order {
    o.(video := o.hasVideo, audio := o.hasAudio)
  }

  lemma ObserveInit(o: Order, c: Ctl)
    requires Knows(o, c) && !o.video && !o.audio
    requires CtlParamsOk(c) && TrackReady(c.video) && TrackReady(c.audio)
    ensures ObserveAll(o, InitSegments(c)) == Opened(o)
  {
    AnnounceAll(c);
    ListsSnapshots(c);
    var v, a := Snapshot(c.video), Snapshot(c.audio);
    ObserveOne(o, Init(v + a));
    var first, second := if c.video.Some? then [Init(v)] else [], if c.audio.Some? then [Init(a)] else [];
    ObserveOne(o, Init(v));
    ObserveOne(ObserveAll(o, first), Init(a));
    ObserveAppend(o, first, second);
  }

  /** In step with the observer: all tracks are announced in this session if the controller is
      initialized, and none otherwise. */
  predicate InStep(c: Ctl, o: Order) {
    && Knows(o, c) && CtlParamsOk(c)
    && o.video == (c.initialized && o.hasVideo) && o.audio == (c.initialized && o.hasAudio)
  }

  lemma FlushTracksKeeps(c: Ctl)
    ensures var d := FlushTracks(c).ctl;
            && d.initialized == c.initialized && (CtlParamsOk(c) ==> CtlParamsOk(d))
            && d.video.Some? == c.video.Some? && d.audio.Some? == c.audio.Some?
  {
  }

  lemma FlushOrdered(c: Ctl, o: Order)
    requires InStep(c, o)
    ensures InStep(FlushCtl(c).ctl, ObserveAll(o, FlushCtl(c).events))
  {
    if c.initialized {
      ObserveFlushTracks(o, c);
      FlushTracksKeeps(c);
    } else if TrackReady(c.video) && TrackReady(c.audio) {
      var d := c.(initialized := true);
      ObserveOne(o, Ready);
      ObserveInit(o, c);
      ObserveAppend(o, [Ready], InitSegments(c));
      ObserveFlushTracks(Opened(o), d);
      ObserveAppend(o, [Ready] + InitSegments(c), FlushTracks(d).events);
      FlushTracksKeeps(d);
    }
  }

  lemma StepOrdered(c: Ctl, op: Op, o: Order)
    requires InStep(c, o)
    ensures InStep(Step(c, op).ctl, ObserveAll(o, Step(c, op).events))
  {
    match op
    case ResetAll => ObserveOne(o, Reset);
    case Flush => FlushOrdered(c, o);
    case Remux(_, _, _) =>
      AcceptParamsOk(c, op);
      FlushOrdered(Accept(c, op), o);
  }

  /** An observer who knows the tracks of a controller and has seen nothing. */
  function Unobserved(c: Ctl): Order {
    Order(c.video.Some?, c.audio.Some?, true, false, false, 0)
  }

  /** In every run, after construction and after each reset, no media fragment is dispatched before the
      initialization segments have announced every track of the controller, each of them ready: for video,
      with a sequence and a picture parameter set captured. A call announces all tracks or none. The
      fragments are numbered 1, 2, 3, ... over all tracks and resets. */
  lemma {:induction false} RunOrdered(c: Ctl, ops: seq<Op>)
    requires !c.initialized && c.seqNo == 1 && CtlParamsOk(c)
    ensures ObserveAll(Unobserved(c), Run(c, ops).events).ok
    ensures InStep(Run(c, ops).ctl, ObserveAll(Unobserved(c), Run(c, ops).events))
    decreases |ops|
  {
    if ops != [] {
      RunOrdered(c, ops[..|ops| - 1]);
      var before := Run(c, ops[..|ops| - 1]);
      var o := ObserveAll(Unobserved(c), before.events);
      StepOrdered(before.ctl, ops[|ops| - 1], o);
      ObserveAppend(Unobserved(c), before.events, Step(before.ctl, ops[|ops| - 1]).events);
    }
  }

  // ----- Audio waits for video -----

  /** The audio that was queued when the run was last reset; nothing before the first reset. */
  function QueuedAtReset(c: Ctl, ops: seq<Op>): seq<Queued>
    decreases |ops|
  {
    if ops == [] then []
    else if ops[|ops| - 1].ResetAll? then
      var d := Run(c, ops[..|ops| - 1]).ctl;
      if d.audio.Some? then d.audio.value.queue else []
    else QueuedAtReset(c, ops[..|ops| - 1])
  }

  /** While the video track is not ready the controller is not initialized and holds no audio but `queue`. */
  predicate AudioWaits(c: Ctl, queue: seq<Queued>) {
    c.video.Some? && !c.video.value.params.ready ==> !c.initialized && (c.audio.Some? ==> c.audio.value.queue == queue)
  }

  lemma AcceptWaits(c: Ctl, op: Op, queue: seq<Queued>)
    requires AudioWaits(c, queue) && op.Remux?
    ensures AudioWaits(Accept(c, op), queue)
  {
    if c.video.Some? && c.video.value.params.ready { VideoKeepsReady(c.video.value, op.video); }
  }

  lemma FlushMaybeParams(t: Option<Track>, seqNo: int)
    ensures var r := FlushMaybe(t, seqNo).track;
            r.Some? == t.Some? && (t.Some? ==> r.value.params == t.value.params)
  {
  }

  lemma FlushWaits(c: Ctl, queue: seq<Queued>)
    requires AudioWaits(c, queue)
    ensures AudioWaits(FlushCtl(c).ctl, queue)
  {
    FlushMaybeParams(c.video, c.seqNo);
  }

  /** In every run, until the video track is ready no audio is accepted: what is queued is what a reset
      found in the queue, and nothing if there has been none. */
  lemma {:induction false} RunAudioWaits(c: Ctl, ops: seq<Op>)
    requires Fresh(c)
    ensures AudioWaits(Run(c, ops).ctl, QueuedAtReset(c, ops))
    decreases |ops|
  {
    if ops != [] {
      var before, op, queue := Run(c, ops[..|ops| - 1]).ctl, ops[|ops| - 1], QueuedAtReset(c, ops[..|ops| - 1]);
      RunAudioWaits(c, ops[..|ops| - 1]);
      match op
      case Remux(_, _, _) =>
        AcceptWaits(before, op, queue);
        FlushWaits(Accept(before, op), queue);
      case Flush => FlushWaits(before, queue);
      case ResetAll =>
    }
  }
}
