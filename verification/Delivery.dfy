/** What is announced and what is delivered, sample by sample, against the frames that were accepted. */
module Delivery {
  import opened Bytes
  import opened Media
  import opened Tracks
  import Mp4
  import opened Mp4Reader
  import opened Controller
  import opened FragmentContent
  import opened ControllerProperties
  import FramerProperties
  import SyncSamples

  // ----- The parameter sets of a session -----

  /** The first unit of a type. */
  function First(units: seq<Nalu>, kind: nat): Option<ByteString> {
    if units == [] then None
    else
      var before, last := First(units[..|units| - 1], kind), units[|units| - 1];
      if before.Some? then before else if last.Type() == kind then Some(last.payload) else None
  }

  /** The units of all video frames handed over since the last reset. */
  function Session(ops: seq<Op>): seq<Nalu> {
    if ops == [] then [] else
      match ops[|ops| - 1]
      case Remux(video, _, _) => Session(ops[..|ops| - 1]) + FramerProperties.FrameUnits(video)
      case Flush => Session(ops[..|ops| - 1])
      case ResetAll => []
  }

  /** A sequence and a picture parameter set are among the units. */
  predicate Complete(units: seq<Nalu>) {
    First(units, 7).Some? && First(units, 8).Some?
  }

  /** The first of each. */
  function Sets(units: seq<Nalu>): Params {
    Params(First(units, 7), First(units, 8), Complete(units))
  }

  lemma FirstSnoc(units: seq<Nalu>, u: Nalu, kind: nat)
    ensures First(units + [u], kind) ==
            if First(units, kind).Some? then First(units, kind)
            else if u.Type() == kind then Some(u.payload) else None
  {
    assert (units + [u])[..|units|] == units;
  }

  lemma ParseKeepsSets(units: seq<Nalu>, u: Nalu)
    ensures ParseNal(Sets(units), u.payload).params == Sets(units + [u])
  {
    FirstSnoc(units, u, 7);
    FirstSnoc(units, u, 8);
  }

  lemma UnitsSplit(a: seq<Nalu>, b: seq<Nalu>)
    requires b != []
    ensures a + b == (a + b[..|b| - 1]) + [b[|b| - 1]]
  {
  }

  lemma {:induction false} UnitsKeepSets(units: seq<Nalu>, more: seq<Nalu>)
    ensures ParseUnits(Sets(units), more).params == Sets(units + more)
    decreases |more|
  {
    if more == [] {
      assert units + more == units;
    } else {
      UnitsKeepSets(units, more[..|more| - 1]);
      ParseKeepsSets(units + more[..|more| - 1], more[|more| - 1]);
      UnitsSplit(units, more);
    }
  }

  lemma FrameUnitsSnoc(units: seq<Nalu>, frames: seq<VideoFrame>)
    requires frames != []
    ensures units + FramerProperties.FrameUnits(frames) ==
            (units + FramerProperties.FrameUnits(frames[..|frames| - 1])) + frames[|frames| - 1].units
  {
    UnitsRegroup(units, FramerProperties.FrameUnits(frames[..|frames| - 1]), frames[|frames| - 1].units);
  }

  lemma UnitsRegroup(a: seq<Nalu>, b: seq<Nalu>, c: seq<Nalu>)
    ensures a + (b + c) == (a + b) + c
  {
  }

  lemma {:induction false} FramesKeepSets(t: Track, units: seq<Nalu>, frames: seq<VideoFrame>)
    requires t.params == Sets(units)
    ensures RemuxVideo(t, frames).params == Sets(units + FramerProperties.FrameUnits(frames))
    decreases |frames|
  {
    if frames == [] {
      assert units + [] == units;
    } else {
      FramesKeepSets(t, units, frames[..|frames| - 1]);
      UnitsKeepSets(units + FramerProperties.FrameUnits(frames[..|frames| - 1]), frames[|frames| - 1].units);
      FrameUnitsSnoc(units, frames);
    }
  }

  predicate Captured(c: Ctl, units: seq<Nalu>) {
    c.video.Some? ==> c.video.value.kind == Video && c.video.value.params == Sets(units)
  }

  predicate SameSets(t: Option<Track>, u: Option<Track>) {
    u.Some? == t.Some? && (t.Some? ==> u.value.params == t.value.params && u.value.kind == t.value.kind)
  }

  lemma TrackKeepsSets(t: Option<Track>, seqNo: int)
    ensures SameSets(t, FlushMaybe(t, seqNo).track)
  {
  }

  lemma TracksKeepSets(c: Ctl)
    ensures var d := FlushTracks(c).ctl;
            d.browser == c.browser && SameSets(c.video, d.video) && SameSets(c.audio, d.audio)
  {
    TrackKeepsSets(c.video, c.seqNo);
    TrackKeepsSets(c.audio, FlushMaybe(c.video, c.seqNo).seqNo);
  }

  lemma FlushKeepsParams(c: Ctl)
    ensures var d := FlushCtl(c).ctl;
            d.browser == c.browser && SameSets(c.video, d.video) && SameSets(c.audio, d.audio)
  {
    TracksKeepSets(c);
    TracksKeepSets(c.(initialized := true));
  }

  lemma AcceptCaptures(c: Ctl, op: Op, units: seq<Nalu>)
    requires Captured(c, units) && op.Remux?
    ensures Captured(Accept(c, op), units + FramerProperties.FrameUnits(op.video))
  {
    if c.video.Some? {
      FramesKeepSets(c.video.value, units, op.video);
      VideoKind(c.video.value, op.video);
    }
  }

  lemma {:induction false} VideoKind(t: Track, frames: seq<VideoFrame>)
    ensures RemuxVideo(t, frames).kind == t.kind
    decreases |frames|
  {
    if frames != [] { VideoKind(t, frames[..|frames| - 1]); }
  }

  /** In every run the parameter sets captured are the first unit of type 7 and the first of type 8 among the
      units handed over since the last reset, and the track is ready exactly when there are both. */
  lemma {:induction false} RunCaptures(c: Ctl, ops: seq<Op>)
    requires Fresh(c)
    ensures Captured(Run(c, ops).ctl, Session(ops))
    decreases |ops|
  {
    if ops != [] {
      var front, op := ops[..|ops| - 1], ops[|ops| - 1];
      RunCaptures(c, front);
      var before := Run(c, front).ctl;
      match op
      case Remux(_, _, _) =>
        AcceptCaptures(before, op, Session(front));
        FlushKeepsParams(Accept(before, op));
      case Flush => FlushKeepsParams(before);
      case ResetAll =>
    }
  }

  /** Since the last reset an audio frame has been accepted while a header was known. */
  predicate HeaderSeen(hasVideo: bool, ops: seq<Op>) {
    ops != [] &&
    var front := ops[..|ops| - 1];
    match ops[|ops| - 1]
    case Remux(_, audio, headerKnown) =>
      HeaderSeen(hasVideo, front) || (audio != [] && headerKnown && (hasVideo ==> Complete(Session(ops))))
    case Flush => HeaderSeen(hasVideo, front)
    case ResetAll => false
  }

  lemma {:induction false} AudioReady(t: Track, frames: seq<AudioFrame>, headerKnown: bool)
    ensures RemuxAudio(t, frames, headerKnown).params.ready <==> t.params.ready || (frames != [] && headerKnown)
    decreases |frames|
  {
    if frames != [] { AudioReady(t, frames[..|frames| - 1], headerKnown); }
  }

  /** In every run the audio track is ready exactly when that is so. */
  lemma {:induction false} RunAudioReady(c: Ctl, ops: seq<Op>)
    requires Fresh(c)
    ensures var d := Run(c, ops).ctl;
            && d.video.Some? == c.video.Some? && d.audio.Some? == c.audio.Some?
            && (c.audio.Some? ==> (d.audio.value.params.ready <==> HeaderSeen(c.video.Some?, ops)))
    decreases |ops|
  {
    if ops != [] {
      var front, op := ops[..|ops| - 1], ops[|ops| - 1];
      RunAudioReady(c, front);
      RunCaptures(c, front);
      var before := Run(c, front).ctl;
      match op
      case Remux(_, _, _) =>
        AcceptCaptures(before, op, Session(front));
        if c.audio.Some? { AudioReady(before.audio.value, op.audio, op.headerKnown); }
        FlushKeepsParams(Accept(before, op));
      case Flush => FlushKeepsParams(before);
      case ResetAll =>
    }
  }

  // ----- What is announced -----

  /** All that is dispatched besides fragments. */
  function Announcements(es: seq<Event>): seq<Event> {
    if es == [] then [] else
      Announcements(es[..|es| - 1]) + if es[|es| - 1].Media? then [] else [es[|es| - 1]]
  }

  lemma {:induction false} AnnouncementsAppend(a: seq<Event>, b: seq<Event>)
    ensures Announcements(a + b) == Announcements(a) + Announcements(b)
    decreases |b|
  {
    if b == [] {
      assert a + b == a;
      assert Announcements(a) + [] == Announcements(a);
    } else {
      AnnouncementsAppend(a, b[..|b| - 1]);
      assert (a + b)[..|a + b| - 1] == a + b[..|b| - 1];
      EventsRegroup(Announcements(a), Announcements(b[..|b| - 1]),
                    if b[|b| - 1].Media? then [] else [b[|b| - 1]]);
    }
  }

  lemma EventsRegroup(a: seq<Event>, b: seq<Event>, c: seq<Event>)
    ensures (a + b) + c == a + (b + c)
  {
  }

  lemma FlushAnnouncesNothing(t: Option<Track>, seqNo: int)
    ensures Announcements(FlushMaybe(t, seqNo).events) == []
  {
    var es := FlushMaybe(t, seqNo).events;
    if es != [] { assert es[..0] == [] && es == [es[0]]; }
  }

  /** A session is announced by the ready signal, and then the tracks: in a browser each by a segment of its
      own, elsewhere all by one; the video track with `sets`. */
  function Opening(browser: bool, hasVideo: bool, hasAudio: bool, sets: Params): seq<Event>
    requires hasVideo || hasAudio
  {
    var video, audio := Announced(Video, sets), Announced(Audio, Params(None, None, true));
    [Ready] +
    if !hasVideo then [Init([audio])]
    else if !hasAudio then [Init([video])]
    else if browser then [Init([video]), Init([audio])]
    else [Init([video, audio])]
  }

  predicate AudioPlain(t: Option<Track>) {
    t.Some? ==> t.value.kind == Audio && t.value.params.sps.None? && t.value.params.pps.None?
  }

  /** Once it is initialized, the tracks of a controller stay ready. */
  predicate Started(c: Ctl) {
    && AudioPlain(c.audio)
    && (c.initialized && c.video.Some? ==> c.video.value.params.ready)
    && (c.initialized && c.audio.Some? ==> c.audio.value.params.ready)
  }

  lemma {:induction false} AudioStaysPlain(t: Track, frames: seq<AudioFrame>, headerKnown: bool)
    requires AudioPlain(Some(t))
    ensures var u := RemuxAudio(t, frames, headerKnown);
            AudioPlain(Some(u)) && (t.params.ready ==> u.params.ready)
    decreases |frames|
  {
    if frames != [] { AudioStaysPlain(t, frames[..|frames| - 1], headerKnown); }
  }

  lemma AcceptStarted(c: Ctl, op: Op)
    requires Started(c) && op.Remux?
    ensures Started(Accept(c, op)) && Accept(c, op).initialized == c.initialized && Accept(c, op).browser == c.browser
    ensures Accept(c, op).video.Some? == c.video.Some? && Accept(c, op).audio.Some? == c.audio.Some?
  {
    if c.video.Some? && c.video.value.params.ready { VideoKeepsReady(c.video.value, op.video); }
    if c.audio.Some? { AudioStaysPlain(c.audio.value, op.audio, op.headerKnown); }
  }

  lemma OpeningIs(c: Ctl, sets: Params)
    requires Started(c) && (c.video.Some? || c.audio.Some?) && TrackReady(c.video) && TrackReady(c.audio)
    requires c.video.Some? ==> c.video.value.kind == Video && c.video.value.params == sets
    ensures [Ready] + InitSegments(c) == Opening(c.browser, c.video.Some?, c.audio.Some?, sets)
  {
    var v, a := Snapshot(c.video), Snapshot(c.audio);
    var video, audio := Announced(Video, sets), Announced(Audio, Params(None, None, true));
    if c.video.None? {
      assert v + a == [audio];
      assert InitSegments(c) == [Init([audio])];
    } else if c.audio.None? {
      assert v + a == [video];
      assert InitSegments(c) == [Init([video])];
    } else {
      assert v == [video] && a == [audio] && v + a == [video, audio];
      assert InitSegments(c) == if c.browser then [Init([video]), Init([audio])] else [Init([video, audio])];
    }
  }

  lemma InitsAreAnnounced(c: Ctl)
    ensures Announcements([Ready] + InitSegments(c)) == [Ready] + InitSegments(c)
  {
    var v, a := Init(Snapshot(c.video)), Init(Snapshot(c.audio));
    OneAnnounced(Ready);
    OneAnnounced(v);
    OneAnnounced(a);
    OneAnnounced(Init(Snapshot(c.video) + Snapshot(c.audio)));
    var first, second := if c.video.Some? then [v] else [], if c.audio.Some? then [a] else [];
    AnnouncementsAppend(first, second);
    AnnouncementsAppend([Ready], InitSegments(c));
  }

  lemma OneAnnounced(e: Event)
    requires !e.Media?
    ensures Announcements([e]) == [e]
  {
    assert [e][..0] == [];
  }

  lemma TracksAnnounceNothing(c: Ctl)
    ensures Announcements(FlushTracks(c).events) == []
  {
    var v := FlushMaybe(c.video, c.seqNo);
    FlushAnnouncesNothing(c.video, c.seqNo);
    FlushAnnouncesNothing(c.audio, v.seqNo);
    AnnouncementsAppend(v.events, FlushMaybe(c.audio, v.seqNo).events);
  }

  /** Nothing is queued on any track. */
  predicate Emptied(c: Ctl) {
    (c.video.Some? ==> c.video.value.queue == []) && (c.audio.Some? ==> c.audio.value.queue == [])
  }

  lemma TracksEmptied(c: Ctl)
    requires (c.video.Some? ==> c.video.value.params.ready) && (c.audio.Some? ==> c.audio.value.params.ready)
    ensures Emptied(FlushTracks(c).ctl)
  {
  }

  /** All tracks are ready and have something queued. */
  predicate AllWaiting(c: Ctl) {
    && (c.video.Some? ==> c.video.value.params.ready && c.video.value.queue != [])
    && (c.audio.Some? ==> c.audio.value.params.ready && c.audio.value.queue != [])
  }

  lemma FlushOpens(c: Ctl, sets: Params)
    requires Started(c) && (c.video.Some? || c.audio.Some?)
    requires c.video.Some? ==> c.video.value.kind == Video && c.video.value.params == sets
    ensures var r := FlushCtl(c);
            && Started(r.ctl) && (r.ctl.initialized <==> c.initialized || AllWaiting(c))
            && (r.ctl.initialized ==> Emptied(r.ctl))
            && Announcements(r.events) == if !c.initialized && AllWaiting(c)
                                          then Opening(c.browser, c.video.Some?, c.audio.Some?, sets) else []
  {
    FlushKeepsParams(c);
    if c.initialized {
      TracksAnnounceNothing(c);
      TracksEmptied(c);
    } else if AllWaiting(c) {
      var d := c.(initialized := true);
      TracksAnnounceNothing(d);
      TracksEmptied(d);
      InitsAreAnnounced(c);
      OpeningIs(c, sets);
      AnnouncementsAppend([Ready] + InitSegments(c), FlushTracks(d).events);
      assert Announcements([Ready] + InitSegments(c)) + [] == [Ready] + InitSegments(c);
    }
  }

  lemma RunTracks(c: Ctl, ops: seq<Op>)
    requires Fresh(c)
    ensures var d := Run(c, ops).ctl;
            d.browser == c.browser && d.video.Some? == c.video.Some? && d.audio.Some? == c.audio.Some?
    decreases |ops|
  {
    if ops != [] {
      RunTracks(c, ops[..|ops| - 1]);
      var before, op := Run(c, ops[..|ops| - 1]).ctl, ops[|ops| - 1];
      FlushKeepsParams(before);
      if op.Remux? { FlushKeepsParams(Accept(before, op)); }
    }
  }

  lemma {:induction false} RunStarted(c: Ctl, ops: seq<Op>)
    requires Fresh(c) && (c.video.Some? || c.audio.Some?)
    ensures Started(Run(c, ops).ctl)
    decreases |ops|
  {
    if ops != [] {
      var front, op := ops[..|ops| - 1], ops[|ops| - 1];
      RunStarted(c, front);
      RunTracks(c, front);
      RunCaptures(c, front);
      var before := Run(c, front).ctl;
      match op
      case Remux(_, _, _) =>
        AcceptStarted(before, op);
        AcceptCaptures(before, op, Session(front));
        FlushOpens(Accept(before, op), Sets(Session(front) + FramerProperties.FrameUnits(op.video)));
      case Flush => FlushOpens(before, Sets(Session(front)));
      case ResetAll =>
    }
  }

  /** The tracks of the fragments, in order. */
  function Senders(es: seq<Event>): seq<Kind> {
    if es == [] then [] else
      Senders(es[..|es| - 1]) + if es[|es| - 1].Media? then [es[|es| - 1].kind] else []
  }

  lemma {:induction false} SendersAppend(a: seq<Event>, b: seq<Event>)
    ensures Senders(a + b) == Senders(a) + Senders(b)
    decreases |b|
  {
    if b == [] {
      assert a + b == a;
      assert Senders(a) + [] == Senders(a);
    } else {
      var front, last := b[..|b| - 1], b[|b| - 1];
      SendersAppend(a, front);
      assert (a + b)[..|a + b| - 1] == a + front;
      KindsRegroup(Senders(a), Senders(front), if last.Media? then [last.kind] else []);
    }
  }

  lemma KindsRegroup(a: seq<Kind>, b: seq<Kind>, c: seq<Kind>)
    ensures (a + b) + c == a + (b + c)
  {
  }

  lemma TrackSends(t: Option<Track>, seqNo: int)
    requires t.Some? ==> Accounted(t.value)
    ensures Senders(FlushMaybe(t, seqNo).events) == if t.Some? && Sends(t.value) then [t.value.kind] else []
  {
    if t.Some? {
      FlushTrackIs(t.value, seqNo);
      if Sends(t.value) {
        assert t.value.queue != [];
        var es := FlushTrack(t.value, seqNo).events;
        assert es == [es[0]] && es[..0] == [];
      }
    }
  }

  /** The tracks that are ready and have bytes to send, video first. */
  function Sending(c: Ctl): seq<Kind> {
    (if c.video.Some? && Sends(c.video.value) then [Video] else [])
    + if c.audio.Some? && Sends(c.audio.value) then [Audio] else []
  }

  lemma TracksSend(c: Ctl)
    requires CtlAccounted(c)
    ensures Senders(FlushTracks(c).events) == Sending(c)
  {
    var v := FlushMaybe(c.video, c.seqNo);
    TrackSends(c.video, c.seqNo);
    TrackSends(c.audio, v.seqNo);
    SendersAppend(v.events, FlushMaybe(c.audio, v.seqNo).events);
  }

  lemma OpeningSendsNothing(c: Ctl)
    ensures Senders([Ready] + InitSegments(c)) == []
  {
    var v, a := Init(Snapshot(c.video)), Init(Snapshot(c.audio));
    OneSendsNothing(Ready);
    OneSendsNothing(v);
    OneSendsNothing(a);
    OneSendsNothing(Init(Snapshot(c.video) + Snapshot(c.audio)));
    var first, second := if c.video.Some? then [v] else [], if c.audio.Some? then [a] else [];
    SendersAppend(first, second);
    SendersAppend([Ready], InitSegments(c));
  }

  lemma OneSendsNothing(e: Event)
    requires !e.Media?
    ensures Senders([e]) == []
  {
    assert [e][..0] == [];
  }

  lemma OpeningSends(c: Ctl, d: Ctl)
    requires CtlAccounted(d) && d.video == c.video && d.audio == c.audio
    ensures Senders(([Ready] + InitSegments(c)) + FlushTracks(d).events) == Sending(c)
  {
    TracksSend(d);
    OpeningSendsNothing(c);
    SendersAppend([Ready] + InitSegments(c), FlushTracks(d).events);
    assert [] + Sending(d) == Sending(d) == Sending(c);
  }

  /** A flush of an open session, or one that opens it, sends one fragment for each track that has bytes to send,
      video first; otherwise none. */
  lemma FlushSends(c: Ctl)
    requires CtlAccounted(c)
    ensures Senders(FlushCtl(c).events) == if c.initialized || AllWaiting(c) then Sending(c) else []
  {
    if c.initialized {
      TracksSend(c);
    } else if AllWaiting(c) {
      OpeningSends(c, c.(initialized := true));
    }
  }

  /** After any run, the next call opens a session exactly when none is open and all tracks are ready and have
      something queued; then it announces the tracks with the first parameter sets handed over since the last
      reset, and otherwise it announces nothing. Once a session is open, every call empties the queues. */
  lemma NextCallAnnounces(c: Ctl, ops: seq<Op>, op: Op)
    requires Fresh(c) && (c.video.Some? || c.audio.Some?) && !op.ResetAll?
    ensures var before := Run(c, ops).ctl;
            var d, r := BeforeFlush(before, op), Step(before, op);
            && (r.ctl.initialized <==> before.initialized || AllWaiting(d))
            && (r.ctl.initialized ==> Emptied(r.ctl))
            && Announcements(r.events) == if !before.initialized && AllWaiting(d)
                 then Opening(c.browser, c.video.Some?, c.audio.Some?, Sets(Session(ops + [op]))) else []
  {
    RunStarted(c, ops);
    RunTracks(c, ops);
    RunCaptures(c, ops);
    var before := Run(c, ops).ctl;
    assert (ops + [op])[..|ops|] == ops;
    if op.Remux? {
      AcceptStarted(before, op);
      AcceptCaptures(before, op, Session(ops));
    }
    FlushOpens(BeforeFlush(before, op), Sets(Session(ops + [op])));
  }

  // ----- What is delivered -----

  /** The samples a reader finds in the fragments of a track, in order. */
  function SamplesRead(kind: Kind, es: seq<Event>): seq<SampleView> {
    if es == [] then [] else SamplesRead(kind, es[..|es| - 1]) + SamplesIn(kind, es[|es| - 1])
  }

  function SamplesIn(kind: Kind, e: Event): seq<SampleView> {
    if e.Media? && e.kind == kind && ReadFragment(e.fragment.Bytes()).Some?
    then ReadFragment(e.fragment.Bytes()).value.samples else []
  }

  /** What a reader will find of the samples that are queued or left over. */
  function Waiting(t: Track): seq<SampleView> {
    Views(FragmentSamples(t), FragmentDatas(t))
  }

  /** One sample a frame: its duration, its marks as the standard writes them, presented when decoded, and
      its slices and parameter sets behind their lengths. */
  function VideoView(frame: VideoFrame): SampleView {
    SampleView(ToUint32(frame.duration), SyncSamples.SyncFlags(frame.keyFrame), 0, if frame.keyFrame then 32 else 16,
               AvcSample(SlicesAndSets(frame.units)))
  }

  /** Every audio sample is a sync sample that depends on others, as far as its marks say. */
  function AudioView(frame: AudioFrame): SampleView {
    SampleView(ToUint32(frame.duration), [1, 0, 0, 0], 0, 16, frame.payload)
  }

  /** Of the frames that follow `units`: those with a duration and something to send, from the one on with
      which the parameter sets are complete. */
  function AcceptedVideo(units: seq<Nalu>, frames: seq<VideoFrame>): seq<SampleView> {
    if frames == [] then [] else
      var last := frames[|frames| - 1];
      AcceptedVideo(units, frames[..|frames| - 1]) +
      if last.duration > 0 && SlicesAndSets(last.units) != [] && Complete(units + FramerProperties.FrameUnits(frames))
      then [VideoView(last)] else []
  }

  function AcceptedAudio(frames: seq<AudioFrame>): seq<SampleView> {
    if frames == [] then [] else
      var last := frames[|frames| - 1];
      AcceptedAudio(frames[..|frames| - 1]) + if last.duration > 0 then [AudioView(last)] else []
  }

  /** All of a run. */
  function VideoSamples(ops: seq<Op>): seq<SampleView> {
    if ops == [] then [] else
      var front, op := ops[..|ops| - 1], ops[|ops| - 1];
      VideoSamples(front) + if op.Remux? then AcceptedVideo(Session(front), op.video) else []
  }

  /** Audio counts once the parameter sets of the video, if there is any, are complete. */
  function AudioSamples(hasVideo: bool, ops: seq<Op>): seq<SampleView> {
    if ops == [] then [] else
      var front, op := ops[..|ops| - 1], ops[|ops| - 1];
      AudioSamples(hasVideo, front) +
      if op.Remux? && (hasVideo ==> Complete(Session(ops))) then AcceptedAudio(op.audio) else []
  }

  lemma {:induction false} SamplesAppend(kind: Kind, a: seq<Event>, b: seq<Event>)
    ensures SamplesRead(kind, a + b) == SamplesRead(kind, a) + SamplesRead(kind, b)
    decreases |b|
  {
    if b == [] {
      assert a + b == a;
      assert SamplesRead(kind, a) + [] == SamplesRead(kind, a);
    } else {
      SamplesAppend(kind, a, b[..|b| - 1]);
      SplitLast(a, b);
      SamplesSnoc(kind, a + b[..|b| - 1], b[|b| - 1]);
      ViewsRegroup(SamplesRead(kind, a), SamplesRead(kind, b[..|b| - 1]), SamplesIn(kind, b[|b| - 1]));
    }
  }

  lemma SamplesSnoc(kind: Kind, es: seq<Event>, e: Event)
    ensures SamplesRead(kind, es + [e]) == SamplesRead(kind, es) + SamplesIn(kind, e)
  {
    assert (es + [e])[..|es|] == es;
  }

  lemma ViewsRegroup(a: seq<SampleView>, b: seq<SampleView>, c: seq<SampleView>)
    ensures (a + b) + c == a + (b + c)
  {
  }

  lemma SamplesOne(kind: Kind, e: Event)
    ensures SamplesRead(kind, [e]) == SamplesIn(kind, e)
  {
    assert [e][..0] == [];
    assert [] + SamplesIn(kind, e) == SamplesIn(kind, e);
  }

  lemma NothingWaits(t: Track)
    requires t.done == [] && t.queue == []
    ensures Waiting(t) == []
  {
    assert FragmentSamples(t) == [];
  }

  /** One turn of `flush` hands the reader what has been waiting, or keeps it. */
  lemma FlushDelivers(t: Track, seqNo: int, kind: Kind)
    requires Accounted(t) && Fits(t, seqNo)
    ensures var f := FlushTrack(t, seqNo);
            if kind == t.kind then SamplesRead(kind, f.events) + Waiting(f.track) == Waiting(t)
            else SamplesRead(kind, f.events) == []
  {
    FlushTrackIs(t, seqNo);
    var f := FlushTrack(t, seqNo);
    if !t.params.ready || t.queue == [] {
      assert [] + Waiting(t) == Waiting(t);
    } else if Sizes(Timed(t.queue)) == 0 {
      UnsentDatas(t);
      UnsentSamples(t);
      assert [] + Waiting(t) == Waiting(t);
    } else {
      SentDelivers(t, seqNo, kind);
      NothingWaits(f.track);
      assert Waiting(t) + [] == Waiting(t);
    }
  }

  lemma SentDelivers(t: Track, seqNo: int, kind: Kind)
    requires Accounted(t) && |FragmentFor(t, seqNo).Bytes()| < TWO_31
    ensures SamplesRead(kind, [Media(t.kind, FragmentFor(t, seqNo))]) == if kind == t.kind then Waiting(t) else []
  {
    SamplesOne(kind, Media(t.kind, FragmentFor(t, seqNo)));
    FragmentReads(t, seqNo);
  }

  lemma UnsentSamples(t: Track)
    ensures FragmentSamples(Unsent(t)) == FragmentSamples(t)
  {
    assert FragmentSamples(t) + ToSamples(t.kind, []) == FragmentSamples(t);
  }

  /** One more entry in the queue. */
  lemma QueueGrows(t: Track, u: Track, q: Queued)
    requires u.kind == t.kind && u.done == t.done && u.queue == t.queue + [q]
    ensures Waiting(u) ==
            Waiting(t) + if q.duration > 0 then [ViewOf(ToSample(t.kind, q), SampleData(t.kind, q.units))] else []
  {
    TimedSnoc(t.queue, q);
    var kept := Timed(t.queue);
    if q.duration > 0 {
      assert (kept + [q])[..|kept|] == kept;
      var s, d := ToSample(t.kind, q), SampleData(t.kind, q.units);
      ViewsAppend(FragmentSamples(t), FragmentDatas(t), [s], [d]);
      GrowsBy(t.done, ToSamples(t.kind, kept), s);
      GrowsBy(NoData(|t.done|), Datas(t.kind, kept), d);
      OneSample(s, d);
    } else {
      assert kept + [] == kept && Waiting(t) + [] == Waiting(t);
    }
  }

  lemma OneSample(s: Mp4.Sample, d: ByteString)
    ensures Views([s], [d]) == [ViewOf(s, d)]
  {
    assert [s][1..] == [];
    assert [d][1..] == [];
  }

  lemma GrowsBy<T>(a: seq<T>, b: seq<T>, x: T)
    ensures a + (b + [x]) == (a + b) + [x]
  {
  }

  /** A video frame, as it is queued, is what the reader is to find. */
  lemma VideoViewIs(frame: VideoFrame, q: Queued)
    requires q.units == SlicesAndSets(frame.units) && q.size == |SampleData(Video, q.units)|
    requires q.duration == frame.duration && q.keyFrame == frame.keyFrame
    ensures ViewOf(ToSample(Video, q), SampleData(Video, q.units)) == VideoView(frame)
  {
    VideoSampleData(q.units);
  }

  lemma FrameDelivered(t: Track, units: seq<Nalu>, frame: VideoFrame)
    requires t.kind == Video && t.params == Sets(units)
    ensures var u := RemuxVideoFrame(t, frame);
            && u.params == Sets(units + frame.units) && u.kind == Video && u.done == t.done
            && Waiting(u) == Waiting(t) +
               if frame.duration > 0 && SlicesAndSets(frame.units) != [] && Complete(units + frame.units)
               then [VideoView(frame)] else []
  {
    var u, kept := RemuxVideoFrame(t, frame), ParseUnits(t.params, frame.units);
    KeptAre(t.params, frame.units);
    UnitsKeepSets(units, frame.units);
    if kept.units != [] && kept.params.ready {
      var q := Queued(kept.units, |SampleData(Video, kept.units)|, frame.duration, frame.keyFrame);
      QueueGrows(t, u, q);
      VideoViewIs(frame, q);
    } else {
      assert Waiting(t) + [] == Waiting(t);
    }
  }

  lemma {:induction false} FramesDelivered(t: Track, units: seq<Nalu>, frames: seq<VideoFrame>)
    requires t.kind == Video && t.params == Sets(units)
    ensures var u := RemuxVideo(t, frames);
            && u.params == Sets(units + FramerProperties.FrameUnits(frames)) && u.kind == Video && u.done == t.done
            && Waiting(u) == Waiting(t) + AcceptedVideo(units, frames)
    decreases |frames|
  {
    if frames == [] {
      assert units + [] == units && Waiting(t) + [] == Waiting(t);
    } else {
      var front, last := frames[..|frames| - 1], frames[|frames| - 1];
      FramesDelivered(t, units, front);
      FrameDelivered(RemuxVideo(t, front), units + FramerProperties.FrameUnits(front), last);
      FrameUnitsSnoc(units, frames);
      ViewsRegroup(Waiting(t), AcceptedVideo(units, front),
                   if last.duration > 0 && SlicesAndSets(last.units) != []
                      && Complete(units + FramerProperties.FrameUnits(frames)) then [VideoView(last)] else []);
    }
  }

  lemma PayloadDelivered(t: Track, frame: AudioFrame, headerKnown: bool)
    requires t.kind == Audio
    ensures var u := RemuxAudioFrame(t, frame, headerKnown);
            && u.kind == Audio && u.done == t.done
            && Waiting(u) == Waiting(t) + if frame.duration > 0 then [AudioView(frame)] else []
  {
    var q := Queued([frame.payload], |frame.payload|, frame.duration, false);
    QueueGrows(t, RemuxAudioFrame(t, frame, headerKnown), q);
    AudioSampleData(frame.payload);
  }

  lemma {:induction false} PayloadsDelivered(t: Track, frames: seq<AudioFrame>, headerKnown: bool)
    requires t.kind == Audio
    ensures var u := RemuxAudio(t, frames, headerKnown);
            u.kind == Audio && u.done == t.done && Waiting(u) == Waiting(t) + AcceptedAudio(frames)
    decreases |frames|
  {
    if frames == [] {
      assert Waiting(t) + [] == Waiting(t);
    } else {
      var front, last := frames[..|frames| - 1], frames[|frames| - 1];
      PayloadsDelivered(t, front, headerKnown);
      PayloadDelivered(RemuxAudio(t, front, headerKnown), last, headerKnown);
      ViewsRegroup(Waiting(t), AcceptedAudio(front), if last.duration > 0 then [AudioView(last)] else []);
    }
  }

  // ----- Runs -----

  /** What has been read of a track, followed by what waits, is `all`. */
  predicate Delivers(t: Option<Track>, kind: Kind, es: seq<Event>, all: seq<SampleView>) {
    t.Some? ==> t.value.kind == kind && Accounted(t.value) && SamplesRead(kind, es) + Waiting(t.value) == all
  }

  lemma FlushMaybeDelivers(t: Option<Track>, kind: Kind, seqNo: int, es: seq<Event>, all: seq<SampleView>)
    requires Delivers(t, kind, es, all) && (t.Some? ==> Fits(t.value, seqNo))
    ensures var r := FlushMaybe(t, seqNo);
            Delivers(r.track, kind, es + r.events, all)
  {
    if t.Some? {
      var f := FlushTrack(t.value, seqNo);
      FlushDelivers(t.value, seqNo, kind);
      PayloadAccounted(t.value);
      SamplesAppend(kind, es, f.events);
      ViewsRegroup(SamplesRead(kind, es), SamplesRead(kind, f.events), Waiting(f.track));
    }
  }

  /** Fragments of the other track do not matter. */
  lemma OtherDelivers(t: Option<Track>, kind: Kind, other: Option<Track>, seqNo: int, es: seq<Event>,
                      all: seq<SampleView>)
    requires Delivers(t, kind, es, all) && (other.Some? ==> Accounted(other.value) && other.value.kind != kind)
    requires other.Some? ==> Fits(other.value, seqNo)
    ensures Delivers(t, kind, es + FlushMaybe(other, seqNo).events, all)
  {
    var more := FlushMaybe(other, seqNo).events;
    SamplesAppend(kind, es, more);
    if other.Some? { FlushDelivers(other.value, seqNo, kind); }
    assert SamplesRead(kind, es) + [] == SamplesRead(kind, es);
  }

  predicate BothDeliver(c: Ctl, es: seq<Event>, video: seq<SampleView>, audio: seq<SampleView>) {
    Delivers(c.video, Video, es, video) && Delivers(c.audio, Audio, es, audio)
  }

  lemma FlushTracksDeliver(c: Ctl, es: seq<Event>, video: seq<SampleView>, audio: seq<SampleView>)
    requires BothDeliver(c, es, video, audio) && Small(FlushTracks(c).events)
    ensures BothDeliver(FlushTracks(c).ctl, es + FlushTracks(c).events, video, audio)
  {
    var v := FlushMaybe(c.video, c.seqNo);
    var a := FlushMaybe(c.audio, v.seqNo);
    SmallAppend(v.events, a.events);
    if c.video.Some? { SmallFits(c.video.value, c.seqNo); }
    if c.audio.Some? { SmallFits(c.audio.value, v.seqNo); }
    FlushMaybeDelivers(c.video, Video, c.seqNo, es, video);
    OtherDelivers(c.audio, Audio, c.video, c.seqNo, es, audio);
    FlushMaybeDelivers(c.audio, Audio, v.seqNo, es + v.events, audio);
    OtherDelivers(v.track, Video, c.audio, v.seqNo, es + v.events, video);
    EventsRegroup(es, v.events, a.events);
  }

  lemma NoSamples(kind: Kind, es: seq<Event>, more: seq<Event>)
    requires SamplesRead(kind, more) == []
    ensures SamplesRead(kind, es + more) == SamplesRead(kind, es)
  {
    SamplesAppend(kind, es, more);
    assert SamplesRead(kind, es) + [] == SamplesRead(kind, es);
  }

  lemma AnnouncementsEmpty(c: Ctl, kind: Kind)
    ensures SamplesRead(kind, [Ready] + InitSegments(c)) == [] && Small([Ready] + InitSegments(c))
  {
    var v, a := Init(Snapshot(c.video)), Init(Snapshot(c.audio));
    SamplesOne(kind, Ready);
    SamplesOne(kind, v);
    SamplesOne(kind, a);
    SamplesOne(kind, Init(Snapshot(c.video) + Snapshot(c.audio)));
    var first, second := if c.video.Some? then [v] else [], if c.audio.Some? then [a] else [];
    SamplesAppend(kind, first, second);
    SamplesAppend(kind, [Ready], InitSegments(c));
    AnnouncementsSkipped(NothingRead(c), c);
  }

  lemma FlushDeliversAll(c: Ctl, es: seq<Event>, video: seq<SampleView>, audio: seq<SampleView>)
    requires BothDeliver(c, es, video, audio) && Small(FlushCtl(c).events)
    ensures BothDeliver(FlushCtl(c).ctl, es + FlushCtl(c).events, video, audio)
  {
    if c.initialized {
      FlushTracksDeliver(c, es, video, audio);
    } else if TrackReady(c.video) && TrackReady(c.audio) {
      var d, opening := c.(initialized := true), [Ready] + InitSegments(c);
      AnnouncementsEmpty(c, Video);
      AnnouncementsEmpty(c, Audio);
      NoSamples(Video, es, opening);
      NoSamples(Audio, es, opening);
      SmallAppend(opening, FlushTracks(d).events);
      FlushTracksDeliver(d, es + opening, video, audio);
      EventsRegroup(es, opening, FlushTracks(d).events);
    } else {
      assert es + [] == es;
    }
  }

  lemma AcceptDelivers(c: Ctl, op: Op, es: seq<Event>, units: seq<Nalu>, video: seq<SampleView>,
                       audio: seq<SampleView>)
    requires BothDeliver(c, es, video, audio) && Captured(c, units) && op.Remux?
    ensures var all := units + FramerProperties.FrameUnits(op.video);
            BothDeliver(Accept(c, op), es, video + AcceptedVideo(units, op.video),
                        audio + if c.video.Some? ==> Complete(all) then AcceptedAudio(op.audio) else [])
  {
    if c.video.Some? {
      VideoAccounted(c.video.value, op.video);
      FramesDelivered(c.video.value, units, op.video);
      ViewsRegroup(SamplesRead(Video, es), Waiting(c.video.value), AcceptedVideo(units, op.video));
    }
    if c.audio.Some? {
      AudioAccounted(c.audio.value, op.audio, op.headerKnown);
      PayloadsDelivered(c.audio.value, op.audio, op.headerKnown);
      ViewsRegroup(SamplesRead(Audio, es), Waiting(c.audio.value), AcceptedAudio(op.audio));
      assert audio + [] == audio;
    }
  }

  /** For every run from a fresh controller, with fragments below 2 GiB: the samples a reader finds in the
      fragments of a track, followed by those that wait, are one for each accepted frame, in order, with the
      duration, the marks, no composition offset, and exactly the bytes of that frame. */
  lemma {:induction false} RunDelivers(c: Ctl, ops: seq<Op>)
    requires Fresh(c) && Small(Run(c, ops).events)
    ensures BothDeliver(Run(c, ops).ctl, Run(c, ops).events, VideoSamples(ops), AudioSamples(c.video.Some?, ops))
    decreases |ops|
  {
    if ops == [] {
      if c.video.Some? { NothingWaits(c.video.value); }
      if c.audio.Some? { NothingWaits(c.audio.value); }
    } else {
      var front, op := ops[..|ops| - 1], ops[|ops| - 1];
      SmallAppend(Run(c, front).events, Step(Run(c, front).ctl, op).events);
      RunDelivers(c, front);
      RunCaptures(c, front);
      RunTracks(c, front);
      StepDelivers(c, front, op);
    }
  }

  lemma StepDelivers(c: Ctl, ops: seq<Op>, op: Op)
    requires var r := Run(c, ops);
             && BothDeliver(r.ctl, r.events, VideoSamples(ops), AudioSamples(c.video.Some?, ops))
             && Captured(r.ctl, Session(ops)) && r.ctl.video.Some? == c.video.Some? && Small(Step(r.ctl, op).events)
    ensures var r, more := Run(c, ops), ops + [op];
            BothDeliver(Step(r.ctl, op).ctl, r.events + Step(r.ctl, op).events,
                        VideoSamples(more), AudioSamples(c.video.Some?, more))
  {
    var r, more := Run(c, ops), ops + [op];
    assert more[..|ops|] == ops;
    match op
    case Remux(_, _, _) =>
      AcceptDelivers(r.ctl, op, r.events, Session(ops), VideoSamples(ops), AudioSamples(c.video.Some?, ops));
      FlushDeliversAll(Accept(r.ctl, op), r.events, VideoSamples(more), AudioSamples(c.video.Some?, more));
    case Flush =>
      assert VideoSamples(ops) + [] == VideoSamples(ops);
      assert AudioSamples(c.video.Some?, ops) + [] == AudioSamples(c.video.Some?, ops);
      FlushDeliversAll(r.ctl, r.events, VideoSamples(ops), AudioSamples(c.video.Some?, ops));
    case ResetAll =>
      assert VideoSamples(ops) + [] == VideoSamples(ops);
      assert AudioSamples(c.video.Some?, ops) + [] == AudioSamples(c.video.Some?, ops);
      SamplesOne(Video, Reset);
      SamplesOne(Audio, Reset);
      NoSamples(Video, r.events, [Reset]);
      NoSamples(Audio, r.events, [Reset]);
  }
}
