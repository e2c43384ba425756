/** Which samples a reader may start from: the sync flags that are written, against the NAL units. */
module SyncSamples {
  import opened Bytes
  import opened Media
  import opened Tracks
  import opened Mp4Reader
  import opened Controller
  import opened FragmentContent
  import opened ControllerProperties
  import FramerProperties

  predicate HasIdrIn(nals: seq<ByteString>) {
    nals != [] && (NalType(nals[|nals| - 1]) == 5 || HasIdrIn(nals[..|nals| - 1]))
  }

  /** sample_depends_on 2 and sample_is_non_sync_sample 0, or 1 and 1 (section 8.8.3.1 of ISO/IEC 14496-12). */
  function SyncFlags(sync: bool): ByteString {
    if sync then [2, 0, 0, 0] else [1, 1, 0, 0]
  }

  /** A sample is marked as a sync sample exactly when the NAL units read from it include an IDR slice. */
  predicate Marked(v: SampleView) {
    var nals := ReadNals(v.data);
    nals.Some? && v.flags == SyncFlags(HasIdrIn(nals.value))
  }

  predicate AllMarked(views: seq<SampleView>) {
    views == [] || (Marked(views[0]) && AllMarked(views[1..]))
  }

  predicate FragmentMarked(e: Event) {
    e.Media? && e.kind.Video? ==>
      var f := ReadFragment(e.fragment.Bytes());
      f.Some? && AllMarked(f.value.samples)
  }

  /** All dispatched video fragments are. */
  predicate LogMarked(es: seq<Event>) {
    es == [] || (FragmentMarked(es[|es| - 1]) && LogMarked(es[..|es| - 1]))
  }

  lemma {:induction false} LogMarkedAppend(a: seq<Event>, b: seq<Event>)
    requires LogMarked(a) && LogMarked(b)
    ensures LogMarked(a + b)
  {
    if b == [] {
      assert a + b == a;
    } else {
      LogMarkedAppend(a, b[..|b| - 1]);
      SplitLast(a, b);
      LogMarkedSnoc(a + b[..|b| - 1], b[|b| - 1]);
    }
  }

  lemma LogMarkedSnoc(es: seq<Event>, e: Event)
    requires LogMarked(es) && FragmentMarked(e)
    ensures LogMarked(es + [e])
  {
    assert (es + [e])[..|es|] == es;
  }

  lemma LogMarkedOne(e: Event)
    requires FragmentMarked(e)
    ensures LogMarked([e])
  {
    assert [e][..0] == [];
  }

  // ----- The queue -----

  predicate QueueMarked(queue: seq<Queued>) {
    queue == [] ||
    (queue[|queue| - 1].keyFrame == HasIdrIn(queue[|queue| - 1].units) && QueueMarked(queue[..|queue| - 1]))
  }

  lemma QueueMarkedSnoc(queue: seq<Queued>, q: Queued)
    requires QueueMarked(queue) && q.keyFrame == HasIdrIn(q.units)
    ensures QueueMarked(queue + [q])
  {
    assert (queue + [q])[..|queue|] == queue;
  }

  lemma {:induction false} TimedMarked(queue: seq<Queued>)
    requires QueueMarked(queue)
    ensures QueueMarked(Timed(queue))
    decreases |queue|
  {
    if queue != [] {
      var front, last := queue[..|queue| - 1], queue[|queue| - 1];
      TimedMarked(front);
      QueueMarkedSnoc(Timed(front), last);
      assert Timed(front) + [] == Timed(front);
    }
  }

  lemma HasIdrSnoc(nals: seq<ByteString>, nal: ByteString)
    ensures HasIdrIn(nals + [nal]) <==> HasIdrIn(nals) || NalType(nal) == 5
  {
    assert (nals + [nal])[..|nals|] == nals;
  }

  /** Keeping slices and parameter sets keeps the IDR slices. */
  lemma {:induction false} IdrIsKept(units: seq<Nalu>)
    ensures HasIdrIn(SlicesAndSets(units)) == FramerProperties.HasIdr(units)
    decreases |units|
  {
    if units != [] {
      var front, last := units[..|units| - 1], units[|units| - 1];
      IdrIsKept(front);
      HasIdrSnoc(SlicesAndSets(front), last.payload);
      assert SlicesAndSets(front) + [] == SlicesAndSets(front);
    }
  }

  /** Frames as the framer makes them: a keyframe exactly when there is an IDR unit. */
  predicate FramesMarked(frames: seq<VideoFrame>) {
    frames == [] ||
    (frames[|frames| - 1].keyFrame == FramerProperties.HasIdr(frames[|frames| - 1].units)
     && FramesMarked(frames[..|frames| - 1]))
  }

  lemma {:induction false} RemuxMarked(t: Track, frames: seq<VideoFrame>)
    requires QueueMarked(t.queue) && FramesMarked(frames)
    ensures QueueMarked(RemuxVideo(t, frames).queue)
    decreases |frames|
  {
    if frames != [] {
      var u, frame := RemuxVideo(t, frames[..|frames| - 1]), frames[|frames| - 1];
      RemuxMarked(t, frames[..|frames| - 1]);
      KeptAre(u.params, frame.units);
      IdrIsKept(frame.units);
      var kept := ParseUnits(u.params, frame.units);
      QueueMarkedSnoc(u.queue, Queued(kept.units, |SampleData(Video, kept.units)|, frame.duration, frame.keyFrame));
    }
  }

  // ----- A fragment -----

  lemma {:induction false} AllMarkedAppend(a: seq<SampleView>, b: seq<SampleView>)
    requires AllMarked(a) && AllMarked(b)
    ensures AllMarked(a + b)
  {
    if a == [] {
      assert a + b == b;
    } else {
      assert (a + b)[1..] == a[1..] + b;
      AllMarkedAppend(a[1..], b);
    }
  }

  lemma ViewMarked(q: Queued)
    requires q.keyFrame == HasIdrIn(q.units) && |SampleData(Video, q.units)| < TWO_31
    ensures AllMarked(Views([ToSample(Video, q)], [SampleData(Video, q.units)]))
  {
    VideoSampleData(q.units);
    NalsRoundTrip(q.units);
    var views := Views([ToSample(Video, q)], [SampleData(Video, q.units)]);
    ViewsOne(ToSample(Video, q), SampleData(Video, q.units));
    assert views[1..] == [];
    assert views[0].flags == SyncFlags(q.keyFrame);
  }

  lemma {:induction false} QueueViewsMarked(queue: seq<Queued>)
    requires QueueMarked(queue) && QueueSized(Video, queue) && Sizes(queue) < TWO_31
    ensures AllMarked(Views(ToSamples(Video, queue), Datas(Video, queue)))
    decreases |queue|
  {
    if queue != [] {
      var front, last := queue[..|queue| - 1], queue[|queue| - 1];
      QueueViewsMarked(front);
      ViewMarked(last);
      ViewsAppend(ToSamples(Video, front), Datas(Video, front),
                  [ToSample(Video, last)], [SampleData(Video, last.units)]);
      AllMarkedAppend(Views(ToSamples(Video, front), Datas(Video, front)),
                      Views([ToSample(Video, last)], [SampleData(Video, last.units)]));
    }
  }

  lemma FragmentIsMarked(t: Track, seqNo: int)
    requires Clean(t) && t.kind == Video && QueueMarked(t.queue) && |FragmentFor(t, seqNo).Bytes()| < TWO_31
    ensures FragmentMarked(Media(Video, FragmentFor(t, seqNo)))
  {
    var kept := Timed(t.queue);
    FragmentReads(t, seqNo);
    KeptFits(t, seqNo);
    CleanFragment(t);
    TimedMarked(t.queue);
    TimedSized(Video, t.queue);
    QueueViewsMarked(kept);
  }

  // ----- Runs -----

  predicate OpsMarked(ops: seq<Op>) {
    ops == [] || ((ops[|ops| - 1].Remux? ==> FramesMarked(ops[|ops| - 1].video)) && OpsMarked(ops[..|ops| - 1]))
  }

  predicate CtlMarked(c: Ctl) {
    c.video.Some? ==> QueueMarked(c.video.value.queue)
  }

  /** The tracks are what they are in every run of `RunLinked`. */
  predicate CtlClean(c: Ctl) {
    && (c.video.Some? ==> c.video.value.kind == Video && Clean(c.video.value))
    && (c.audio.Some? ==> c.audio.value.kind == Audio)
  }

  lemma FlushTrackMarked(t: Track, seqNo: int)
    requires Clean(t) && t.kind == Video && QueueMarked(t.queue) && Fits(t, seqNo)
    ensures LogMarked(FlushTrack(t, seqNo).events) && QueueMarked(FlushTrack(t, seqNo).track.queue)
  {
    FlushTrackIs(t, seqNo);
    if t.params.ready && t.queue != [] && Sizes(Timed(t.queue)) > 0 {
      var e := Media(t.kind, FragmentFor(t, seqNo));
      assert FlushTrack(t, seqNo).events == [e];
      FragmentIsMarked(t, seqNo);
      LogMarkedOne(e);
    }
  }

  lemma AudioLogMarked(t: Option<Track>, seqNo: int)
    requires t.Some? ==> t.value.kind == Audio
    ensures LogMarked(FlushMaybe(t, seqNo).events)
  {
    var es := FlushMaybe(t, seqNo).events;
    if es != [] {
      assert es == [es[0]];
      LogMarkedOne(es[0]);
    }
  }

  lemma FlushKeepsMarks(t: Track, seqNo: int)
    requires Accounted(t) && QueueMarked(t.queue)
    ensures QueueMarked(FlushTrack(t, seqNo).track.queue)
  {
    FlushTrackIs(t, seqNo);
  }

  lemma FlushTracksMarked(c: Ctl)
    requires CtlClean(c) && CtlMarked(c)
    ensures Small(FlushTracks(c).events) ==> LogMarked(FlushTracks(c).events)
    ensures CtlMarked(FlushTracks(c).ctl)
  {
    var v := FlushMaybe(c.video, c.seqNo);
    var a := FlushMaybe(c.audio, v.seqNo);
    SmallAppend(v.events, a.events);
    if c.video.Some? {
      FlushKeepsMarks(c.video.value, c.seqNo);
      SmallFits(c.video.value, c.seqNo);
      if Small(v.events) { FlushTrackMarked(c.video.value, c.seqNo); }
    }
    AudioLogMarked(c.audio, v.seqNo);
    if Small(v.events) { LogMarkedAppend(v.events, a.events); }
  }

  lemma AnnouncementsMarked(c: Ctl)
    ensures LogMarked([Ready] + InitSegments(c))
  {
    var v, a := Snapshot(c.video), Snapshot(c.audio);
    LogMarkedOne(Ready);
    LogMarkedOne(Init(v));
    LogMarkedOne(Init(a));
    LogMarkedOne(Init(v + a));
    LogMarkedAppend(if c.video.Some? then [Init(v)] else [], if c.audio.Some? then [Init(a)] else []);
    LogMarkedAppend([Ready], InitSegments(c));
  }

  lemma FlushMarked(c: Ctl)
    requires CtlClean(c) && CtlMarked(c)
    ensures Small(FlushCtl(c).events) ==> LogMarked(FlushCtl(c).events)
    ensures CtlMarked(FlushCtl(c).ctl)
  {
    if c.initialized {
      FlushTracksMarked(c);
    } else if TrackReady(c.video) && TrackReady(c.audio) {
      var d := c.(initialized := true);
      AnnouncementsMarked(c);
      SmallAppend([Ready] + InitSegments(c), FlushTracks(d).events);
      FlushTracksMarked(d);
      if Small(FlushTracks(d).events) { LogMarkedAppend([Ready] + InitSegments(c), FlushTracks(d).events); }
    }
  }

  lemma AcceptMarked(c: Ctl, op: Op)
    requires CtlClean(c) && CtlMarked(c) && op.Remux? && FramesMarked(op.video)
    ensures CtlClean(Accept(c, op)) && CtlMarked(Accept(c, op))
  {
    if c.video.Some? {
      VideoClean(c.video.value, op.video);
      RemuxMarked(c.video.value, op.video);
    }
    if c.audio.Some? { AudioKeeps(c.audio.value, op.audio, op.headerKnown); }
  }

  lemma StepMarked(c: Ctl, op: Op)
    requires CtlClean(c) && CtlMarked(c) && (op.Remux? ==> FramesMarked(op.video))
    ensures Small(Step(c, op).events) ==> LogMarked(Step(c, op).events)
    ensures CtlMarked(Step(c, op).ctl)
  {
    match op
    case ResetAll => LogMarkedOne(Reset);
    case Flush => FlushMarked(c);
    case Remux(_, _, _) =>
      AcceptMarked(c, op);
      FlushMarked(Accept(c, op));
  }

  /** For every run, with frames that are keyframes exactly when they have an IDR unit: a reader of any
      dispatched video fragment finds a sample marked as a sync sample if and only if an IDR slice is
      among the NAL units it reads from that sample. */
  lemma {:induction false} RunMarked(c: Ctl, ops: seq<Op>)
    requires Fresh(c) && OpsMarked(ops) && Small(Run(c, ops).events)
    ensures LogMarked(Run(c, ops).events) && CtlMarked(Run(c, ops).ctl)
    decreases |ops|
  {
    if ops != [] {
      var before := Run(c, ops[..|ops| - 1]);
      var last := Step(before.ctl, ops[|ops| - 1]);
      SmallAppend(before.events, last.events);
      RunMarked(c, ops[..|ops| - 1]);
      RunLinked(c, ops[..|ops| - 1]);
      StepMarked(before.ctl, ops[|ops| - 1]);
      LogMarkedAppend(before.events, last.events);
    }
  }
}
