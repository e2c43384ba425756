/** What an ISO reader of everything a controller ever dispatched observes. */
module ControllerProperties {
  import opened Bytes
  import opened Media
  import opened Tracks
  import Mp4
  import opened Mp4Reader
  import opened Controller
  import opened FragmentContent

  // ----- The reader -----

  /** The reader knows the ids of the tracks. `ok`: every fragment so far could be read, had the next
      sequence number and the id of the track it was dispatched for. `abuts`: each of them started where
      the samples read of its track since the last reset end, modulo 2^32, the width of the fields. The
      times are the sums of the sample durations read. */
  datatype Reader = Reader(videoId: int, audioId: int, ok: bool, abuts: bool, count: nat,
                           videoTime: int, audioTime: int, nals: seq<ByteString>, payloads: seq<ByteString>)

  function Time(r: Reader, kind: Kind): int {
    if kind.Video? then r.videoTime else r.audioTime
  }

  function IdOf(r: Reader, kind: Kind): int {
    if kind.Video? then r.videoId else r.audioId
  }

  /** The data of the samples, in order. */
  function DataOf(views: seq<SampleView>): seq<ByteString> {
    if views == [] then [] else [views[0].data] + DataOf(views[1..])
  }

  /** A fragment with the next number and the right id. */
  predicate Expected(r: Reader, kind: Kind, f: Fragment) {
    f.sequenceNumber == ToUint32(r.count + 1) && f.trackId == ToUint32(IdOf(r, kind))
  }

  function ReadFragmentOf(r: Reader, kind: Kind, f: Fragment): Reader {
    var next := Time(r, kind) + ViewTime(f.samples);
    var q := r.(ok := r.ok && Expected(r, kind, f), count := r.count + 1,
                abuts := r.abuts && f.decodeTime == ToUint32(Time(r, kind)));
    if kind.Video? then
      var nals := NalsOf(f.samples);
      q.(ok := q.ok && nals.Some?, videoTime := next, nals := if nals.Some? then r.nals + nals.value else r.nals)
    else q.(audioTime := next, payloads := r.payloads + DataOf(f.samples))
  }

  function ReadEvent(r: Reader, e: Event): Reader {
    match e
    case Media(kind, w) =>
      var f := ReadFragment(w.Bytes());
      if f.Some? then ReadFragmentOf(r, kind, f.value) else r.(ok := false)
    case Reset => r.(videoTime := 0, audioTime := 0)
    case _ => r
  }

  function ReadAll(r: Reader, es: seq<Event>): Reader {
    if es == [] then r else ReadEvent(ReadAll(r, es[..|es| - 1]), es[|es| - 1])
  }

  lemma {:induction false} ReadAppend(r: Reader, a: seq<Event>, b: seq<Event>)
    ensures ReadAll(r, a + b) == ReadAll(ReadAll(r, a), b)
  {
    if b == [] {
      assert a + b == a;
    } else {
      ReadAppend(r, a, b[..|b| - 1]);
      SplitLast(a, b);
      ReadSnoc(r, a + b[..|b| - 1], b[|b| - 1]);
    }
  }

  lemma SplitLast(a: seq<Event>, b: seq<Event>)
    requires b != []
    ensures a + b == (a + b[..|b| - 1]) + [b[|b| - 1]]
  {
  }

  lemma ReadSnoc(r: Reader, es: seq<Event>, e: Event)
    ensures ReadAll(r, es + [e]) == ReadEvent(ReadAll(r, es), e)
  {
    assert (es + [e])[..|es|] == es;
  }

  lemma ReadOne(r: Reader, e: Event)
    ensures ReadAll(r, [e]) == ReadEvent(r, e)
  {
    assert [e][..0] == [];
  }

  /** Every fragment is shorter than 2 GiB, so that its box sizes fit their fields. */
  predicate Small(es: seq<Event>) {
    es == [] || ((es[|es| - 1].Media? ==> |es[|es| - 1].fragment.Bytes()| < TWO_31) && Small(es[..|es| - 1]))
  }

  lemma {:induction false} SmallAppend(a: seq<Event>, b: seq<Event>)
    ensures Small(a + b) <==> Small(a) && Small(b)
  {
    if b == [] {
      assert a + b == a;
    } else {
      SmallAppend(a, b[..|b| - 1]);
      assert (a + b)[..|a + b| - 1] == a + b[..|b| - 1];
    }
  }

  // ----- One turn of flush -----

  /** A track whose queue has been drained into a fragment that is sent. */
  function Sent(t: Track): Track {
    t.(queue := [], len := 0, done := [], dts := t.nextDts, nextDts := t.nextDts + Durations(Timed(t.queue)))
  }

  /** The same with a fragment that has no bytes and is kept. */
  function Unsent(t: Track): Track {
    Sent(t).(done := FragmentSamples(t))
  }

  /** A fragment is sent exactly when the drained samples have bytes. */
  lemma FlushTrackIs(t: Track, seqNo: int)
    requires Accounted(t)
    ensures FlushTrack(t, seqNo) ==
            if !t.params.ready || t.queue == [] then TrackResult(t, seqNo, [])
            else if Sizes(Timed(t.queue)) == 0 then TrackResult(Unsent(t), seqNo, [])
            else TrackResult(Sent(t), seqNo + 1, [Media(t.kind, FragmentFor(t, seqNo))])
  {
    var kept := Timed(t.queue);
    TimedSized(t.kind, t.queue);
    DatasLength(t.kind, kept);
    if t.params.ready && t.queue != [] { FlushWrites(t, seqNo); }
  }

  lemma SentAccounted(t: Track)
    requires Accounted(t)
    ensures Accounted(Sent(t))
    ensures Sizes(Timed(t.queue)) == 0 ==> Accounted(Unsent(t))
  {
    if Sizes(Timed(t.queue)) == 0 {
      NoBytes(t.kind, Timed(t.queue));
      AllEmptyAppend(t.done, ToSamples(t.kind, Timed(t.queue)));
    }
  }

  /** The fragment that sends a track, as a reader sees it. */
  function View(t: Track, seqNo: int): Fragment {
    Fragment(ToUint32(seqNo), ToUint32(t.id), ToUint32(t.nextDts), Views(FragmentSamples(t), FragmentDatas(t)))
  }

  lemma KeptFits(t: Track, seqNo: int)
    requires Accounted(t)
    ensures Sizes(Timed(t.queue)) <= |FragmentFor(t, seqNo).Bytes()|
  {
    TimedSized(t.kind, t.queue);
    DatasLength(t.kind, Timed(t.queue));
  }

  // ----- Times -----

  /** Summing the durations read is summing those left over and those kept, modulo 2^32. */
  lemma ViewTimeIs(t: Track, seqNo: int)
    ensures Congruent(ViewTime(View(t, seqNo).samples), SampleTime(t.done) + Durations(Timed(t.queue)))
  {
    var kept := Timed(t.queue);
    ViewTimeOf(FragmentSamples(t), FragmentDatas(t));
    SampleTimeAppend(t.done, ToSamples(t.kind, kept));
    SampleTimeOf(t.kind, kept);
  }

  /** `base` is how far the track lags: the reader's time, with the samples that are left over, is ahead
      of the track's time by that much. */
  ghost predicate Lags(time: int, t: Track, base: int) {
    Congruent(time + SampleTime(t.done), t.nextDts + base)
  }

  lemma SentLags(time: int, t: Track, seqNo: int, base: int)
    requires Lags(time, t, base)
    ensures Lags(time + ViewTime(View(t, seqNo).samples), Sent(t), base)
  {
    var left, kept := SampleTime(t.done), Durations(Timed(t.queue));
    ViewTimeIs(t, seqNo);
    CongruentSelf(left);
    CongruentSub(ViewTime(View(t, seqNo).samples), left + kept, left, left);
    CongruentAdd(time + left, t.nextDts + base, ViewTime(View(t, seqNo).samples) - left, left + kept - left);
    SameSums(time, left, ViewTime(View(t, seqNo).samples), t.nextDts, kept, base);
  }

  lemma SameSums(time: int, left: int, viewed: int, next: int, kept: int, base: int)
    requires Congruent(time + left + (viewed - left), next + base + (left + kept - left))
    ensures Congruent(time + viewed + 0, next + kept + base)
  {
    assert time + left + (viewed - left) == time + viewed + 0;
    assert next + base + (left + kept - left) == next + kept + base;
  }

  lemma UnsentLags(time: int, t: Track, base: int)
    requires Lags(time, t, base)
    ensures Lags(time, Unsent(t), base)
  {
    var left, kept := SampleTime(t.done), Durations(Timed(t.queue));
    SampleTimeAppend(t.done, ToSamples(t.kind, Timed(t.queue)));
    SampleTimeOf(t.kind, Timed(t.queue));
    CongruentSelf(kept);
    CongruentAdd(time + left, t.nextDts + base, kept, kept);
    assert time + left + kept == time + (left + kept) && t.nextDts + base + kept == t.nextDts + kept + base;
  }

  /** A fragment starts where the samples read end exactly when the time left over is the lag. */
  lemma StartsRight(time: int, t: Track, base: int)
    requires Lags(time, t, base)
    ensures ToUint32(t.nextDts) == ToUint32(time) <==> ToUint32(SampleTime(t.done)) == ToUint32(base)
  {
    CongruentTerms(time, SampleTime(t.done), t.nextDts, base);
    CongruentUint32(t.nextDts, time);
    CongruentUint32(SampleTime(t.done), base);
  }

  // ----- Contents -----

  lemma {:induction false} DataOfViews(samples: seq<Mp4.Sample>, datas: seq<ByteString>)
    requires |samples| == |datas|
    ensures DataOf(Views(samples, datas)) == datas
    decreases |samples|
  {
    if samples != [] {
      DataOfViews(samples[1..], datas[1..]);
      var s := samples[0];
      var first := ViewOf(s, datas[0]);
      assert ([first] + Views(samples[1..], datas[1..]))[1..] == Views(samples[1..], datas[1..]);
    }
  }

  lemma {:induction false} NoDataAppend(m: nat, n: nat)
    ensures NoData(m) + NoData(n) == NoData(m + n)
    decreases m
  {
    if m > 0 { NoDataAppend(m - 1, n); }
  }

  /** Samples without bytes have empty data. */
  lemma {:induction false} EmptyDatas(kind: Kind, queue: seq<Queued>)
    requires QueueSized(kind, queue) && Sizes(queue) == 0
    ensures Datas(kind, queue) == NoData(|queue|)
    decreases |queue|
  {
    if queue != [] {
      EmptyDatas(kind, queue[..|queue| - 1]);
      NoDataAppend(|queue| - 1, 1);
      assert NoData(1) == [[]];
    }
  }

  /** Keeping a fragment keeps its data. */
  lemma UnsentDatas(t: Track)
    requires Accounted(t) && Sizes(Timed(t.queue)) == 0
    ensures FragmentDatas(Unsent(t)) == FragmentDatas(t)
  {
    var kept := Timed(t.queue);
    TimedSized(t.kind, t.queue);
    EmptyDatas(t.kind, kept);
    NoDataAppend(|t.done|, |kept|);
    assert NoData(|t.done| + |kept|) + [] == NoData(|t.done| + |kept|);
  }

  predicate NonEmptyQueue(queue: seq<Queued>) {
    queue == [] || (queue[|queue| - 1].size > 0 && NonEmptyQueue(queue[..|queue| - 1]))
  }

  /** A track with nothing left over from an unsent fragment, and no reason for that: every video track. */
  predicate Clean(t: Track) {
    Accounted(t) && t.done == [] && NonEmptyQueue(t.queue)
  }

  lemma NonEmptyQueueSnoc(queue: seq<Queued>, q: Queued)
    requires NonEmptyQueue(queue) && q.size > 0
    ensures NonEmptyQueue(queue + [q])
  {
    assert (queue + [q])[..|queue|] == queue;
  }

  lemma {:induction false} KeptBytes(queue: seq<Queued>)
    requires NonEmptyQueue(queue)
    ensures NonEmptyQueue(Timed(queue)) && (Timed(queue) != [] ==> Sizes(Timed(queue)) > 0)
    decreases |queue|
  {
    if queue != [] {
      var front, last := queue[..|queue| - 1], queue[|queue| - 1];
      KeptBytes(front);
      NonEmptyQueueSnoc(Timed(front), last);
      assert Timed(front) + [] == Timed(front);
    }
  }

  lemma UnsentClean(t: Track)
    requires Clean(t) && Sizes(Timed(t.queue)) == 0
    ensures Timed(t.queue) == [] && Unsent(t) == Sent(t)
  {
    KeptBytes(t.queue);
    assert t.done + ToSamples(t.kind, []) == [];
  }

  lemma CleanFragment(t: Track)
    requires t.done == []
    ensures FragmentSamples(t) == ToSamples(t.kind, Timed(t.queue)) && FragmentDatas(t) == Datas(t.kind, Timed(t.queue))
  {
  }

  lemma ViewNals(t: Track, seqNo: int)
    requires Clean(t) && t.kind.Video? && Sizes(Timed(t.queue)) < TWO_31
    ensures NalsOf(View(t, seqNo).samples) == Some(UnitsOf(Timed(t.queue)))
  {
    var kept := Timed(t.queue);
    TimedSized(Video, t.queue);
    NalsOfQueue(kept);
    CleanFragment(t);
  }

  // ----- The reader keeps up with a track -----

  ghost predicate Follows(r: Reader, t: Track, base: int) {
    && Accounted(t) && IdOf(r, t.kind) == t.id && Lags(Time(r, t.kind), t, base)
    && (t.kind.Video? ==> Clean(t) && base == 0)
  }

  /** The reader after the fragment that sends a track. */
  function Advanced(r: Reader, t: Track, f: Fragment, base: int): Reader {
    var time := Time(r, t.kind) + ViewTime(f.samples);
    var q := r.(count := r.count + 1, abuts := r.abuts && ToUint32(SampleTime(t.done)) == ToUint32(base));
    if t.kind.Video? then q.(videoTime := time, nals := r.nals + UnitsOf(Timed(t.queue)))
    else q.(audioTime := time, payloads := r.payloads + FragmentDatas(t))
  }

  lemma VideoViewFollows(r: Reader, t: Track, f: Fragment)
    requires r.ok && t.kind.Video? && Expected(r, t.kind, f)
    requires f.decodeTime == ToUint32(Time(r, Video)) <==> ToUint32(SampleTime(t.done)) == 0
    requires NalsOf(f.samples) == Some(UnitsOf(Timed(t.queue)))
    ensures ReadFragmentOf(r, t.kind, f) == Advanced(r, t, f, 0)
  {
  }

  lemma AudioViewFollows(r: Reader, t: Track, f: Fragment, base: int)
    requires r.ok && t.kind.Audio? && Expected(r, t.kind, f)
    requires f.decodeTime == ToUint32(Time(r, Audio)) <==> ToUint32(SampleTime(t.done)) == ToUint32(base)
    requires DataOf(f.samples) == FragmentDatas(t)
    ensures ReadFragmentOf(r, t.kind, f) == Advanced(r, t, f, base)
  {
  }

  lemma ViewFollows(r: Reader, t: Track, base: int)
    requires r.ok && Follows(r, t, base) && Sizes(Timed(t.queue)) < TWO_31
    ensures ReadFragmentOf(r, t.kind, View(t, r.count + 1)) == Advanced(r, t, View(t, r.count + 1), base)
  {
    var f := View(t, r.count + 1);
    StartsRight(Time(r, t.kind), t, base);
    if t.kind.Video? {
      ViewNals(t, r.count + 1);
      VideoViewFollows(r, t, f);
    } else {
      DataOfViews(FragmentSamples(t), FragmentDatas(t));
      AudioViewFollows(r, t, f, base);
    }
  }

  /** A track keeps what is fixed, and what has been read of the others stays. */
  predicate SameElse(r: Reader, q: Reader, t: Track, u: Track) {
    && u.kind == t.kind && u.id == t.id && u.params == t.params
    && q.videoId == r.videoId && q.audioId == r.audioId
    && (t.kind.Video? ==> q.audioTime == r.audioTime && q.payloads == r.payloads)
    && (t.kind.Audio? ==> q.videoTime == r.videoTime && q.nals == r.nals)
  }

  /** Nothing of a track is lost or read twice. */
  predicate Conserved(r: Reader, q: Reader, t: Track, u: Track) {
    && (t.kind.Video? ==> q.nals + UnitsOf(Timed(u.queue)) == r.nals + UnitsOf(Timed(t.queue)))
    && (t.kind.Audio? ==> q.payloads + FragmentDatas(u) == r.payloads + FragmentDatas(t))
  }

  lemma SentReads(r: Reader, t: Track, base: int)
    requires r.ok && Follows(r, t, base) && |FragmentFor(t, r.count + 1).Bytes()| < TWO_31
    ensures ReadEvent(r, Media(t.kind, FragmentFor(t, r.count + 1))) == Advanced(r, t, View(t, r.count + 1), base)
  {
    FragmentReads(t, r.count + 1);
    KeptFits(t, r.count + 1);
    ViewFollows(r, t, base);
  }

  lemma SentFollows(r: Reader, t: Track, base: int)
    requires r.ok && Follows(r, t, base) && |FragmentFor(t, r.count + 1).Bytes()| < TWO_31
    ensures var q := ReadEvent(r, Media(t.kind, FragmentFor(t, r.count + 1)));
            && q.ok && q.count == r.count + 1 && Follows(q, Sent(t), base)
            && q.abuts == (r.abuts && ToUint32(SampleTime(t.done)) == ToUint32(base))
            && SameElse(r, q, t, Sent(t)) && Conserved(r, q, t, Sent(t))
  {
    SentReads(r, t, base);
    AdvancedFollows(r, t, base);
    AdvancedConserves(r, t, View(t, r.count + 1), base);
  }

  lemma AdvancedFollows(r: Reader, t: Track, base: int)
    requires Follows(r, t, base)
    ensures Follows(Advanced(r, t, View(t, r.count + 1), base), Sent(t), base)
  {
    SentAccounted(t);
    SentLags(Time(r, t.kind), t, r.count + 1, base);
  }

  lemma AdvancedConserves(r: Reader, t: Track, f: Fragment, base: int)
    ensures var q := Advanced(r, t, f, base); SameElse(r, q, t, Sent(t)) && Conserved(r, q, t, Sent(t))
  {
    NothingLeft(r.nals + UnitsOf(Timed(t.queue)), r.payloads + FragmentDatas(t), Sent(t));
  }

  lemma NothingLeft(nals: seq<ByteString>, payloads: seq<ByteString>, t: Track)
    requires t.queue == [] && t.done == []
    ensures nals + UnitsOf(Timed(t.queue)) == nals && payloads + FragmentDatas(t) == payloads
  {
    assert FragmentDatas(t) == [];
  }

  lemma UnsentFollows(r: Reader, t: Track, base: int)
    requires r.ok && Follows(r, t, base) && Sizes(Timed(t.queue)) == 0
    ensures Follows(r, Unsent(t), base) && SameElse(r, r, t, Unsent(t)) && Conserved(r, r, t, Unsent(t))
  {
    SentAccounted(t);
    UnsentLags(Time(r, t.kind), t, base);
    UnsentDatas(t);
    if t.kind.Video? { UnsentClean(t); }
  }

  lemma NothingQueued(nals: seq<ByteString>)
    ensures nals + UnitsOf(Timed([])) == nals
  {
  }

  /** Whether one turn of `flush` sends a fragment of the track. */
  predicate Sends(t: Track) {
    t.params.ready && Sizes(Timed(t.queue)) > 0
  }

  /** The fragment that one turn of `flush` sends, if it sends one, is shorter than 2 GiB. */
  predicate Fits(t: Track, seqNo: int) {
    Sends(t) ==> |FragmentFor(t, seqNo).Bytes()| < TWO_31
  }

  lemma SmallFits(t: Track, seqNo: int)
    requires Accounted(t)
    ensures Small(FlushTrack(t, seqNo).events) ==> Fits(t, seqNo)
  {
    FlushTrackIs(t, seqNo);
    if Sends(t) {
      var e := Media(t.kind, FragmentFor(t, seqNo));
      assert t.queue != [] && FlushTrack(t, seqNo).events == [e];
      assert Small([e]) ==> |e.fragment.Bytes()| < TWO_31;
    }
  }

  lemma FlushTrackFollows(r: Reader, t: Track, base: int)
    requires r.ok && Follows(r, t, base) && Fits(t, r.count + 1)
    ensures var f := FlushTrack(t, r.count + 1);
            var q := ReadAll(r, f.events);
            && q.ok && f.seqNo == q.count + 1 && Follows(q, f.track, base)
            && q.abuts == (r.abuts && (Sends(t) ==> ToUint32(SampleTime(t.done)) == ToUint32(base)))
            && SameElse(r, q, t, f.track) && Conserved(r, q, t, f.track)
  {
    FlushTrackIs(t, r.count + 1);
    if t.params.ready && t.queue != [] {
      if Sizes(Timed(t.queue)) == 0 {
        UnsentFollows(r, t, base);
      } else {
        var e := Media(t.kind, FragmentFor(t, r.count + 1));
        assert FlushTrack(t, r.count + 1).events == [e];
        ReadOne(r, e);
        SentFollows(r, t, base);
      }
    }
  }

  // ----- What was accepted -----

  /** Which tracks there are, the parameter sets captured so far, the units of all accepted video frames
      and the payloads of all accepted audio frames that have a duration. */
  datatype History = History(hasVideo: bool, hasAudio: bool, params: Params,
                             units: seq<ByteString>, payloads: seq<ByteString>)

  function AcceptFrame(h: History, frame: VideoFrame): History {
    var kept := ParseUnits(h.params, frame.units);
    h.(params := kept.params,
       units := if kept.units != [] && kept.params.ready && frame.duration > 0 then h.units + kept.units else h.units)
  }

  function AcceptFrames(h: History, frames: seq<VideoFrame>): History
    decreases |frames|
  {
    if frames == [] then h else AcceptFrame(AcceptFrames(h, frames[..|frames| - 1]), frames[|frames| - 1])
  }

  /** The payloads of the frames with a duration. */
  function TimedPayloads(frames: seq<AudioFrame>): seq<ByteString> {
    if frames == [] then [] else
      var last := frames[|frames| - 1];
      TimedPayloads(frames[..|frames| - 1]) + if last.duration > 0 then [last.payload] else []
  }

  /** Audio is accepted once the video track, if there is one, is ready. */
  function AcceptOp(h: History, op: Op): History {
    match op
    case Remux(video, audio, _) =>
      var g := AcceptFrames(h, video);
      if h.hasAudio && (h.hasVideo ==> g.params.ready) then g.(payloads := g.payloads + TimedPayloads(audio)) else g
    case Flush => h
    case ResetAll => h.(params := NO_PARAMS)
  }

  function AcceptOps(h: History, ops: seq<Op>): History
    decreases |ops|
  {
    if ops == [] then h else AcceptOp(AcceptOps(h, ops[..|ops| - 1]), ops[|ops| - 1])
  }

  lemma TimedSnoc(queue: seq<Queued>, q: Queued)
    ensures Timed(queue + [q]) == Timed(queue) + if q.duration > 0 then [q] else []
    ensures UnitsOf(Timed(queue + [q])) == UnitsOf(Timed(queue)) + if q.duration > 0 then q.units else []
  {
    assert (queue + [q])[..|queue|] == queue;
    var kept := Timed(queue);
    if q.duration > 0 {
      assert (kept + [q])[..|kept|] == kept;
    } else {
      assert kept + [] == kept && UnitsOf(kept) + [] == UnitsOf(kept);
    }
  }

  /** The queue of a video track holds what has been accepted but not sent. */
  predicate Holds(h: History, t: Track, sent: seq<ByteString>) {
    h.params == t.params && h.units == sent + UnitsOf(Timed(t.queue))
  }

  /** An audio track holds it in its queue and in what is left over. */
  predicate HoldsAudio(h: History, t: Track, sent: seq<ByteString>) {
    h.payloads == sent + FragmentDatas(t)
  }

  lemma StillHolds(h: History, r: Reader, q: Reader, t: Track, u: Track)
    requires SameElse(r, q, t, u) && Conserved(r, q, t, u)
    ensures t.kind.Video? && Holds(h, t, r.nals) ==> Holds(h, u, q.nals)
    ensures t.kind.Audio? && HoldsAudio(h, t, r.payloads) ==> HoldsAudio(h, u, q.payloads)
  {
  }

  lemma Regroup(units: seq<ByteString>, sent: seq<ByteString>, waiting: seq<ByteString>, more: seq<ByteString>)
    requires units == sent + waiting
    ensures units + more == sent + (waiting + more)
  {
  }

  lemma QueueHolds(units: seq<ByteString>, sent: seq<ByteString>, queue: seq<Queued>, q: Queued)
    requires units == sent + UnitsOf(Timed(queue))
    ensures (if q.duration > 0 then units + q.units else units) == sent + UnitsOf(Timed(queue + [q]))
  {
    TimedSnoc(queue, q);
    if q.duration > 0 {
      Regroup(units, sent, UnitsOf(Timed(queue)), q.units);
    } else {
      assert UnitsOf(Timed(queue)) + [] == UnitsOf(Timed(queue));
    }
  }

  lemma AcceptFrameHolds(h: History, t: Track, sent: seq<ByteString>, frame: VideoFrame)
    requires Holds(h, t, sent)
    ensures Holds(AcceptFrame(h, frame), RemuxVideoFrame(t, frame), sent)
  {
    var kept := ParseUnits(t.params, frame.units);
    var q := Queued(kept.units, |SampleData(Video, kept.units)|, frame.duration, frame.keyFrame);
    if kept.units != [] && kept.params.ready {
      QueueHolds(h.units, sent, t.queue, q);
      assert RemuxVideoFrame(t, frame).queue == t.queue + [q];
    } else {
      assert RemuxVideoFrame(t, frame) == t.(params := kept.params);
      assert AcceptFrame(h, frame) == h.(params := kept.params);
    }
  }

  lemma {:induction false} AcceptFramesHolds(h: History, t: Track, sent: seq<ByteString>, frames: seq<VideoFrame>)
    requires Holds(h, t, sent)
    ensures Holds(AcceptFrames(h, frames), RemuxVideo(t, frames), sent)
    decreases |frames|
  {
    if frames != [] {
      var front := frames[..|frames| - 1];
      AcceptFramesHolds(h, t, sent, front);
      AcceptFrameHolds(AcceptFrames(h, front), RemuxVideo(t, front), sent, frames[|frames| - 1]);
    }
  }

  /** What the video frames leave alone. */
  lemma {:induction false} AcceptFramesKeep(h: History, frames: seq<VideoFrame>)
    ensures var g := AcceptFrames(h, frames);
            g.hasVideo == h.hasVideo && g.hasAudio == h.hasAudio && g.payloads == h.payloads
    decreases |frames|
  {
    if frames != [] { AcceptFramesKeep(h, frames[..|frames| - 1]); }
  }

  /** One more audio frame. */
  lemma AudioFrameDatas(t: Track, frame: AudioFrame, headerKnown: bool)
    requires t.kind == Audio
    ensures FragmentDatas(RemuxAudioFrame(t, frame, headerKnown)) ==
            FragmentDatas(t) + if frame.duration > 0 then [frame.payload] else []
  {
    var q := Queued([frame.payload], |frame.payload|, frame.duration, false);
    var kept := Timed(t.queue);
    TimedSnoc(t.queue, q);
    AudioSampleData(frame.payload);
    if frame.duration > 0 {
      assert (kept + [q])[..|kept|] == kept;
      Regroup(FragmentDatas(t), NoData(|t.done|), Datas(Audio, kept), [frame.payload]);
    } else {
      assert kept + [] == kept && FragmentDatas(t) + [] == FragmentDatas(t);
    }
  }

  lemma {:induction false} AudioDatas(t: Track, frames: seq<AudioFrame>, headerKnown: bool)
    requires t.kind == Audio
    ensures FragmentDatas(RemuxAudio(t, frames, headerKnown)) == FragmentDatas(t) + TimedPayloads(frames)
    decreases |frames|
  {
    if frames == [] {
      assert FragmentDatas(t) + [] == FragmentDatas(t);
    } else {
      var front, last := frames[..|frames| - 1], frames[|frames| - 1];
      AudioDatas(t, front, headerKnown);
      AudioKeeps(t, front, headerKnown);
      AudioFrameDatas(RemuxAudio(t, front, headerKnown), last, headerKnown);
      Regroup(FragmentDatas(t) + TimedPayloads(front), FragmentDatas(t), TimedPayloads(front),
              if last.duration > 0 then [last.payload] else []);
    }
  }

  lemma {:induction false} AudioKeeps(t: Track, frames: seq<AudioFrame>, headerKnown: bool)
    ensures var u := RemuxAudio(t, frames, headerKnown);
            u.kind == t.kind && u.id == t.id && u.done == t.done && u.nextDts == t.nextDts
    decreases |frames|
  {
    if frames != [] { AudioKeeps(t, frames[..|frames| - 1], headerKnown); }
  }

  lemma SampleDataSome(units: seq<ByteString>)
    requires units != []
    ensures |SampleData(Video, units)| > 0
  {
  }

  lemma {:induction false} VideoClean(t: Track, frames: seq<VideoFrame>)
    requires Clean(t) && t.kind == Video
    ensures var u := RemuxVideo(t, frames); Clean(u) && u.kind == Video && u.id == t.id && u.nextDts == t.nextDts
    decreases |frames|
  {
    VideoAccounted(t, frames);
    if frames != [] {
      var front := frames[..|frames| - 1];
      VideoClean(t, front);
      var u, frame := RemuxVideo(t, front), frames[|frames| - 1];
      var kept := ParseUnits(u.params, frame.units);
      if kept.units != [] && kept.params.ready {
        SampleDataSome(kept.units);
        NonEmptyQueueSnoc(u.queue, Queued(kept.units, |SampleData(Video, kept.units)|, frame.duration, frame.keyFrame));
      }
    }
  }

  // ----- The lag over a run -----

  /** How long the samples are that an unsent audio fragment has left over. */
  function LeftOver(c: Ctl): int {
    if c.audio.Some? then SampleTime(c.audio.value.done) else 0
  }

  /** A flush in this state sends an audio fragment. */
  predicate SendsAudio(c: Ctl) {
    && c.audio.Some? && Sends(c.audio.value)
    && (c.initialized || (TrackReady(c.video) && TrackReady(c.audio)))
  }

  /** `base` is what was left over at the last reset, 0 before the first; `gapless` as long as every audio
      fragment was sent with just as much left over from before. */
  datatype Lag = Lag(base: int, gapless: bool)

  function LagFlush(g: Lag, c: Ctl): Lag {
    g.(gapless := g.gapless && (SendsAudio(c) ==> ToUint32(LeftOver(c)) == ToUint32(g.base)))
  }

  function LagStep(g: Lag, c: Ctl, op: Op): Lag {
    match op
    case Remux(_, _, _) => LagFlush(g, Accept(c, op))
    case Flush => LagFlush(g, c)
    case ResetAll => g.(base := LeftOver(c))
  }

  function RunLag(c: Ctl, ops: seq<Op>): Lag
    decreases |ops|
  {
    if ops == [] then Lag(0, true)
    else LagStep(RunLag(c, ops[..|ops| - 1]), Run(c, ops[..|ops| - 1]).ctl, ops[|ops| - 1])
  }

  // ----- Runs -----

  ghost predicate VideoLinked(r: Reader, t: Option<Track>, h: History) {
    && h.hasVideo == t.Some?
    && (t.Some? ==> t.value.kind == Video && Follows(r, t.value, 0) && Holds(h, t.value, r.nals))
  }

  ghost predicate AudioLinked(r: Reader, t: Option<Track>, h: History, base: int) {
    && h.hasAudio == t.Some?
    && (t.Some? ==> t.value.kind == Audio && Follows(r, t.value, base) && HoldsAudio(h, t.value, r.payloads))
  }

  /** The reader, the controller, the history and the lag agree. */
  ghost predicate Linked(r: Reader, c: Ctl, h: History, g: Lag) {
    && r.ok && c.seqNo == r.count + 1 && r.abuts == g.gapless
    && VideoLinked(r, c.video, h) && AudioLinked(r, c.audio, h, g.base)
  }

  lemma OtherVideo(r: Reader, q: Reader, t: Option<Track>, h: History)
    requires VideoLinked(r, t, h) && q.videoId == r.videoId && q.videoTime == r.videoTime && q.nals == r.nals
    ensures VideoLinked(q, t, h)
  {
  }

  lemma OtherAudio(r: Reader, q: Reader, t: Option<Track>, h: History, base: int)
    requires AudioLinked(r, t, h, base)
    requires q.audioId == r.audioId && q.audioTime == r.audioTime && q.payloads == r.payloads
    ensures AudioLinked(q, t, h, base)
  {
  }

  /** The video half of the loop of `flush`. */
  lemma FlushVideoLinked(r: Reader, t: Option<Track>, h: History, seqNo: int)
    requires r.ok && seqNo == r.count + 1 && VideoLinked(r, t, h) && (t.Some? ==> Fits(t.value, seqNo))
    ensures var v := FlushMaybe(t, seqNo);
            var q := ReadAll(r, v.events);
            && q.ok && v.seqNo == q.count + 1 && q.abuts == r.abuts && VideoLinked(q, v.track, h)
            && q.audioId == r.audioId && q.audioTime == r.audioTime && q.payloads == r.payloads
  {
    if t.Some? {
      FlushTrackFollows(r, t.value, 0);
      var f := FlushTrack(t.value, seqNo);
      StillHolds(h, r, ReadAll(r, f.events), t.value, f.track);
    }
  }

  /** And the audio half. */
  lemma FlushAudioLinked(r: Reader, t: Option<Track>, h: History, base: int, seqNo: int)
    requires r.ok && seqNo == r.count + 1 && AudioLinked(r, t, h, base) && (t.Some? ==> Fits(t.value, seqNo))
    ensures var a := FlushMaybe(t, seqNo);
            var q := ReadAll(r, a.events);
            && q.ok && a.seqNo == q.count + 1 && AudioLinked(q, a.track, h, base)
            && q.videoId == r.videoId && q.videoTime == r.videoTime && q.nals == r.nals
            && q.abuts == (r.abuts && (t.Some? && Sends(t.value) ==>
                                         ToUint32(SampleTime(t.value.done)) == ToUint32(base)))
  {
    if t.Some? {
      FlushTrackFollows(r, t.value, base);
      var f := FlushTrack(t.value, seqNo);
      StillHolds(h, r, ReadAll(r, f.events), t.value, f.track);
    }
  }

  /** Both halves, one after the other. */
  lemma FlushBothLinked(r: Reader, v: MaybeResult, a: MaybeResult, c: Ctl, h: History, g: Lag) returns (p: Reader)
    requires Linked(r, c, h, g)
    requires v == FlushMaybe(c.video, c.seqNo) && a == FlushMaybe(c.audio, v.seqNo)
    requires (c.video.Some? ==> Fits(c.video.value, c.seqNo)) && (c.audio.Some? ==> Fits(c.audio.value, v.seqNo))
    ensures p == ReadAll(ReadAll(r, v.events), a.events) && p.ok && a.seqNo == p.count + 1
    ensures VideoLinked(p, v.track, h) && AudioLinked(p, a.track, h, g.base)
    ensures p.abuts == (g.gapless && (c.audio.Some? && Sends(c.audio.value) ==>
                                        ToUint32(SampleTime(c.audio.value.done)) == ToUint32(g.base)))
  {
    var q := ReadAll(r, v.events);
    p := ReadAll(q, a.events);
    FlushVideoLinked(r, c.video, h, c.seqNo);
    OtherAudio(r, q, c.audio, h, g.base);
    FlushAudioLinked(q, c.audio, h, g.base, v.seqNo);
    OtherVideo(q, p, v.track, h);
  }

  lemma LinkedBy(p: Reader, d: Ctl, h: History, g: Lag, video: Option<Track>, audio: Option<Track>)
    requires p.ok && d.seqNo == p.count + 1 && p.abuts == g.gapless && d.video == video && d.audio == audio
    requires VideoLinked(p, video, h) && AudioLinked(p, audio, h, g.base)
    ensures Linked(p, d, h, g)
  {
  }

  lemma FlushTracksLinked(r: Reader, c: Ctl, h: History, g: Lag)
    requires Linked(r, c, h, g) && c.initialized && Small(FlushTracks(c).events)
    ensures Linked(ReadAll(r, FlushTracks(c).events), FlushTracks(c).ctl, h, LagFlush(g, c))
  {
    var v := FlushMaybe(c.video, c.seqNo);
    var a := FlushMaybe(c.audio, v.seqNo);
    SmallAppend(v.events, a.events);
    ReadAppend(r, v.events, a.events);
    if c.video.Some? { SmallFits(c.video.value, c.seqNo); }
    if c.audio.Some? { SmallFits(c.audio.value, v.seqNo); }
    var p := FlushBothLinked(r, v, a, c, h, g);
    LinkedBy(p, FlushTracks(c).ctl, h, LagFlush(g, c), v.track, a.track);
  }

  lemma AnnouncementsSkipped(r: Reader, c: Ctl)
    ensures ReadAll(r, [Ready] + InitSegments(c)) == r && Small([Ready] + InitSegments(c))
  {
    var v, a := Snapshot(c.video), Snapshot(c.audio);
    SkipOne(r, Ready);
    SkipOne(r, Init(v));
    SkipOne(r, Init(a));
    SkipOne(r, Init(v + a));
    var first, second := if c.video.Some? then [Init(v)] else [], if c.audio.Some? then [Init(a)] else [];
    ReadAppend(r, first, second);
    SmallAppend(first, second);
    ReadAppend(r, [Ready], InitSegments(c));
    SmallAppend([Ready], InitSegments(c));
  }

  lemma SkipOne(r: Reader, e: Event)
    requires e.Ready? || e.Init?
    ensures ReadAll(r, [e]) == r && Small([e])
  {
    assert [e][..0] == [];
  }

  lemma FlushLinked(r: Reader, c: Ctl, h: History, g: Lag)
    requires Linked(r, c, h, g) && Small(FlushCtl(c).events)
    ensures Linked(ReadAll(r, FlushCtl(c).events), FlushCtl(c).ctl, h, LagFlush(g, c))
  {
    if c.initialized {
      FlushTracksLinked(r, c, h, g);
    } else if TrackReady(c.video) && TrackReady(c.audio) {
      var d := c.(initialized := true);
      AnnouncementsSkipped(r, c);
      SmallAppend([Ready] + InitSegments(c), FlushTracks(d).events);
      ReadAppend(r, [Ready] + InitSegments(c), FlushTracks(d).events);
      FlushTracksLinked(r, d, h, g);
      assert LagFlush(g, c) == LagFlush(g, d);
    }
  }

  lemma AcceptVideoLinked(r: Reader, t: Track, h: History, frames: seq<VideoFrame>)
    requires VideoLinked(r, Some(t), h)
    ensures VideoLinked(r, Some(RemuxVideo(t, frames)), AcceptFrames(h, frames))
  {
    AcceptFramesKeep(h, frames);
    VideoClean(t, frames);
    AcceptFramesHolds(h, t, r.nals, frames);
  }

  lemma AcceptAudioLinked(r: Reader, t: Track, h: History, base: int, frames: seq<AudioFrame>, headerKnown: bool)
    requires AudioLinked(r, Some(t), h, base)
    ensures AudioLinked(r, Some(RemuxAudio(t, frames, headerKnown)),
                        h.(payloads := h.payloads + TimedPayloads(frames)), base)
  {
    AudioAccounted(t, frames, headerKnown);
    AudioKeeps(t, frames, headerKnown);
    AudioDatas(t, frames, headerKnown);
    Regroup(h.payloads, r.payloads, FragmentDatas(t), TimedPayloads(frames));
  }

  lemma AcceptLinked(r: Reader, c: Ctl, h: History, g: Lag, op: Op)
    requires Linked(r, c, h, g) && op.Remux?
    ensures Linked(r, Accept(c, op), AcceptOp(h, op), g)
  {
    AcceptFramesKeep(h, op.video);
    if c.video.Some? { AcceptVideoLinked(r, c.video.value, h, op.video); }
    if c.audio.Some? {
      AcceptAudioLinked(r, c.audio.value, AcceptFrames(h, op.video), g.base, op.audio, op.headerKnown);
    }
  }

  lemma ResetLinked(r: Reader, c: Ctl, h: History, g: Lag)
    requires Linked(r, c, h, g)
    ensures Linked(ReadAll(r, [Reset]), ResetCtl(c), AcceptOp(h, ResetAll), LagStep(g, c, ResetAll))
  {
    ReadOne(r, Reset);
    CongruentSelf(0);
    CongruentSelf(LeftOver(c));
  }

  lemma StepLinked(r: Reader, c: Ctl, h: History, g: Lag, op: Op)
    requires Linked(r, c, h, g) && Small(Step(c, op).events)
    ensures Linked(ReadAll(r, Step(c, op).events), Step(c, op).ctl, AcceptOp(h, op), LagStep(g, c, op))
  {
    match op
    case ResetAll => ResetLinked(r, c, h, g);
    case Flush => FlushLinked(r, c, h, g);
    case Remux(_, _, _) =>
      AcceptLinked(r, c, h, g, op);
      FlushLinked(r, Accept(c, op), AcceptOp(h, op), g);
  }

  /** A reader that knows the tracks of a controller and has read nothing. */
  function NothingRead(c: Ctl): Reader {
    Reader(if c.video.Some? then c.video.value.id else 0, if c.audio.Some? then c.audio.value.id else 0,
           true, true, 0, 0, 0, [], [])
  }

  function NothingAccepted(c: Ctl): History {
    History(c.video.Some?, c.audio.Some?, NO_PARAMS, [], [])
  }

  lemma StartLinked(c: Ctl)
    requires Fresh(c)
    ensures Linked(NothingRead(c), c, NothingAccepted(c), Lag(0, true))
  {
    CongruentSelf(0);
    if c.audio.Some? { assert [] + FragmentDatas(c.audio.value) == []; }
  }

  /** For every run from a fresh controller, with fragments below 2 GiB, an ISO reader of everything
      dispatched can read every fragment, and finds sequence numbers 1, 2, 3, ... over all tracks and resets,
      the id of the track in each, and, NAL unit by NAL unit and payload by payload, what was accepted, the
      rest of it waiting in the queues. Its times agree with the decode times as `Lag` says. */
  lemma {:induction false} RunLinked(c: Ctl, ops: seq<Op>)
    requires Fresh(c) && Small(Run(c, ops).events)
    ensures Linked(ReadAll(NothingRead(c), Run(c, ops).events), Run(c, ops).ctl,
                   AcceptOps(NothingAccepted(c), ops), RunLag(c, ops))
    decreases |ops|
  {
    if ops == [] {
      StartLinked(c);
    } else {
      var before := Run(c, ops[..|ops| - 1]);
      var last := Step(before.ctl, ops[|ops| - 1]);
      SmallAppend(before.events, last.events);
      RunLinked(c, ops[..|ops| - 1]);
      ReadAppend(NothingRead(c), before.events, last.events);
      StepLinked(ReadAll(NothingRead(c), before.events), before.ctl,
                 AcceptOps(NothingAccepted(c), ops[..|ops| - 1]), RunLag(c, ops[..|ops| - 1]), ops[|ops| - 1]);
    }
  }

  /** The meaning of the stream is preserved: what the reader extracts, followed by what is queued, are
      the NAL units of types 1, 5, 7 and 8 of the accepted frames with a duration, in order, each once. */
  lemma MeaningPreserved(c: Ctl, ops: seq<Op>)
    requires Fresh(c) && c.video.Some? && Small(Run(c, ops).events)
    ensures var r, d := ReadAll(NothingRead(c), Run(c, ops).events), Run(c, ops).ctl;
            && r.ok && d.video.Some?
            && r.nals + UnitsOf(Timed(d.video.value.queue)) == AcceptOps(NothingAccepted(c), ops).units
  {
    RunLinked(c, ops);
    RunKeepsTracks(c, ops);
  }

  /** And so is the audio: the payloads read, those left over and those queued are the payloads of the
      accepted frames with a duration, in order, each once. */
  lemma AudioPreserved(c: Ctl, ops: seq<Op>)
    requires Fresh(c) && c.audio.Some? && Small(Run(c, ops).events)
    ensures var r, d := ReadAll(NothingRead(c), Run(c, ops).events), Run(c, ops).ctl;
            && r.ok && d.audio.Some?
            && r.payloads + FragmentDatas(d.audio.value) == AcceptOps(NothingAccepted(c), ops).payloads
  {
    RunLinked(c, ops);
    RunKeepsTracks(c, ops);
  }

  lemma {:induction false} RunKeepsTracks(c: Ctl, ops: seq<Op>)
    ensures Run(c, ops).ctl.video.Some? == c.video.Some? && Run(c, ops).ctl.audio.Some? == c.audio.Some?
    decreases |ops|
  {
    if ops != [] {
      RunKeepsTracks(c, ops[..|ops| - 1]);
      StepKeepsTracks(Run(c, ops[..|ops| - 1]).ctl, ops[|ops| - 1]);
    }
  }

  lemma StepKeepsTracks(c: Ctl, op: Op)
    ensures Step(c, op).ctl.video.Some? == c.video.Some? && Step(c, op).ctl.audio.Some? == c.audio.Some?
  {
    FlushTracksKeeps(c);
    if op.Remux? {
      FlushTracksKeeps(Accept(c, op));
      FlushTracksKeeps(Accept(c, op).(initialized := true));
    }
    FlushTracksKeeps(c.(initialized := true));
  }

  /** Exactly when all fragments abut: every audio fragment is sent with as much time left over from an
      unsent one, modulo 2^32, as there was at the last reset, which is none before the first. Video
      fragments always do. */
  lemma FragmentsAbut(c: Ctl, ops: seq<Op>)
    requires Fresh(c) && Small(Run(c, ops).events)
    ensures ReadAll(NothingRead(c), Run(c, ops).events).abuts <==> RunLag(c, ops).gapless
  {
    RunLinked(c, ops);
  }

  // ----- What makes a lag -----

  /** One turn of `flush` leaves samples over exactly when it drains samples with a duration that have no
      bytes at all, or finds some left over and sends nothing. */
  lemma LeftOverArises(t: Track, seqNo: int)
    requires Accounted(t)
    ensures FlushTrack(t, seqNo).track.done != [] <==>
            !Sends(t) && (t.done != [] || (t.params.ready && Timed(t.queue) != []))
  {
    FlushTrackIs(t, seqNo);
    if t.queue == [] { assert Timed(t.queue) == []; }
  }

  /** What a flush in this state drains from the audio queue is nothing, or has bytes. */
  predicate DrainsBytes(c: Ctl) {
    c.audio.Some? ==> Timed(c.audio.value.queue) == [] || Sizes(Timed(c.audio.value.queue)) > 0
  }

  /** Before each flush of the run. */
  predicate BytesInEveryDrain(c: Ctl, ops: seq<Op>)
    decreases |ops|
  {
    ops == [] ||
    (BytesInEveryDrain(c, ops[..|ops| - 1])
     && (!ops[|ops| - 1].ResetAll? ==> DrainsBytes(BeforeFlush(Run(c, ops[..|ops| - 1]).ctl, ops[|ops| - 1]))))
  }

  function BeforeFlush(c: Ctl, op: Op): Ctl {
    if op.Remux? then Accept(c, op) else c
  }

  predicate NothingOver(c: Ctl) {
    c.audio.Some? ==> c.audio.value.done == []
  }

  lemma AcceptLeavesOver(c: Ctl, op: Op)
    requires op.Remux?
    ensures LeftOver(Accept(c, op)) == LeftOver(c) && (NothingOver(Accept(c, op)) <==> NothingOver(c))
  {
    if c.audio.Some? { AudioKeeps(c.audio.value, op.audio, op.headerKnown); }
  }

  lemma FlushLeavesNothing(c: Ctl)
    requires CtlAccounted(c) && NothingOver(c) && DrainsBytes(c)
    ensures NothingOver(FlushCtl(c).ctl)
  {
    if c.audio.Some? { LeftOverArises(c.audio.value, FlushMaybe(c.video, c.seqNo).seqNo); }
  }

  lemma {:induction false} NeverOver(c: Ctl, ops: seq<Op>)
    requires Fresh(c) && BytesInEveryDrain(c, ops)
    ensures NothingOver(Run(c, ops).ctl) && RunLag(c, ops) == Lag(0, true)
    decreases |ops|
  {
    if ops != [] {
      var front, op := ops[..|ops| - 1], ops[|ops| - 1];
      NeverOver(c, front);
      RunAccounted(c, front);
      var before := Run(c, front).ctl;
      match op
      case ResetAll =>
      case Flush => FlushLeavesNothing(before);
      case Remux(_, _, _) =>
        AcceptAccounted(before, op);
        AcceptLeavesOver(before, op);
        FlushLeavesNothing(Accept(before, op));
    }
  }

  /** As long as every drained part of the audio queue has bytes, all fragments abut. Single empty payloads
      do no harm. */
  lemma AbutWithBytes(c: Ctl, ops: seq<Op>)
    requires Fresh(c) && Small(Run(c, ops).events) && BytesInEveryDrain(c, ops)
    ensures ReadAll(NothingRead(c), Run(c, ops).events).abuts
  {
    FragmentsAbut(c, ops);
    NeverOver(c, ops);
  }

  /** An audio fragment of the run is sent with samples left over from an unsent one. */
  predicate SendsLeftOver(c: Ctl, ops: seq<Op>)
    decreases |ops|
  {
    ops != [] &&
    (SendsLeftOver(c, ops[..|ops| - 1])
     || (!ops[|ops| - 1].ResetAll?
         && (var d := BeforeFlush(Run(c, ops[..|ops| - 1]).ctl, ops[|ops| - 1]); SendsAudio(d) && !NothingOver(d))))
  }

  /** Nothing that is left over in the run is as long as 2^32. */
  predicate LeftOverFits(c: Ctl, ops: seq<Op>)
    decreases |ops|
  {
    ops == [] || (LeftOver(Run(c, ops[..|ops| - 1]).ctl) < TWO_32 && LeftOverFits(c, ops[..|ops| - 1]))
  }

  predicate AllLong(done: seq<Mp4.Sample>) {
    done == [] || (done[0].duration > 0 && AllLong(done[1..]))
  }

  lemma {:induction false} AllLongAppend(a: seq<Mp4.Sample>, b: seq<Mp4.Sample>)
    requires AllLong(a) && AllLong(b)
    ensures AllLong(a + b)
    decreases |a|
  {
    if a == [] {
      assert a + b == b;
    } else {
      assert (a + b)[1..] == a[1..] + b;
      AllLongAppend(a[1..], b);
    }
  }

  lemma {:induction false} LongTime(done: seq<Mp4.Sample>)
    requires AllLong(done)
    ensures SampleTime(done) >= 0 && (SampleTime(done) == 0 <==> done == [])
    decreases |done|
  {
    if done != [] { LongTime(done[1..]); }
  }

  lemma {:induction false} KeptLong(kind: Kind, queue: seq<Queued>)
    ensures AllLong(ToSamples(kind, Timed(queue)))
    decreases |queue|
  {
    if queue != [] {
      var front, last := queue[..|queue| - 1], queue[|queue| - 1];
      KeptLong(kind, front);
      if last.duration > 0 {
        assert (Timed(front) + [last])[..|Timed(front)|] == Timed(front);
        AllLongAppend(ToSamples(kind, Timed(front)), [ToSample(kind, last)]);
      } else {
        assert Timed(front) + [] == Timed(front);
      }
    }
  }

  /** What is left over has durations. */
  predicate OverLong(c: Ctl) {
    c.audio.Some? ==> AllLong(c.audio.value.done)
  }

  lemma FlushOverLong(c: Ctl)
    requires CtlAccounted(c) && OverLong(c)
    ensures OverLong(FlushCtl(c).ctl)
  {
    if c.audio.Some? {
      var t := c.audio.value;
      FlushTrackIs(t, FlushMaybe(c.video, c.seqNo).seqNo);
      KeptLong(t.kind, t.queue);
      AllLongAppend(t.done, ToSamples(t.kind, Timed(t.queue)));
    }
  }

  lemma {:induction false} RunOverLong(c: Ctl, ops: seq<Op>)
    requires Fresh(c)
    ensures OverLong(Run(c, ops).ctl)
    decreases |ops|
  {
    if ops != [] {
      var front, op := ops[..|ops| - 1], ops[|ops| - 1];
      RunOverLong(c, front);
      RunAccounted(c, front);
      var before := Run(c, front).ctl;
      match op
      case ResetAll =>
      case Flush => FlushOverLong(before);
      case Remux(_, _, _) =>
        AcceptAccounted(before, op);
        if before.audio.Some? { AudioKeeps(before.audio.value, op.audio, op.headerKnown); }
        FlushOverLong(Accept(before, op));
    }
  }

  predicate NoReset(ops: seq<Op>) {
    ops == [] || (!ops[|ops| - 1].ResetAll? && NoReset(ops[..|ops| - 1]))
  }

  lemma OverIsLag(c: Ctl)
    requires OverLong(c) && LeftOver(c) < TWO_32
    ensures ToUint32(LeftOver(c)) == ToUint32(0) <==> NothingOver(c)
  {
    if c.audio.Some? { LongTime(c.audio.value.done); }
  }

  lemma {:induction false} LagIsLeftOver(c: Ctl, ops: seq<Op>)
    requires Fresh(c) && NoReset(ops) && LeftOverFits(c, ops)
    ensures RunLag(c, ops) == Lag(0, !SendsLeftOver(c, ops))
    decreases |ops|
  {
    if ops != [] {
      var front, op := ops[..|ops| - 1], ops[|ops| - 1];
      LagIsLeftOver(c, front);
      RunOverLong(c, front);
      var before := Run(c, front).ctl;
      OverIsLag(before);
      if op.Remux? { AcceptLeavesOver(before, op); }
    }
  }

  /** Without a reset, and with nothing as long as 2^32 left over: all fragments abut exactly when none is
      sent with samples left over from an unsent one. */
  lemma AbutWithoutReset(c: Ctl, ops: seq<Op>)
    requires Fresh(c) && NoReset(ops) && Small(Run(c, ops).events) && LeftOverFits(c, ops)
    ensures ReadAll(NothingRead(c), Run(c, ops).events).abuts <==> !SendsLeftOver(c, ops)
  {
    FragmentsAbut(c, ops);
    LagIsLeftOver(c, ops);
  }
}
