/** Two runs of an audio-only controller in which fragments do not abut. */
module LagExamples {
  import opened Bytes
  import opened Media
  import opened Tracks
  import opened Controller
  import opened FragmentContent
  import opened ControllerProperties

  function OneFrame(payload: ByteString, duration: int): Op {
    Remux([], [AudioFrame(payload, duration)], true)
  }

  /** Audio only, with an empty queue. */
  predicate Idle(c: Ctl) {
    c.video.None? && c.audio.Some? && c.audio.value.kind == Audio && c.audio.value.queue == [] && CtlAccounted(c)
  }

  lemma OneQueued(t: Track, frame: AudioFrame)
    requires t.kind == Audio && t.queue == [] && frame.duration > 0
    ensures var u, q := RemuxAudio(t, [frame], true), Queued([frame.payload], |frame.payload|, frame.duration, false);
            && u == t.(len := t.len + |frame.payload|, queue := [q], params := t.params.(ready := true))
            && Timed(u.queue) == [q] && Sizes([q]) == |frame.payload|
            && ToSamples(Audio, [q]) == [ToSample(Audio, q)]
  {
    var q := Queued([frame.payload], |frame.payload|, frame.duration, false);
    assert [frame][..0] == [] && [q][..0] == [];
    assert t.queue + [q] == [q];
  }

  /** What becomes of a drained frame. */
  lemma OneDrained(t: Track, payload: ByteString, duration: int, seqNo: int)
    requires t.kind == Audio && t.queue == [] && Accounted(t) && duration > 0
    ensures var u := RemuxAudio(t, [AudioFrame(payload, duration)], true);
            var f := FlushTrack(u, seqNo).track;
            && u.params.ready && u.queue != [] && u.done == t.done && (Sends(u) <==> payload != [])
            && f.queue == [] && f.kind == Audio && (f.done == [] <==> payload != [])
            && SampleTime(f.done) == if payload != [] then 0 else SampleTime(t.done) + duration
  {
    var frame := AudioFrame(payload, duration);
    var u, q := RemuxAudio(t, [frame], true), Queued([payload], |payload|, duration, false);
    OneQueued(t, frame);
    AudioAccounted(t, [frame], true);
    FlushTrackIs(u, seqNo);
    SampleTimeAppend(t.done, [ToSample(Audio, q)]);
    assert [ToSample(Audio, q)][1..] == [];
    assert SampleTime([]) == 0;
  }

  lemma FlushIsDrain(d: Ctl, u: Track)
    requires d.video.None? && d.audio == Some(u) && u.params.ready && u.queue != []
    ensures FlushCtl(d).ctl.video.None? && FlushCtl(d).ctl.audio == Some(FlushTrack(u, d.seqNo).track)
  {
  }

  /** The call reaches the track. */
  lemma CallIsDrain(c: Ctl, payload: ByteString, duration: int)
    requires Idle(c) && duration > 0
    ensures var u := RemuxAudio(c.audio.value, [AudioFrame(payload, duration)], true);
            && Accept(c, OneFrame(payload, duration)) == c.(audio := Some(u))
            && (u.params.ready && u.queue != [] ==>
                  Step(c, OneFrame(payload, duration)).ctl.audio == Some(FlushTrack(u, c.seqNo).track)
                  && Step(c, OneFrame(payload, duration)).ctl.video.None?)
  {
    var u := RemuxAudio(c.audio.value, [AudioFrame(payload, duration)], true);
    if u.params.ready && u.queue != [] { FlushIsDrain(c.(audio := Some(u)), u); }
  }

  /** A call with one frame that has a duration: an empty payload is kept as left over, any other is sent. */
  lemma OneCall(c: Ctl, payload: ByteString, duration: int)
    requires Idle(c) && duration > 0
    ensures var d, e := Accept(c, OneFrame(payload, duration)), Step(c, OneFrame(payload, duration)).ctl;
            && (SendsAudio(d) <==> payload != []) && LeftOver(d) == LeftOver(c) && Idle(e)
            && (NothingOver(d) <==> NothingOver(c)) && (NothingOver(e) <==> payload != [])
            && LeftOver(e) == if payload != [] then 0 else LeftOver(c) + duration
  {
    OneDrained(c.audio.value, payload, duration, c.seqNo);
    CallIsDrain(c, payload, duration);
    StepAccounted(c, OneFrame(payload, duration));
  }

  lemma ResetIdle(c: Ctl)
    requires Idle(c)
    ensures Idle(ResetCtl(c)) && LeftOver(ResetCtl(c)) == LeftOver(c) && (NothingOver(ResetCtl(c)) <==> NothingOver(c))
  {
  }

  lemma RunSnoc(c: Ctl, ops: seq<Op>, op: Op)
    ensures Run(c, ops + [op]).ctl == Step(Run(c, ops).ctl, op).ctl
    ensures RunLag(c, ops + [op]) == LagStep(RunLag(c, ops), Run(c, ops).ctl, op)
    ensures !op.ResetAll? ==> (SendsLeftOver(c, ops + [op]) <==>
              SendsLeftOver(c, ops) || (SendsAudio(BeforeFlush(Run(c, ops).ctl, op))
                                        && !NothingOver(BeforeFlush(Run(c, ops).ctl, op))))
  {
    assert (ops + [op])[..|ops|] == ops;
  }

  /** A frame without bytes is not sent, but its duration counts: the next fragment starts late. */
  lemma EmptyPayloadLags(c: Ctl)
    requires Fresh(c) && c.video.None? && c.audio.Some?
    ensures !RunLag(c, [OneFrame([], 5)] + [OneFrame([1], 7)]).gapless
  {
    var first := [OneFrame([], 5)];
    RunSnoc(c, [], OneFrame([], 5));
    assert [] + [OneFrame([], 5)] == first;
    OneCall(c, [], 5);
    RunSnoc(c, first, OneFrame([1], 7));
    OneCall(Run(c, first).ctl, [1], 7);
  }

  /** An empty payload, then a reset. */
  lemma OverAtReset(c: Ctl) returns (ops: seq<Op>)
    requires Fresh(c) && c.video.None? && c.audio.Some?
    ensures ops == [OneFrame([], 5)] + [ResetAll]
    ensures RunLag(c, ops) == Lag(5, true)
    ensures Idle(Run(c, ops).ctl) && LeftOver(Run(c, ops).ctl) == 5 && !NothingOver(Run(c, ops).ctl)
  {
    var first := [OneFrame([], 5)];
    ops := first + [ResetAll];
    RunSnoc(c, [], OneFrame([], 5));
    assert [] + [OneFrame([], 5)] == first;
    OneCall(c, [], 5);
    RunSnoc(c, first, ResetAll);
    ResetIdle(Run(c, first).ctl);
  }

  /** What is left over survives a reset. The fragment that then carries it starts at 0, as it should, but
      the reader counts its duration, so the fragment after it, which carries nothing, starts early. So
      with resets it does not decide whether a fragment abuts that it carries samples left over. */
  lemma ResetMovesTheLag(c: Ctl)
    requires Fresh(c) && c.video.None? && c.audio.Some?
    ensures var ops := [OneFrame([], 5)] + [ResetAll] + [OneFrame([1], 7)];
            && RunLag(c, ops).gapless && SendsLeftOver(c, ops)
            && !RunLag(c, ops + [OneFrame([2], 7)]).gapless
            && NothingOver(BeforeFlush(Run(c, ops).ctl, OneFrame([2], 7)))
  {
    var ops := OverAtReset(c);
    SendAfter(c, ops);
    SendAgain(c, ops + [OneFrame([1], 7)]);
  }

  lemma SendAfter(c: Ctl, ops: seq<Op>)
    requires Idle(Run(c, ops).ctl) && RunLag(c, ops) == Lag(5, true)
    requires LeftOver(Run(c, ops).ctl) == 5 && !NothingOver(Run(c, ops).ctl)
    ensures var more := ops + [OneFrame([1], 7)];
            && RunLag(c, more) == Lag(5, true) && SendsLeftOver(c, more)
            && Idle(Run(c, more).ctl) && LeftOver(Run(c, more).ctl) == 0 && NothingOver(Run(c, more).ctl)
  {
    RunSnoc(c, ops, OneFrame([1], 7));
    OneCall(Run(c, ops).ctl, [1], 7);
  }

  lemma SendAgain(c: Ctl, ops: seq<Op>)
    requires Idle(Run(c, ops).ctl) && RunLag(c, ops) == Lag(5, true)
    requires LeftOver(Run(c, ops).ctl) == 0 && NothingOver(Run(c, ops).ctl)
    ensures !RunLag(c, ops + [OneFrame([2], 7)]).gapless
    ensures NothingOver(BeforeFlush(Run(c, ops).ctl, OneFrame([2], 7)))
  {
    RunSnoc(c, ops, OneFrame([2], 7));
    OneCall(Run(c, ops).ctl, [2], 7);
  }

  lemma OneTimed(q: Queued)
    requires q.duration > 0 && |q.units| == 1
    ensures Timed([q]) == [q] && Durations([q]) == q.duration && Sizes([q]) == q.size
    ensures ToSamples(Audio, [q]) == [ToSample(Audio, q)]
    ensures Flatten(Datas(Audio, [q])) == q.units[0]
  {
    assert [q][..0] == [];
    AudioSampleData(q.units[0]);
    assert q.units == [q.units[0]];
    FlattenOne(q.units[0]);
    assert Datas(Audio, [q]) == [q.units[0]];
  }

  /** The same as it is dispatched, in a browser: nothing for the first call, and then a fragment whose
      decode time is the duration that was never sent. */
  lemma EmptyPayloadLeavesGap(c: Ctl)
    requires Fresh(c) && c.browser && c.video.None? && c.audio.Some?
    ensures var first := Step(c, OneFrame([], 5));
            var second := Step(first.ctl, OneFrame([1], 7));
            && (forall k :: 0 <= k < |first.events| ==> !first.events[k].Media?)
            && |second.events| == 1 && second.events[0].Media? && second.events[0].fragment.dts == 5
  {
    var t := c.audio.value;
    OneQueued(t, AudioFrame([], 5));
    var q1, q2 := Queued([[]], 0, 5, false), Queued([[1]], 1, 7, false);
    OneTimed(q1);
    var t2 := FlushTrack(RemuxAudio(t, [AudioFrame([], 5)], true), c.seqNo).track;
    assert t2.nextDts == 5 && t2.queue == [] && t2.done == [ToSample(Audio, q1)] && t2.len == 0;
    OneQueued(t2, AudioFrame([1], 7));
    OneTimed(q2);
    assert FlushTrack(RemuxAudio(t2, [AudioFrame([1], 7)], true), c.seqNo).events != [];
  }
}
