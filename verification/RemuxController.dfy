/** `RemuxController` as the source runs it. */
module RemuxController {
  import opened Bytes
  import opened Media
  import opened Tracks
  import opened TrackRemuxer
  import opened Controller
  import Mp4

  /** A media fragment as it is handed to the listeners. */
  datatype Dispatch = Dispatch(kind: Kind, payload: ByteString, dts: int)

  /** The dispatched media fragments of a log, as bytes. */
  function Dispatches(events: seq<Event>): seq<Dispatch> {
    if events == [] then [] else
      var last := events[|events| - 1];
      Dispatches(events[..|events| - 1]) +
      if last.Media? then [Dispatch(last.kind, last.fragment.Bytes(), last.fragment.dts)] else []
  }

  lemma DispatchesSnoc(events: seq<Event>, e: Event)
    ensures Dispatches(events + [e]) ==
            Dispatches(events) + if e.Media? then [Dispatch(e.kind, e.fragment.Bytes(), e.fragment.dts)] else []
  {
    assert (events + [e])[..|events|] == events;
  }

  class RemuxController {
    const browser: bool
    const video: Remuxer?
    const audio: Remuxer?
    var initialized: bool
    var seqNo: int
    /** Everything dispatched so far: the events, and the bytes of the media fragments among them. */
    ghost var log: seq<Event>
    var sent: seq<Dispatch>

    /** The mode decides which tracks exist. */
    constructor (browser: bool, hasVideo: bool, hasAudio: bool)
      ensures Valid() && Fresh(View()) && log == [] && fresh(Tracks())
      ensures View().browser == browser && View().video.Some? == hasVideo && View().audio.Some? == hasAudio
    {
      this.browser := browser;
      if hasVideo {
        video := new Remuxer(Video, 1);
      } else {
        video := null;
      }
      if hasAudio {
        audio := new Remuxer(Audio, if hasVideo then 2 else 1);
      } else {
        audio := null;
      }
      initialized, seqNo := false, 1;
      log, sent := [], [];
    }

    ghost function Tracks(): set<object>
    {
      (if video != null then {video} else {}) + (if audio != null then {audio} else {})
    }

    /** The tracks keep their accounts, and the listeners have got the bytes of exactly the logged fragments. */
    ghost predicate Valid()
      reads this, Tracks()
    {
      && (video != null ==> video.Valid() && video.kind == Video)
      && (audio != null ==> audio.Valid() && audio.kind == Audio)
      && (video != null && audio != null ==> video != audio)
      && sent == Dispatches(log)
    }

    ghost function ViewOf(track: Remuxer?): Option<Track>
      reads track
    {
      if track != null then Some(track.View()) else None
    }

    ghost function View(): Ctl
      reads this, Tracks()
    {
      Ctl(browser, initialized, ViewOf(video), ViewOf(audio), seqNo)
    }

    /** The loop body of `flush`, where the track has something to send. */
    method SendFragment(track: Remuxer, data: ByteString) returns (ghost event: Event)
      requires sent == Dispatches(log)
      modifies this`seqNo, this`log, this`sent, track
      ensures sent == Dispatches(log) && log == old(log) + [event]
      ensures event == Media(track.kind, Written(old(seqNo), old(track.dts), track.id, old(track.trackSamples), data))
      ensures seqNo == old(seqNo) + 1 && track.View() == Cleared(old(track.View()))
    {
      var moof := Mp4.Moof(seqNo, track.dts, track.id, track.trackSamples);
      var mdat := Mp4.Mdat(data);
      sent := sent + [Dispatch(track.kind, moof + mdat, track.dts)];
      event := Media(track.kind, Written(seqNo, track.dts, track.id, track.trackSamples, data));
      DispatchesSnoc(log, event);
      log := log + [event];
      track.Flush();
      seqNo := seqNo + 1;
    }

    /** The loop body of `flush`. */
    method FlushTrack(track: Remuxer) returns (ghost events: seq<Event>)
      requires track.Valid() && sent == Dispatches(log)
      modifies this`seqNo, this`log, this`sent, track
      ensures track.Valid() && sent == Dispatches(log) && log == old(log) + events
      ensures TrackResult(track.View(), seqNo, events) == Controller.FlushTrack(old(track.View()), old(seqNo))
    {
      ghost var t := track.View();
      PayloadAccounted(t);
      var pay := track.GetPayload();
      FlushTrackBy(t, seqNo, Payload(track.View(), pay));
      events := [];
      if pay.Some? && |pay.value| > 0 {
        ghost var event := SendFragment(track, pay.value);
        events := [event];
      }
    }

    method IsReady() returns (ready: bool)
      ensures ready == (TrackReady(View().video) && TrackReady(View().audio))
    {
      if video != null && (!video.readyToDecode || |video.samples| == 0) {
        return false;
      }
      if audio != null && (!audio.readyToDecode || |audio.samples| == 0) {
        return false;
      }
      return true;
    }

    method FlushMaybe(track: Remuxer?) returns (ghost events: seq<Event>)
      requires track != null ==> track.Valid()
      requires sent == Dispatches(log)
      modifies this`seqNo, this`log, this`sent, track
      ensures track != null ==> track.Valid()
      ensures sent == Dispatches(log) && log == old(log) + events
      ensures MaybeResult(ViewOf(track), seqNo, events) == Controller.FlushMaybe(old(ViewOf(track)), old(seqNo))
    {
      events := [];
      if track != null {
        events := FlushTrack(track);
      }
    }

    /** The loop of `flush`. */
    method FlushTracks() returns (ghost events: seq<Event>)
      requires Valid()
      modifies this`seqNo, this`log, this`sent, Tracks()
      ensures Valid() && log == old(log) + events
      ensures Controller.Result(View(), events) == Controller.FlushTracks(old(View()))
    {
      ghost var c := View();
      ghost var first := FlushMaybe(video);
      ghost var second := FlushMaybe(audio);
      events := first + second;
      ConcatAssociative(old(log), first, second);
    }

    /** `dispatch('ready')` and `initSegment`. */
    method Announce() returns (ghost events: seq<Event>)
      requires sent == Dispatches(log)
      modifies this`log
      ensures sent == Dispatches(log) && log == old(log) + events
      ensures events == [Ready] + InitSegments(View())
    {
      events := [Ready] + InitSegments(View());
      NoDispatches(log, View());
      log := log + events;
    }

    method Flush() returns (ghost events: seq<Event>)
      requires Valid()
      modifies this, Tracks()
      ensures Valid() && log == old(log) + events
      ensures Controller.Result(View(), events) == FlushCtl(old(View()))
      decreases if initialized then 0 else 1
    {
      events := [];
      if !initialized {
        var ready := IsReady();
        if ready {
          ghost var start := Announce();
          initialized := true;
          ghost var rest := Flush();
          events := start + rest;
          ConcatAssociative(old(log), start, rest);
        }
      } else {
        events := FlushTracks();
      }
    }

    method Remux(videoFrames: seq<VideoFrame>, audioFrames: seq<AudioFrame>, headerKnown: bool)
      returns (ghost events: seq<Event>)
      requires Valid()
      modifies this, Tracks()
      ensures Valid() && log == old(log) + events
      ensures Controller.Result(View(), events) == Step(old(View()), Op.Remux(videoFrames, audioFrames, headerKnown))
    {
      if video != null {
        video.RemuxVideo(videoFrames);
      }
      if audio != null && !(video != null && !video.readyToDecode) {
        audio.RemuxAudio(audioFrames, headerKnown);
      }
      assert View() == Accept(old(View()), Op.Remux(videoFrames, audioFrames, headerKnown));
      events := Flush();
    }

    method ResetTrackOf(track: Remuxer?)
      requires track != null ==> track.Valid()
      modifies track
      ensures track != null ==> track.Valid()
      ensures ViewOf(track) == if track != null then Some(ResetTrack(old(track.View()))) else None
    {
      if track != null {
        track.ResetTrack();
      }
    }

    method Reset()
      requires Valid()
      modifies this, Tracks()
      ensures Valid() && View() == ResetCtl(old(View())) && log == old(log) + [Controller.Reset]
    {
      ResetTrackOf(video);
      ResetTrackOf(audio);
      initialized := false;
      MarkReset();
    }

    /** Where the listeners' log is cut; nothing is dispatched. */
    ghost method MarkReset()
      requires sent == Dispatches(log)
      modifies this`log
      ensures sent == Dispatches(log) && log == old(log) + [Controller.Reset]
    {
      DispatchesSkip(log, Controller.Reset, [Controller.Reset]);
      log := log + [Controller.Reset];
    }
  }

  lemma ConcatAssociative(a: seq<Event>, b: seq<Event>, c: seq<Event>)
    ensures (a + b) + c == a + (b + c)
  {
  }

  /** What the loop body does with a payload. */
  lemma FlushTrackBy(t: Track, seqNo: int, p: Payload)
    requires p == GetPayload(t)
    ensures Controller.FlushTrack(t, seqNo) ==
            if p.bytes.Some? && p.bytes.value != [] then
              TrackResult(Cleared(p.track), seqNo + 1,
                          [Media(p.track.kind, Written(seqNo, p.track.dts, p.track.id, p.track.done, p.bytes.value))])
            else TrackResult(p.track, seqNo, [])
  {
  }

  lemma DispatchesSkip(log: seq<Event>, e: Event, es: seq<Event>)
    requires !e.Media? && (es == [] || es == [e])
    ensures Dispatches(log + es) == Dispatches(log)
  {
    if es == [] {
      assert log + es == log;
    } else {
      DispatchesSnoc(log, e);
    }
  }

  lemma ConcatThree(log: seq<Event>, a: seq<Event>, b: seq<Event>, c: seq<Event>)
    ensures log + (a + (b + c)) == ((log + a) + b) + c
  {
  }

  lemma NoDispatches(log: seq<Event>, c: Ctl)
    ensures Dispatches(log + ([Ready] + InitSegments(c))) == Dispatches(log)
  {
    var v, a := Init(Snapshot(c.video)), Init(Snapshot(c.audio));
    var first, second :=
      if c.browser then if c.video.Some? then [v] else [] else [Init(Snapshot(c.video) + Snapshot(c.audio))],
      if c.browser && c.audio.Some? then [a] else [];
    DispatchesSkip(log, Ready, [Ready]);
    DispatchesSkip(log + [Ready], if c.browser then v else Init(Snapshot(c.video) + Snapshot(c.audio)), first);
    DispatchesSkip(log + [Ready] + first, a, second);
    ConcatThree(log, [Ready], first, second);
    assert !c.browser ==> first + second == first;
  }
}
