/** `H264Remuxer` and `AACRemuxer` as the source runs them. Their bookkeeping and their `getPayload` are
    the same code, so one class holds both; `RemuxVideo` and `RemuxAudio` are the two `remux` methods. */
module TrackRemuxer {
  import opened Bytes
  import opened Media
  import opened Tracks
  import Mp4
  import Mp4Reader

  class Remuxer {
    const kind: Kind
    const id: int
    var readyToDecode: bool
    var sps: Option<ByteString>
    var pps: Option<ByteString>
    var samples: seq<Queued>
    var trackLen: int
    var trackSamples: seq<Mp4.Sample>
    var dts: int
    var nextDts: int

    constructor (kind: Kind, id: int)
      ensures this.kind == kind && this.id == id
      ensures View() == Track(kind, id, Params(None, None, false), [], 0, [], 0, 0)
    {
      this.kind, this.id := kind, id;
      readyToDecode, sps, pps := false, None, None;
      samples, trackLen, trackSamples := [], 0, [];
      dts, nextDts := 0, 0;
    }

    ghost function View(): Track
      reads this
    {
      Track(kind, id, Params(sps, pps, readyToDecode), samples, trackLen, trackSamples, dts, nextDts)
    }

    /** The byte account, kept by every method. */
    ghost predicate Valid()
      reads this
    {
      Accounted(View())
    }

    method ParseNAL(nal: ByteString) returns (push: bool)
      modifies this`readyToDecode, this`sps, this`pps
      ensures Parsed(View().params, push) == ParseNal(old(View().params), nal)
    {
      push := false;
      var ntype := NalType(nal);
      if ntype == IDR || ntype == NDR {
        push := true;
      } else if ntype == PPS {
        if pps.None? {
          pps := Some(nal);
          if !readyToDecode && pps.Some? && sps.Some? {
            readyToDecode := true;
          }
        }
        push := true;
      } else if ntype == SPS {
        if sps.None? {
          sps := Some(nal);
          if !readyToDecode && pps.Some? && sps.Some? {
            readyToDecode := true;
          }
        }
        push := true;
      }
    }

    method ParseFrame(frame: VideoFrame) returns (units: seq<ByteString>, size: nat)
      modifies this`readyToDecode, this`sps, this`pps
      ensures Kept(View().params, units) == ParseUnits(old(View().params), frame.units)
      ensures size == |SampleData(Video, units)|
    {
      units, size := [], 0;
      var i := 0;
      assert frame.units[..0] == [];
      while i < |frame.units|
        invariant 0 <= i <= |frame.units|
        invariant Kept(View().params, units) == ParseUnits(old(View().params), frame.units[..i])
        invariant size == |SampleData(Video, units)|
      {
        var unit := frame.units[i];
        assert frame.units[..i + 1][..i] == frame.units[..i];
        var push := ParseNAL(unit.payload);
        if push {
          assert (units + [unit.payload])[..|units|] == units;
          units := units + [unit.payload];
          size := size + 4 + |unit.payload|;
        }
        i := i + 1;
      }
      assert frame.units[..i] == frame.units;
    }

    method RemuxVideo(frames: seq<VideoFrame>)
      requires Valid() && kind == Video
      modifies this
      ensures Valid() && View() == Tracks.RemuxVideo(old(View()), frames)
    {
      VideoAccounted(View(), frames);
      var i := 0;
      assert frames[..0] == [];
      while i < |frames|
        invariant 0 <= i <= |frames|
        invariant View() == Tracks.RemuxVideo(old(View()), frames[..i])
      {
        assert frames[..i + 1][..i] == frames[..i];
        var units, size := ParseFrame(frames[i]);
        if |units| > 0 && readyToDecode {
          trackLen := trackLen + size;
          samples := samples + [Queued(units, size, frames[i].duration, frames[i].keyFrame)];
        }
        i := i + 1;
      }
      assert frames[..i] == frames;
    }

    /** The loop body of the audio `remux`. */
    method RemuxAudioFrame(frame: AudioFrame, headerKnown: bool)
      modifies this`samples, this`trackLen, this`readyToDecode
      ensures View() == Tracks.RemuxAudioFrame(old(View()), frame, headerKnown)
    {
      var payload := frame.payload;
      samples := samples + [Queued([payload], |payload|, frame.duration, false)];
      trackLen := trackLen + |payload|;
      if !readyToDecode && headerKnown {
        readyToDecode := true;
      }
    }

    method RemuxAudio(frames: seq<AudioFrame>, headerKnown: bool)
      requires Valid() && kind == Audio
      modifies this
      ensures Valid() && View() == Tracks.RemuxAudio(old(View()), frames, headerKnown)
    {
      AudioAccounted(View(), frames, headerKnown);
      var i := 0;
      assert frames[..0] == [];
      while i < |frames|
        invariant 0 <= i <= |frames|
        invariant View() == Tracks.RemuxAudio(old(View()), frames[..i], headerKnown)
      {
        assert frames[..i + 1][..i] == frames[..i];
        RemuxAudioFrame(frames[i], headerKnown);
        i := i + 1;
      }
      assert frames[..i] == frames;
    }

    /** Copies the units of one sample into the payload. */
    method CopySample(payload: array<Byte>, at: nat, units: seq<ByteString>) returns (offset: nat)
      requires at + |SampleData(kind, units)| <= payload.Length
      modifies payload
      ensures offset == at + |SampleData(kind, units)|
      ensures payload[..offset] == old(payload[..at]) + SampleData(kind, units)
    {
      offset := at;
      var i := 0;
      assert units[..0] == [];
      while i < |units|
        invariant 0 <= i <= |units|
        invariant offset == at + |SampleData(kind, units[..i])| <= payload.Length
        invariant payload[..offset] == old(payload[..at]) + SampleData(kind, units[..i])
      {
        SampleDataStep(kind, units, i);
        var data := UnitData(kind, units[i]);
        Mp4.Append(payload, data, offset, old(payload[..at]), SampleData(kind, units[..i]));
        offset := offset + |data|;
        i := i + 1;
      }
      assert units[..i] == units;
    }

    /** The loop body of `getPayload`. */
    method TakeSample(payload: array<Byte>, at: nat) returns (offset: nat)
      requires samples != [] && samples[0].size == |SampleData(kind, samples[0].units)|
      requires at + samples[0].size <= payload.Length
      modifies this`samples, this`trackLen, this`nextDts, this`trackSamples, payload
      ensures samples == old(samples)[1..]
      ensures var q := old(samples)[0];
              if q.duration <= 0 then
                && offset == at && trackLen == old(trackLen) - q.size && nextDts == old(nextDts)
                && trackSamples == old(trackSamples) && payload[..offset] == old(payload[..at])
              else
                && offset == at + q.size && trackLen == old(trackLen) && nextDts == old(nextDts) + q.duration
                && trackSamples == old(trackSamples) + [ToSample(kind, q)]
                && payload[..offset] == old(payload[..at]) + SampleData(kind, q.units)
    {
      var sample := samples[0];
      samples := samples[1..];
      if sample.duration <= 0 {
        trackLen := trackLen - sample.size;
        return at;
      }
      nextDts := nextDts + sample.duration;
      offset := CopySample(payload, at, sample.units);
      trackSamples := trackSamples + [ToSample(kind, sample)];
    }

    /** The loop of `getPayload`: every write stays inside the payload. */
    method Drain(payload: array<Byte>) returns (offset: nat)
      requires QueueSized(kind, samples) && payload.Length == Sizes(samples)
      modifies this`samples, this`trackLen, this`nextDts, this`trackSamples, payload
      ensures var queue, kept := old(samples), Timed(old(samples));
              && samples == [] && offset == Sizes(kept) <= payload.Length
              && trackLen == old(trackLen) - (Sizes(queue) - Sizes(kept))
              && payload[..offset] == Flatten(Datas(kind, kept))
              && nextDts == old(nextDts) + Durations(kept)
              && trackSamples == old(trackSamples) + ToSamples(kind, kept)
    {
      offset := 0;
      ghost var queue, kept: seq<Queued>, n: nat, dropped: nat := samples, [], 0, 0;
      assert queue[0..] == queue && queue[..0] == [];
      while |samples| > 0
        invariant n <= |queue| && samples == queue[n..]
        invariant Draining(kind, queue, n, kept, offset, dropped)
        invariant trackLen == old(trackLen) - dropped
        invariant payload[..offset] == Flatten(Datas(kind, kept))
        invariant nextDts == old(nextDts) + Durations(kept)
        invariant trackSamples == old(trackSamples) + ToSamples(kind, kept)
        decreases |samples|
      {
        DrainStep(kind, queue, n, kept, offset, dropped);
        KeepStep(kind, kept, samples[0]);
        if samples[0].duration <= 0 {
          dropped := dropped + samples[0].size;
        } else {
          kept := kept + [samples[0]];
        }
        offset := TakeSample(payload, offset);
        n := n + 1;
      }
      assert queue[..n] == queue;
    }

    /** The payload is allocated with the queued number of bytes; dropped samples shorten the view of it
        that is returned. */
    method GetPayload() returns (result: Option<ByteString>)
      requires Valid()
      modifies this
      ensures Payload(View(), result) == Tracks.GetPayload(old(View()))
    {
      if !readyToDecode || |samples| == 0 {
        return None;
      }
      var payload := new Byte[trackLen](_ => 0);
      dts := nextDts;
      var offset := Drain(payload);
      if |trackSamples| == 0 {
        return None;
      }
      result := Some(payload[..trackLen]);
    }

    /** `BaseRemuxer.flush` */
    method Flush()
      modifies this
      ensures View() == Cleared(old(View()))
    {
      trackLen := 0;
      trackSamples := [];
    }

    method ResetTrack()
      modifies this
      ensures View() == Tracks.ResetTrack(old(View()))
    {
      readyToDecode := false;
      sps, pps := None, None;
      nextDts, dts := 0, 0;
    }
  }

  lemma {:induction false} SampleDataPrefix(kind: Kind, units: seq<ByteString>, i: nat)
    requires i <= |units|
    ensures |SampleData(kind, units[..i])| <= |SampleData(kind, units)|
    decreases |units|
  {
    if i < |units| {
      SampleDataPrefix(kind, units[..|units| - 1], i);
      assert units[..|units| - 1][..i] == units[..i];
    } else {
      assert units[..i] == units;
    }
  }

  lemma SampleDataStep(kind: Kind, units: seq<ByteString>, i: nat)
    requires i < |units|
    ensures SampleData(kind, units[..i + 1]) == SampleData(kind, units[..i]) + UnitData(kind, units[i])
    ensures |SampleData(kind, units[..i + 1])| <= |SampleData(kind, units)|
  {
    assert units[..i + 1][..i] == units[..i];
    SampleDataPrefix(kind, units, i + 1);
  }

  lemma {:induction false} SizesPrefix(kind: Kind, queue: seq<Queued>, n: nat)
    requires QueueSized(kind, queue) && n <= |queue|
    ensures Sizes(queue[..n]) <= Sizes(queue) && QueueSized(kind, queue[..n])
    decreases |queue|
  {
    if n < |queue| {
      SizesPrefix(kind, queue[..|queue| - 1], n);
      assert queue[..|queue| - 1][..n] == queue[..n];
    } else {
      assert queue[..n] == queue;
    }
  }

  /** `n` samples have been taken off the queue: those `kept` take `offset` bytes, the others `dropped`. */
  ghost predicate Draining(kind: Kind, queue: seq<Queued>, n: nat, kept: seq<Queued>, offset: nat, dropped: nat) {
    && n <= |queue| && QueueSized(kind, queue) && kept == Timed(queue[..n])
    && offset == Sizes(kept) && offset + dropped == Sizes(queue[..n]) <= Sizes(queue)
  }

  lemma DrainStep(kind: Kind, queue: seq<Queued>, n: nat, kept: seq<Queued>, offset: nat, dropped: nat)
    requires Draining(kind, queue, n, kept, offset, dropped) && n < |queue|
    ensures queue[n..][1..] == queue[n + 1..] && queue[n..][0] == queue[n]
    ensures var q := queue[n];
            && offset + dropped + q.size <= Sizes(queue) && q.size == |SampleData(kind, q.units)|
            && if q.duration <= 0 then Draining(kind, queue, n + 1, kept, offset, dropped + q.size)
               else Draining(kind, queue, n + 1, kept + [q], offset + q.size, dropped)
  {
    SizesPrefix(kind, queue, n + 1);
    assert queue[..n + 1][..n] == queue[..n];
    KeepStep(kind, kept, queue[n]);
    assert kept + [] == kept;
  }

  /** What one more kept sample adds. */
  lemma KeepStep(kind: Kind, kept: seq<Queued>, q: Queued)
    ensures Sizes(kept + [q]) == Sizes(kept) + q.size
    ensures Durations(kept + [q]) == Durations(kept) + q.duration
    ensures ToSamples(kind, kept + [q]) == ToSamples(kind, kept) + [ToSample(kind, q)]
    ensures Flatten(Datas(kind, kept + [q])) == Flatten(Datas(kind, kept)) + SampleData(kind, q.units)
  {
    assert (kept + [q])[..|kept|] == kept;
    FlattenAppend(Datas(kind, kept), [SampleData(kind, q.units)]);
    FlattenOne(SampleData(kind, q.units));
  }
}
