/** What an ISO reader finds in the fragment that one `flush` writes for a track. */
module FragmentContent {
  import opened Bytes
  import opened Media
  import opened Tracks
  import Mp4
  import opened Mp4Reader
  import opened Controller

  // ----- Sizes -----

  lemma {:induction false} SizedAppend(a: seq<Mp4.Sample>, da: seq<ByteString>, b: seq<Mp4.Sample>, db: seq<ByteString>)
    requires Sized(a, da) && Sized(b, db)
    ensures Sized(a + b, da + db)
    decreases |a|
  {
    if a == [] {
      assert a + b == b && da + db == db;
    } else {
      SizedAppend(a[1..], da[1..], b, db);
      assert (a + b)[1..] == a[1..] + b && (da + db)[1..] == da[1..] + db;
    }
  }

  lemma SizedOne(s: Mp4.Sample, d: ByteString)
    requires s.size == |d|
    ensures Sized([s], [d])
  {
    assert [s][1..] == [] && [d][1..] == [];
  }

  lemma {:induction false} SizedQueue(kind: Kind, queue: seq<Queued>)
    requires QueueSized(kind, queue)
    ensures Sized(ToSamples(kind, queue), Datas(kind, queue))
    decreases |queue|
  {
    if queue != [] {
      var front, last := queue[..|queue| - 1], queue[|queue| - 1];
      SizedQueue(kind, front);
      SizedOne(ToSample(kind, last), SampleData(kind, last.units));
      SizedAppend(ToSamples(kind, front), Datas(kind, front), [ToSample(kind, last)], [SampleData(kind, last.units)]);
    }
  }

  function NoData(n: nat): (d: seq<ByteString>)
    ensures |d| == n
  {
    if n == 0 then [] else [[]] + NoData(n - 1)
  }

  lemma {:induction false} SizedEmpty(done: seq<Mp4.Sample>)
    requires AllEmpty(done)
    ensures Sized(done, NoData(|done|)) && Flatten(NoData(|done|)) == []
    decreases |done|
  {
    if done != [] { SizedEmpty(done[1..]); }
  }

  /** The data of the samples of the fragment, those left over from before included. */
  function FragmentDatas(t: Track): seq<ByteString> {
    NoData(|t.done|) + Datas(t.kind, Timed(t.queue))
  }

  function FragmentSamples(t: Track): seq<Mp4.Sample> {
    t.done + ToSamples(t.kind, Timed(t.queue))
  }

  function FragmentFor(t: Track, seqNo: int): Written {
    Written(seqNo, t.nextDts, t.id, FragmentSamples(t), Flatten(Datas(t.kind, Timed(t.queue))))
  }

  /** What one turn of `flush` dispatches, if anything. */
  lemma FlushWrites(t: Track, seqNo: int)
    ensures FlushTrack(t, seqNo).events == [] || FlushTrack(t, seqNo).events == [Media(t.kind, FragmentFor(t, seqNo))]
    ensures FlushTrack(t, seqNo).events != [] <==>
            t.params.ready && t.queue != [] && Flatten(Datas(t.kind, Timed(t.queue))) != [] && FragmentSamples(t) != []
  {
  }

  /** A reader of the fragment finds its number, the track's time, and each sample with exactly its own
      data: the payload has no gap and no overrun, dropped samples or not. */
  lemma FragmentReads(t: Track, seqNo: int)
    requires Accounted(t) && |FragmentFor(t, seqNo).Bytes()| < TWO_31
    ensures |FragmentSamples(t)| == |FragmentDatas(t)|
    ensures ReadFragment(FragmentFor(t, seqNo).Bytes()) ==
            Some(Fragment(ToUint32(seqNo), ToUint32(t.id), ToUint32(t.nextDts),
                          Views(FragmentSamples(t), FragmentDatas(t))))
  {
    FragmentSized(t);
    FragmentRoundTrip(seqNo, t.nextDts, t.id, FragmentSamples(t), FragmentDatas(t));
  }

  lemma FragmentSized(t: Track)
    requires Accounted(t)
    ensures Sized(FragmentSamples(t), FragmentDatas(t))
    ensures Flatten(FragmentDatas(t)) == Flatten(Datas(t.kind, Timed(t.queue)))
  {
    var kept := Timed(t.queue);
    TimedSized(t.kind, t.queue);
    SizedQueue(t.kind, kept);
    SizedEmpty(t.done);
    SizedAppend(t.done, NoData(|t.done|), ToSamples(t.kind, kept), Datas(t.kind, kept));
    FlattenAppend(NoData(|t.done|), Datas(t.kind, kept));
  }

  // ----- Time -----

  function Wraps(k: int): int {
    k * TWO_32
  }

  /** Equal modulo 2^32. */
  ghost predicate Congruent(a: int, b: int) {
    exists k :: a == b + Wraps(k)
  }

  lemma CongruentAdd(a: int, b: int, c: int, d: int)
    requires Congruent(a, b) && Congruent(c, d)
    ensures Congruent(a + c, b + d)
  {
    var k :| a == b + Wraps(k);
    var l :| c == d + Wraps(l);
    assert a + c == b + d + Wraps(k + l);
  }

  lemma CongruentSub(a: int, b: int, c: int, d: int)
    requires Congruent(a, b) && Congruent(c, d)
    ensures Congruent(a - c, b - d)
  {
    var k :| a == b + Wraps(k);
    var l :| c == d + Wraps(l);
    assert a - c == b - d + Wraps(k - l);
  }

  lemma CongruentBack(a: int, b: int)
    requires Congruent(a, b)
    ensures Congruent(b, a)
  {
    CongruentSelf(a + b);
    CongruentSub(a + b, a + b, a, b);
  }

  /** Fields of 32 bits hold the same number. */
  lemma CongruentUint32(a: int, b: int)
    ensures ToUint32(a) == ToUint32(b) <==> Congruent(a, b)
  {
    if Congruent(a, b) {
      var k :| a == b + Wraps(k);
      SameUint32(a, b, k);
    } else if ToUint32(a) == ToUint32(b) {
      Uint32Congruent(a);
      Uint32Congruent(b);
      CongruentBack(ToUint32(a), a);
      CongruentChain(a, ToUint32(a), b);
    }
  }

  lemma CongruentChain(a: int, b: int, c: int)
    requires Congruent(a, b) && Congruent(b, c)
    ensures Congruent(a, c)
  {
    var k :| a == b + Wraps(k);
    var l :| b == c + Wraps(l);
    assert a == c + Wraps(k + l);
  }

  /** Of two congruent sums, one pair of terms is congruent exactly when the other is. */
  lemma CongruentTerms(a: int, b: int, c: int, d: int)
    requires Congruent(a + b, c + d)
    ensures Congruent(c, a) <==> Congruent(b, d)
  {
    if Congruent(c, a) {
      CongruentBack(c, a);
      CongruentSub(a + b, c + d, a, c);
    }
    if Congruent(b, d) {
      CongruentSub(a + b, c + d, b, d);
      CongruentBack(a, c);
    }
  }

  lemma SameUint32(x: int, y: int, k: int)
    requires x == y + k * TWO_32
    ensures ToUint32(x) == ToUint32(y)
  {
    Uint32IsMod(x);
    Uint32IsMod(y);
  }

  lemma Uint32IsMod(x: int)
    ensures ToUint32(x) == x % TWO_32
  {
  }

  lemma Uint32Congruent(x: int)
    ensures Congruent(ToUint32(x), x)
  {
    Uint32IsMod(x);
    assert ToUint32(x) == x + Wraps(-(x / TWO_32));
  }

  lemma CongruentSelf(x: int)
    ensures Congruent(x, x)
  {
    assert x == x + Wraps(0);
  }

  function ViewTime(views: seq<SampleView>): int {
    if views == [] then 0 else views[0].duration + ViewTime(views[1..])
  }

  function SampleTime(samples: seq<Mp4.Sample>): int {
    if samples == [] then 0 else samples[0].duration + SampleTime(samples[1..])
  }

  lemma {:induction false} ViewTimeOf(samples: seq<Mp4.Sample>, datas: seq<ByteString>)
    requires |samples| == |datas|
    ensures Congruent(ViewTime(Views(samples, datas)), SampleTime(samples))
    decreases |samples|
  {
    if samples == [] {
      CongruentSelf(0);
    } else {
      ViewTimeOf(samples[1..], datas[1..]);
      Uint32Congruent(samples[0].duration);
      var rest := Views(samples[1..], datas[1..]);
      assert Views(samples, datas)[1..] == rest;
      CongruentAdd(ToUint32(samples[0].duration), samples[0].duration, ViewTime(rest), SampleTime(samples[1..]));
    }
  }

  lemma {:induction false} SampleTimeAppend(a: seq<Mp4.Sample>, b: seq<Mp4.Sample>)
    ensures SampleTime(a + b) == SampleTime(a) + SampleTime(b)
  {
    if a == [] {
      assert a + b == b;
    } else {
      assert (a + b)[1..] == a[1..] + b;
      SampleTimeAppend(a[1..], b);
    }
  }

  lemma {:induction false} SampleTimeOf(kind: Kind, queue: seq<Queued>)
    ensures SampleTime(ToSamples(kind, queue)) == Durations(queue)
    decreases |queue|
  {
    if queue != [] {
      var front, last := queue[..|queue| - 1], ToSample(kind, queue[|queue| - 1]);
      SampleTimeOf(kind, front);
      SampleTimeAppend(ToSamples(kind, front), [last]);
      assert [last][1..] == [];
    }
  }

  // ----- NAL units -----

  /** The NAL units of the samples, in order. */
  function NalsOf(views: seq<SampleView>): Option<seq<ByteString>> {
    if views == [] then Some([]) else
      var first, rest := ReadNals(views[0].data), NalsOf(views[1..]);
      if first.Some? && rest.Some? then Some(first.value + rest.value) else None
  }

  /** The units of a list of samples. */
  function UnitsOf(queue: seq<Queued>): seq<ByteString> {
    if queue == [] then [] else UnitsOf(queue[..|queue| - 1]) + queue[|queue| - 1].units
  }

  lemma {:induction false} AvcSampleAppend(a: seq<ByteString>, b: seq<ByteString>)
    ensures AvcSample(a + b) == AvcSample(a) + AvcSample(b)
    decreases |a|
  {
    if a == [] {
      assert a + b == b;
    } else {
      assert (a + b)[1..] == a[1..] + b;
      AvcSampleAppend(a[1..], b);
    }
  }

  lemma {:induction false} VideoSampleData(units: seq<ByteString>)
    ensures SampleData(Video, units) == AvcSample(units)
    decreases |units|
  {
    if units != [] {
      var front, last := units[..|units| - 1], units[|units| - 1];
      VideoSampleData(front);
      var one: seq<ByteString> := [last];
      AvcSampleAppend(front, one);
      assert units == front + one;
      assert one[1..] == [];
      assert LengthPrefixed(last) + [] == LengthPrefixed(last);
    }
  }

  lemma {:induction false} NalsOfAppend(a: seq<SampleView>, b: seq<SampleView>)
    requires NalsOf(a).Some? && NalsOf(b).Some?
    ensures NalsOf(a + b) == Some(NalsOf(a).value + NalsOf(b).value)
    decreases |a|
  {
    if a == [] {
      assert a + b == b;
      assert NalsOf(a).value + NalsOf(b).value == NalsOf(b).value;
    } else {
      assert (a + b)[1..] == a[1..] + b;
      NalsOfAppend(a[1..], b);
      NalsRegroup(ReadNals(a[0].data).value, NalsOf(a[1..]).value, NalsOf(b).value);
    }
  }

  lemma NalsRegroup(a: seq<ByteString>, b: seq<ByteString>, c: seq<ByteString>)
    ensures a + (b + c) == (a + b) + c
  {
  }

  lemma {:induction false} ViewsAppend(a: seq<Mp4.Sample>, da: seq<ByteString>, b: seq<Mp4.Sample>, db: seq<ByteString>)
    requires |a| == |da| && |b| == |db|
    ensures Views(a + b, da + db) == Views(a, da) + Views(b, db)
    decreases |a|
  {
    if a == [] {
      assert a + b == b && da + db == db;
    } else {
      ViewsAppend(a[1..], da[1..], b, db);
      assert (a + b)[1..] == a[1..] + b && (da + db)[1..] == da[1..] + db;
    }
  }

  lemma OneOf(views: seq<SampleView>, units: seq<ByteString>)
    requires |views| == 1 && ReadNals(views[0].data) == Some(units)
    ensures NalsOf(views) == Some(units)
  {
    var rest := views[1..];
    assert rest == [];
    assert NalsOf(rest).Some? && NalsOf(rest).value == [];
    assert units + NalsOf(rest).value == units;
  }

  lemma ViewsOne(s: Mp4.Sample, d: ByteString)
    ensures |Views([s], [d])| == 1 && Views([s], [d])[0].data == d
  {
    assert [s][1..] == [];
    assert [d][1..] == [];
  }

  lemma OneView(q: Queued)
    requires |SampleData(Video, q.units)| < TWO_31
    ensures NalsOf(Views([ToSample(Video, q)], [SampleData(Video, q.units)])) == Some(q.units)
  {
    VideoSampleData(q.units);
    NalsRoundTrip(q.units);
    ViewsOne(ToSample(Video, q), SampleData(Video, q.units));
    OneOf(Views([ToSample(Video, q)], [SampleData(Video, q.units)]), q.units);
  }

  /** The NAL units an ISO reader extracts are those of the kept samples. */
  lemma {:induction false} NalsOfQueue(queue: seq<Queued>)
    requires QueueSized(Video, queue) && Sizes(queue) < TWO_31
    ensures NalsOf(Views(ToSamples(Video, queue), Datas(Video, queue))) == Some(UnitsOf(queue))
    decreases |queue|
  {
    if queue != [] {
      var front, last := queue[..|queue| - 1], queue[|queue| - 1];
      NalsOfQueue(front);
      OneView(last);
      ViewsAppend(ToSamples(Video, front), Datas(Video, front),
                  [ToSample(Video, last)], [SampleData(Video, last.units)]);
      NalsOfAppend(Views(ToSamples(Video, front), Datas(Video, front)),
                   Views([ToSample(Video, last)], [SampleData(Video, last.units)]));
    }
  }
}
