/** What the frames of `getVideoFrames` are: their shape, their units, their durations. */
module FramerProperties {
  import opened Bytes
  import opened Media
  import opened Framer
  import opened BitStream
  import opened ExpGolombCodes

  // ----- What a unit is -----

  /** Section 7.3.1 of ITU-T H.264: forbidden_zero_bit, nal_ref_idc, nal_unit_type. */
  function NalHeader(refIdc: nat, kind: nat): BitString {
    [0] + ToBits(refIdc, 2) + ToBits(kind, 5)
  }

  lemma NalTypeIs(payload: ByteString, refIdc: nat, kind: nat)
    requires kind < 32 && BitsAt(Bits(payload), 0, NalHeader(refIdc, kind))
    ensures NalType(payload) == kind
  {
    var b := Bits(payload);
    BitsAtConcat(b, 0, [0] + ToBits(refIdc, 2), ToBits(kind, 5));
    assert Pow2(5) == 32 && Pow2(0) == 1;
    ValueOfBits(b, 3, kind, 5);
    ChunkValue(payload, 3, 5);
  }

  /** The code behind the one-byte header is the value read, up to the 32 bits of its arithmetic. */
  lemma FirstMbIs(payload: ByteString, k: nat)
    requires k + 1 < TWO_32 && BitsAt(Bits(payload), 8, Ue(k))
    ensures FirstMb(payload) == if k + 1 < TWO_31 then k else k - TWO_32
  {
    BitsAtBound(Bits(payload), 8, Ue(k));
    ReadUeCode(Bits(payload), 8, k);
  }

  /** A unit by its syntax: the header of section 7.3.1 and, in sections 7.3.2.8 and 7.3.3, the code of
      first_mb_in_slice right behind it. The types 1 and 5 are slices, and they start a picture exactly when
      first_mb_in_slice is 0. */
  lemma UnitIs(payload: ByteString, refIdc: nat, kind: nat, k: nat)
    requires kind < 32 && k + 1 < TWO_32 && BitsAt(Bits(payload), 0, NalHeader(refIdc, kind) + Ue(k))
    ensures var u := MakeUnit(payload);
            && u.payload == payload && u.Type() == kind && (u.IsVcl() <==> kind == 1 || kind == 5)
            && (u.isfmb <==> u.IsVcl() && k == 0)
  {
    BitsAtConcat(Bits(payload), 0, NalHeader(refIdc, kind), Ue(k));
    NalTypeIs(payload, refIdc, kind);
    FirstMbIs(payload, k);
  }

  /** A slice that is cut off right behind its header does not start a picture. */
  lemma CutUnitIs(payload: ByteString)
    requires |payload| <= 1
    ensures FirstMb(payload) == -1 && !MakeUnit(payload).isfmb
  {
    var b := Bits(payload);
    var at := ReadBits(b, 8, 0).index;
    assert at == |b|;
    assert LeadingZeros(b, at) == 0;
  }

  // ----- Declared shape -----

  /** Units before the first slice of a picture. */
  predicate NoSlice(us: seq<Nalu>) {
    us == [] || (!us[|us| - 1].IsVcl() && NoSlice(us[..|us| - 1]))
  }

  /** (non-VCL)*, one VCL unit, (VCL units that do not start a picture)*. */
  predicate FrameShape(us: seq<Nalu>) {
    us != [] && us[|us| - 1].IsVcl() &&
    (NoSlice(us[..|us| - 1]) || (FrameShape(us[..|us| - 1]) && !us[|us| - 1].isfmb))
  }

  predicate HasIdr(us: seq<Nalu>) {
    us != [] && (us[|us| - 1].Type() == 5 || HasIdr(us[..|us| - 1]))
  }

  /** A unit that ends the picture before it. */
  predicate StartsPicture(u: Nalu) {
    u.isfmb || !u.IsVcl()
  }

  predicate OpenOk(o: Open) {
    o.keyFrame == HasIdr(o.units) && if o.vcl then FrameShape(o.units) else NoSlice(o.units)
  }

  /** Every frame is complete, and the unit behind it starts the next picture. */
  predicate WellGrouped(g: Grouping)
    decreases |g.frames|
  {
    var n := |g.frames|;
    OpenOk(g.open) &&
    (n > 0 ==>
       g.open.units != [] && StartsPicture(g.open.units[0]) &&
       WellGrouped(Grouping(g.frames[..n - 1], AsOpen(g.frames[n - 1]))))
  }

  /** A frame, seen as the open group it was. */
  function AsOpen(g: Group): Open {
    Open(g.units, g.keyFrame, true)
  }

  function UnitsIn(groups: seq<Group>): seq<Nalu> {
    if groups == [] then [] else UnitsIn(groups[..|groups| - 1]) + groups[|groups| - 1].units
  }

  /** All units of a grouping, in order. */
  function AllUnits(g: Grouping): seq<Nalu> {
    UnitsIn(g.frames) + g.open.units
  }

  // ----- The grouping has it -----

  lemma Front<T>(s: seq<T>, x: T)
    ensures (s + [x])[..|s + [x]| - 1] == s && (s + [x])[|s + [x]| - 1] == x
  {
  }

  lemma ExtendOk(o: Open, u: Nalu)
    requires OpenOk(o) && !Breaks(o, u)
    ensures OpenOk(Extend(o, u))
  {
    Front(o.units, u);
  }

  lemma StartOk(u: Nalu)
    ensures OpenOk(Extend(NOTHING_OPEN, u)) && Extend(NOTHING_OPEN, u).units == [u]
  {
    ExtendOk(NOTHING_OPEN, u);
  }

  lemma PushOk(g: Grouping, u: Nalu)
    requires WellGrouped(g)
    ensures WellGrouped(Push(g, u)) && AllUnits(Push(g, u)) == AllUnits(g) + [u]
  {
    var p := Push(g, u);
    if Breaks(g.open, u) {
      var group := Group(g.open.units, g.open.keyFrame);
      Front(g.frames, group);
      StartOk(u);
      assert AsOpen(group) == g.open;
      assert UnitsIn(p.frames) == AllUnits(g);
    } else {
      ExtendOk(g.open, u);
      assert g.open.units != [] ==> p.open.units[0] == g.open.units[0];
    }
  }

  /** Units are conserved, and every frame has the shape, wherever the calls cut the stream. */
  lemma {:induction false} PushAllOk(g: Grouping, us: seq<Nalu>)
    requires WellGrouped(g)
    ensures WellGrouped(PushAll(g, us)) && AllUnits(PushAll(g, us)) == AllUnits(g) + us
    decreases |us|
  {
    if us == [] {
      assert AllUnits(g) + [] == AllUnits(g);
    } else {
      var front := us[..|us| - 1];
      PushAllOk(g, front);
      PushOk(PushAll(g, front), us[|us| - 1]);
      SplitLast(AllUnits(g), us);
    }
  }

  lemma SplitLast(a: seq<Nalu>, us: seq<Nalu>)
    requires us != []
    ensures a + us == (a + us[..|us| - 1]) + [us[|us| - 1]]
  {
  }

  // ----- It is the only one -----

  /** The grouping before the last unit came. */
  function Unpush(g: Grouping): Grouping
    requires g.open.units != []
  {
    var n := |g.frames|;
    var front := g.open.units[..|g.open.units| - 1];
    if front == [] && n > 0 then Grouping(g.frames[..n - 1], AsOpen(g.frames[n - 1]))
    else Grouping(g.frames, Open(front, HasIdr(front), !NoSlice(front)))
  }

  lemma ShapeIsNoSlice(us: seq<Nalu>)
    ensures !(FrameShape(us) && NoSlice(us))
  {
  }

  lemma Rejoin<T>(s: seq<T>)
    requires s != []
    ensures s[..|s| - 1] + [s[|s| - 1]] == s
  {
  }

  /** The last unit opened the group. */
  lemma UnpushFirst(g: Grouping)
    requires WellGrouped(g) && |g.open.units| == 1 && g.frames != []
    ensures WellGrouped(Unpush(g)) && Push(Unpush(g), g.open.units[0]) == g
  {
    var u := g.open.units[0];
    Rejoin(g.open.units);
    assert g.open.units == [u];
    Rejoin(g.frames);
    StartOk(u);
    ShapeIsNoSlice(g.open.units);
  }

  /** The open group before its last unit came. */
  lemma OpenFront(o: Open)
    requires OpenOk(o) && o.units != []
    ensures var front := o.units[..|o.units| - 1];
            var p, u := Open(front, HasIdr(front), !NoSlice(front)), o.units[|o.units| - 1];
            OpenOk(p) && !Breaks(p, u) && Extend(p, u) == o
  {
    var front := o.units[..|o.units| - 1];
    ShapeIsNoSlice(front);
    ShapeIsNoSlice(o.units);
    Rejoin(o.units);
  }

  lemma Reopen(g: Grouping, o: Open)
    requires WellGrouped(g) && OpenOk(o)
    requires g.frames != [] ==> o.units != [] && o.units[0] == g.open.units[0]
    ensures WellGrouped(Grouping(g.frames, o))
  {
  }

  lemma UnpushOk(g: Grouping)
    requires WellGrouped(g) && g.open.units != []
    ensures WellGrouped(Unpush(g)) && Push(Unpush(g), g.open.units[|g.open.units| - 1]) == g
  {
    var front := g.open.units[..|g.open.units| - 1];
    if front == [] && g.frames != [] {
      UnpushFirst(g);
    } else {
      OpenFront(g.open);
      Reopen(g, Open(front, HasIdr(front), !NoSlice(front)));
    }
  }

  lemma UnpushUnits(g: Grouping)
    requires WellGrouped(g) && g.open.units != []
    ensures AllUnits(Unpush(g)) == AllUnits(g)[..|AllUnits(g)| - 1]
    ensures g.open.units[|g.open.units| - 1] == AllUnits(g)[|AllUnits(g)| - 1]
  {
    UnpushOk(g);
    PushOk(Unpush(g), g.open.units[|g.open.units| - 1]);
    Front(AllUnits(Unpush(g)), g.open.units[|g.open.units| - 1]);
  }

  /** There is one way to cut a list of units into frames of that shape and an open rest, and it is
      what pushing the units one by one finds. */
  lemma {:induction false} GroupingUnique(g: Grouping)
    requires WellGrouped(g)
    ensures PushAll(Grouping([], NOTHING_OPEN), AllUnits(g)) == g
    decreases |AllUnits(g)|
  {
    var us := AllUnits(g);
    if g.open.units == [] {
      assert g.frames == [] && us == [];
      assert g.open == NOTHING_OPEN by { ShapeIsNoSlice([]); }
    } else {
      UnpushOk(g);
      UnpushUnits(g);
      GroupingUnique(Unpush(g));
    }
  }

  /** The frames and the pending units after one call at a fixed frame rate. */
  lemma FixedRateFrames(s: State, nalus: seq<ByteString>)
    requires OpenOk(s.pending)
    ensures var g := PushAll(Grouping([], s.pending), MakeUnits(nalus));
            WellGrouped(g) && OpenOk(g.open) && UnitsIn(g.frames) + g.open.units == s.pending.units + MakeUnits(nalus)
  {
    assert UnitsIn([]) + s.pending.units == s.pending.units;
    PushAllOk(Grouping([], s.pending), MakeUnits(nalus));
  }

  // ----- Chunks with a duration -----

  predicate AnySlice(us: seq<Nalu>) {
    us != [] && (us[|us| - 1].IsVcl() || AnySlice(us[..|us| - 1]))
  }

  lemma {:induction false} AnySliceIs(us: seq<Nalu>)
    ensures AnySlice(us) <==> !NoSlice(us)
    decreases |us|
  {
    if us != [] { AnySliceIs(us[..|us| - 1]); }
  }

  lemma {:induction false} AnySliceAppend(a: seq<Nalu>, b: seq<Nalu>)
    ensures AnySlice(a + b) <==> AnySlice(a) || AnySlice(b)
    decreases |b|
  {
    if b == [] {
      assert a + b == a;
    } else {
      AnySliceAppend(a, b[..|b| - 1]);
      assert (a + b)[..|a + b| - 1] == a + b[..|b| - 1];
    }
  }

  lemma FrameHasSlice(g: Grouping)
    requires WellGrouped(g) && g.frames != []
    ensures AnySlice(AllUnits(g))
  {
    var n := |g.frames|;
    AnySliceAppend(UnitsIn(g.frames[..n - 1]), g.frames[n - 1].units);
    AnySliceAppend(UnitsIn(g.frames), g.open.units);
  }

  /** Closing keeps all units, in order; it fails exactly when there is no slice at all. */
  lemma CloseKeeps(g: Grouping)
    requires WellGrouped(g) && g.open.units != []
    ensures Close(g).Some? <==> AnySlice(AllUnits(g))
    ensures Close(g).Some? ==> UnitsIn(Close(g).value) == AllUnits(g)
  {
    var n := |g.frames|;
    if g.open.vcl {
      Front(g.frames, Group(g.open.units, g.open.keyFrame));
      AnySliceAppend(UnitsIn(g.frames), g.open.units);
    } else if n > 0 {
      FrameHasSlice(g);
      var last := Group(g.frames[n - 1].units + g.open.units, g.frames[n - 1].keyFrame);
      Front(g.frames[..n - 1], last);
      Joined(UnitsIn(g.frames[..n - 1]), g.frames[n - 1].units, g.open.units);
    } else {
      AnySliceIs(g.open.units);
      assert AllUnits(g) == g.open.units;
    }
  }

  lemma Joined(a: seq<Nalu>, b: seq<Nalu>, c: seq<Nalu>)
    ensures (a + b) + c == a + (b + c)
  {
  }

  /** Every frame: (non-VCL)*, one VCL unit, (VCL units with first_mb_in_slice not 0)*, and a keyframe
      exactly when it has an IDR unit. */
  predicate AllShaped(frames: seq<VideoFrame>) {
    frames == [] ||
    (FrameShape(frames[|frames| - 1].units) && frames[|frames| - 1].keyFrame == HasIdr(frames[|frames| - 1].units)
     && AllShaped(frames[..|frames| - 1]))
  }

  /** A frame, and non-VCL units behind it. */
  predicate ClosedShape(us: seq<Nalu>) {
    FrameShape(us) || (us != [] && !us[|us| - 1].IsVcl() && ClosedShape(us[..|us| - 1]))
  }

  /** All frames have the shape but the last, which may have the rest of the chunk behind it; all are marked. */
  predicate CallShaped(frames: seq<VideoFrame>) {
    frames != [] && AllShaped(frames[..|frames| - 1])
    && ClosedShape(frames[|frames| - 1].units) && frames[|frames| - 1].keyFrame == HasIdr(frames[|frames| - 1].units)
  }

  lemma {:induction false} JoinedShape(a: seq<Nalu>, b: seq<Nalu>)
    requires FrameShape(a) && NoSlice(b)
    ensures ClosedShape(a + b) && HasIdr(a + b) == HasIdr(a)
    decreases |b|
  {
    if b == [] {
      assert a + b == a;
    } else {
      JoinedShape(a, b[..|b| - 1]);
      assert (a + b)[..|a + b| - 1] == a + b[..|b| - 1];
    }
  }

  /** Frames that a chunk completes, with any durations. */
  lemma {:induction false} GroupsShaped(g: Grouping, ds: seq<int>)
    requires WellGrouped(g) && |ds| == |g.frames|
    ensures AllShaped(Timed(g.frames, ds))
    decreases |g.frames|
  {
    var n := |g.frames|;
    if n > 0 { GroupsShaped(Grouping(g.frames[..n - 1], AsOpen(g.frames[n - 1])), ds[..n - 1]); }
  }

  lemma TimedSnoc(groups: seq<Group>, group: Group, ds: seq<int>)
    requires |ds| == |groups| + 1
    ensures Timed(groups + [group], ds) ==
            Timed(groups, ds[..|groups|]) + [VideoFrame(group.units, group.keyFrame, ds[|groups|])]
  {
    Front(groups, group);
  }

  lemma ClosedAre(g: Grouping, ds: seq<int>)
    requires WellGrouped(g) && g.open.units != [] && Close(g).Some? && |ds| == |Close(g).value|
    ensures CallShaped(Timed(Close(g).value, ds))
  {
    var n := |g.frames|;
    if g.open.vcl {
      GroupsShaped(g, ds[..n]);
      TimedSnoc(g.frames, Group(g.open.units, g.open.keyFrame), ds);
    } else {
      var last := g.frames[n - 1];
      GroupsShaped(Grouping(g.frames[..n - 1], AsOpen(last)), ds[..n - 1]);
      TimedSnoc(g.frames[..n - 1], Group(last.units + g.open.units, last.keyFrame), ds);
      JoinedShape(last.units, g.open.units);
    }
  }

  function DurationsOf(frames: seq<VideoFrame>): seq<int> {
    if frames == [] then [] else DurationsOf(frames[..|frames| - 1]) + [frames[|frames| - 1].duration]
  }

  lemma {:induction false} TimedDurations(groups: seq<Group>, ds: seq<int>)
    requires |groups| == |ds|
    ensures DurationsOf(Timed(groups, ds)) == ds
    decreases |groups|
  {
    if groups != [] {
      TimedDurations(groups[..|groups| - 1], ds[..|groups| - 1]);
      assert ds == ds[..|groups| - 1] + [ds[|groups| - 1]];
    }
  }

  /** The frames of a call with a duration: their shape, their marks, and that each lasts its share. */
  lemma TimedFrames(c: Config, s: State, nalus: seq<ByteString>, duration: int) returns (frames: seq<VideoFrame>)
    requires OpenOk(s.pending) && nalus != [] && duration != 0
    requires AnySlice(s.pending.units + MakeUnits(nalus))
    ensures GetVideoFrames(c, s, nalus, duration).frames == Some(frames) && CallShaped(frames)
    ensures DurationsOf(frames) == FrameDurations(duration, |frames|, c.frameDuration)
  {
    var g := PushAll(Grouping([], s.pending), MakeUnits(nalus));
    FixedRateFrames(s, nalus);
    CallTimes(c, s, nalus, duration, g);
    CloseKeeps(g);
    var ds := FrameDurations(duration, |Close(g).value|, c.frameDuration);
    frames := Timed(Close(g).value, ds);
    TimesAre(g, ds);
  }

  lemma CallTimes(c: Config, s: State, nalus: seq<ByteString>, duration: int, g: Grouping)
    requires nalus != [] && duration != 0 && g == PushAll(Grouping([], s.pending), MakeUnits(nalus))
    ensures g.open.units != [] && GetVideoFrames(c, s, nalus, duration).frames.Some? == Close(g).Some?
    ensures Close(g).Some? ==>
              && Close(g).value != [] && GetVideoFrames(c, s, nalus, duration).frames ==
                 Some(Timed(Close(g).value, FrameDurations(duration, |Close(g).value|, c.frameDuration)))
  {
    PushedSome(Grouping([], s.pending), MakeUnits(nalus));
  }

  lemma TimesAre(g: Grouping, ds: seq<int>)
    requires WellGrouped(g) && g.open.units != [] && Close(g).Some? && |ds| == |Close(g).value|
    ensures var frames := Timed(Close(g).value, ds); CallShaped(frames) && DurationsOf(frames) == ds
  {
    ClosedAre(g, ds);
    TimedDurations(Close(g).value, ds);
  }

  /** A call of `getVideoFrames` with a duration fails exactly when neither the pending nor the new units
      hold a slice; otherwise it passes on every unit and leaves none pending. */
  lemma TimedCall(c: Config, s: State, nalus: seq<ByteString>, duration: int)
    requires OpenOk(s.pending) && nalus != [] && duration != 0
    ensures var r := GetVideoFrames(c, s, nalus, duration);
            && (r.frames.Some? <==> AnySlice(s.pending.units + MakeUnits(nalus)))
            && r.state.pending == NOTHING_OPEN && r.state.remaining == s.remaining
            && (r.frames.Some? ==> FrameUnits(r.frames.value) == s.pending.units + MakeUnits(nalus))
            && (r.frames.None? ==> r.state.marks == s.marks)
  {
    var g := PushAll(Grouping([], s.pending), MakeUnits(nalus));
    FixedRateFrames(s, nalus);
    CallCloses(c, s, nalus, duration, g);
    CloseKeeps(g);
  }

  lemma CallCloses(c: Config, s: State, nalus: seq<ByteString>, duration: int, g: Grouping)
    requires nalus != [] && duration != 0 && g == PushAll(Grouping([], s.pending), MakeUnits(nalus))
    ensures var r := GetVideoFrames(c, s, nalus, duration);
            && g.open.units != [] && r.frames.Some? == Close(g).Some? && r.state.pending == NOTHING_OPEN
            && r.state.remaining == s.remaining && (r.frames.None? ==> r.state.marks == s.marks)
            && (r.frames.Some? ==> FrameUnits(r.frames.value) == UnitsIn(Close(g).value))
  {
    PushedSome(Grouping([], s.pending), MakeUnits(nalus));
    if Close(g).Some? {
      TimedUnits(Close(g).value, FrameDurations(duration, |Close(g).value|, c.frameDuration));
    }
  }

  function FrameUnits(frames: seq<VideoFrame>): seq<Nalu> {
    if frames == [] then [] else FrameUnits(frames[..|frames| - 1]) + frames[|frames| - 1].units
  }

  lemma {:induction false} TimedUnits(groups: seq<Group>, ds: seq<int>)
    requires |groups| == |ds|
    ensures FrameUnits(Framer.Timed(groups, ds)) == UnitsIn(groups)
    decreases |groups|
  {
    if groups != [] { TimedUnits(groups[..|groups| - 1], ds[..|groups| - 1]); }
  }
}
