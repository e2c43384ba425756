/** A reader of fragments by the rules of ISO/IEC 14496-12 and 14496-15, independent of the writer, and
    that it reads back what was written. */
module Mp4Reader {
  import opened Bytes
  import opened Mp4

  datatype BoxView = BoxView(kind: ByteString, body: ByteString)

  function Cons<T>(first: T, rest: Option<seq<T>>): Option<seq<T>> {
    match rest
    case None => None
    case Some(more) => Some([first] + more)
  }

  /** Section 4.2 of ISO/IEC 14496-12: boxes that tile `b`, each with its 32-bit size. */
  function ReadBoxes(b: ByteString): Option<seq<BoxView>>
    decreases |b|
  {
    if b == [] then Some([])
    else if |b| < 8 then None
    else
      var n := ReadU32(b, 0);
      if n < 8 || n > |b| then None else Cons(BoxView(b[4..8], b[8..n]), ReadBoxes(b[n..]))
  }

  /** A box type by its name. */
  function FourCc(name: string): (b: ByteString)
    requires |name| == 4
    ensures |b| == 4
  {
    [name[0] as int % 256, name[1] as int % 256, name[2] as int % 256, name[3] as int % 256]
  }

  datatype EntryView = EntryView(duration: nat, size: nat, flags: ByteString, offset: nat)

  /** Section 8.8.8: the sample table of a trun of version 0 with flags 0x000F01. An entry has 16 bytes:
      duration, size, flags and composition time offset. */
  function ReadEntries(b: ByteString): Option<seq<EntryView>>
    decreases |b|
  {
    if b == [] then Some([])
    else if |b| < 16 then None
    else Cons(EntryView(ReadU32(b, 0), ReadU32(b, 4), b[8..12], ReadU32(b, 12)), ReadEntries(b[16..]))
  }

  /** `dependency` is the byte of the sdtp box. */
  datatype SampleView = SampleView(duration: nat, flags: ByteString, offset: nat, dependency: Byte, data: ByteString)

  /** Samples lie one after the other from the data offset and end where the data ends; the sdtp box has
      one byte for each (section 8.6.4). */
  function CutSamples(entries: seq<EntryView>, dependencies: ByteString, data: ByteString): Option<seq<SampleView>>
    decreases |entries|
  {
    if entries == [] then if data == [] && dependencies == [] then Some([]) else None
    else
      var e := entries[0];
      if e.size > |data| || dependencies == [] then None
      else Cons(SampleView(e.duration, e.flags, e.offset, dependencies[0], data[..e.size]),
                CutSamples(entries[1..], dependencies[1..], data[e.size..]))
  }

  datatype Fragment = Fragment(sequenceNumber: nat, trackId: nat, decodeTime: nat, samples: seq<SampleView>)

  predicate IsBox(box: BoxView, name: string)
    requires |name| == 4
  {
    box.kind == FourCc(name)
  }

  /** A box of version 0 without flags, and with one 32-bit field. */
  predicate IsFieldBox(box: BoxView, name: string)
    requires |name| == 4
  {
    IsBox(box, name) && |box.body| == 8 && box.body[..4] == [0, 0, 0, 0]
  }

  /** The trun box, its data offset counted from the first byte of the moof box. */
  function ReadTrun(fragment: ByteString, trun: ByteString, dependencies: ByteString): Option<seq<SampleView>> {
    if |trun| < 12 || trun[..4] != [0, 0, 0x0F, 1] then None
    else
      var count, offset := ReadU32(trun, 4), ReadU32(trun, 8);
      match ReadEntries(trun[12..])
      case None => None
      case Some(entries) =>
        if |entries| != count || offset > |fragment| then None
        else CutSamples(entries, dependencies, fragment[offset..])
  }

  function ReadTraf(fragment: ByteString, sequenceNumber: nat, traf: ByteString): Option<Fragment> {
    match ReadBoxes(traf)
    case None => None
    case Some(boxes) =>
      if |boxes| == 4 && IsFieldBox(boxes[0], "tfhd") && IsFieldBox(boxes[1], "tfdt") && IsBox(boxes[2], "trun")
         && IsBox(boxes[3], "sdtp") && |boxes[3].body| >= 4 && boxes[3].body[..4] == [0, 0, 0, 0] then
        match ReadTrun(fragment, boxes[2].body, boxes[3].body[4..])
        case None => None
        case Some(samples) =>
          Some(Fragment(sequenceNumber, ReadU32(boxes[0].body, 4), ReadU32(boxes[1].body, 4), samples))
      else None
  }

  function ReadMoof(fragment: ByteString, moof: ByteString): Option<Fragment> {
    match ReadBoxes(moof)
    case None => None
    case Some(boxes) =>
      if |boxes| == 2 && IsFieldBox(boxes[0], "mfhd") && IsBox(boxes[1], "traf")
      then ReadTraf(fragment, ReadU32(boxes[0].body, 4), boxes[1].body) else None
  }

  /** A movie fragment box followed by its media data box. */
  function ReadFragment(fragment: ByteString): Option<Fragment> {
    match ReadBoxes(fragment)
    case None => None
    case Some(boxes) =>
      if |boxes| == 2 && IsBox(boxes[0], "moof") && IsBox(boxes[1], "mdat")
      then ReadMoof(fragment, boxes[0].body) else None
  }

  /** Section 5.2.3 of ISO/IEC 14496-15: NAL units behind 4-byte lengths. */
  function ReadNals(data: ByteString): Option<seq<ByteString>>
    decreases |data|
  {
    if data == [] then Some([])
    else if |data| < 4 then None
    else
      var n := ReadU32(data, 0);
      if 4 + n > |data| then None else Cons(data[4..4 + n], ReadNals(data[4 + n..]))
  }

  // ----- Round trips -----

  /** The types that are written are the names of the standard. */
  lemma BoxTypes()
    ensures MOOF == FourCc("moof") && MFHD == FourCc("mfhd") && TRAF == FourCc("traf") && TFHD == FourCc("tfhd")
    ensures TFDT == FourCc("tfdt") && TRUN == FourCc("trun") && SDTP == FourCc("sdtp") && MDAT == FourCc("mdat")
  {
  }

  lemma ReadBoxesBox(kind: ByteString, body: ByteString, rest: ByteString)
    requires |kind| == 4 && 8 + |body| < TWO_32
    ensures ReadBoxes(Box(kind, body) + rest) == Cons(BoxView(kind, body), ReadBoxes(rest))
  {
    var b, n := Box(kind, body) + rest, 8 + |body|;
    U32RoundTrip(n, [], kind + body + rest);
    assert b == [] + U32(n) + (kind + body + rest);
    assert b[n..] == rest && b[4..8] == kind && b[8..n] == body;
  }

  lemma OneBox(kind: ByteString, body: ByteString)
    requires |kind| == 4 && 8 + |body| < TWO_32
    ensures ReadBoxes(Box(kind, body)) == Some([BoxView(kind, body)])
  {
    ReadBoxesBox(kind, body, []);
    assert Box(kind, body) + [] == Box(kind, body);
    assert [BoxView(kind, body)] + [] == [BoxView(kind, body)];
  }

  lemma TwoBoxes(k1: ByteString, b1: ByteString, k2: ByteString, b2: ByteString)
    requires |k1| == |k2| == 4 && 8 + |b1| < TWO_32 && 8 + |b2| < TWO_32
    ensures ReadBoxes(Box(k1, b1) + Box(k2, b2)) == Some([BoxView(k1, b1), BoxView(k2, b2)])
  {
    OneBox(k2, b2);
    ReadBoxesBox(k1, b1, Box(k2, b2));
    assert [BoxView(k1, b1)] + [BoxView(k2, b2)] == [BoxView(k1, b1), BoxView(k2, b2)];
  }

  lemma FourBoxes(k1: ByteString, b1: ByteString, k2: ByteString, b2: ByteString,
                  k3: ByteString, b3: ByteString, k4: ByteString, b4: ByteString)
    requires |k1| == |k2| == |k3| == |k4| == 4
    requires 8 + |b1| < TWO_32 && 8 + |b2| < TWO_32 && 8 + |b3| < TWO_32 && 8 + |b4| < TWO_32
    ensures ReadBoxes(Box(k1, b1) + Box(k2, b2) + Box(k3, b3) + Box(k4, b4)) ==
            Some([BoxView(k1, b1), BoxView(k2, b2), BoxView(k3, b3), BoxView(k4, b4)])
  {
    TwoBoxes(k3, b3, k4, b4);
    ReadBoxesBox(k2, b2, Box(k3, b3) + Box(k4, b4));
    ReadBoxesBox(k1, b1, Box(k2, b2) + (Box(k3, b3) + Box(k4, b4)));
    FourTogether(Box(k1, b1), Box(k2, b2), Box(k3, b3), Box(k4, b4));
    FourViews(BoxView(k1, b1), BoxView(k2, b2), BoxView(k3, b3), BoxView(k4, b4));
  }

  lemma FourTogether(x1: ByteString, x2: ByteString, x3: ByteString, x4: ByteString)
    ensures x1 + x2 + x3 + x4 == x1 + (x2 + (x3 + x4))
  {
  }

  lemma FourViews(v1: BoxView, v2: BoxView, v3: BoxView, v4: BoxView)
    ensures [v1] + ([v2] + [v3, v4]) == [v1, v2, v3, v4]
  {
  }

  function Entries(samples: seq<Sample>): (es: seq<EntryView>)
    ensures |es| == |samples|
  {
    if samples == [] then [] else
      var s := samples[0];
      [EntryView(ToUint32(s.duration), ToUint32(s.size), [s.dependsOn, s.isNonSync, 0, 0], 0)] + Entries(samples[1..])
  }

  lemma {:induction false} ReadEntriesBack(samples: seq<Sample>)
    ensures ReadEntries(TrunEntries(samples)) == Some(Entries(samples))
    decreases |samples|
  {
    if samples != [] {
      ReadEntriesBack(samples[1..]);
      var s, rest := samples[0], TrunEntries(samples[1..]);
      ReadEntry(s, rest);
      var b := TrunEntry(s) + rest;
      assert b[16..] == rest;
    }
  }

  lemma ReadEntry(s: Sample, rest: ByteString)
    ensures var b := TrunEntry(s) + rest;
            && ReadU32(b, 0) == ToUint32(s.duration) && ReadU32(b, 4) == ToUint32(s.size)
            && b[8..12] == [s.dependsOn, s.isNonSync, 0, 0] && ReadU32(b, 12) == 0
  {
    var flags := [s.dependsOn, s.isNonSync, 0, 0];
    var b := TrunEntry(s) + rest;
    U32RoundTrip(s.duration, [], U32(s.size) + flags + U32(0) + rest);
    assert b == [] + U32(s.duration) + (U32(s.size) + flags + U32(0) + rest);
    U32RoundTrip(s.size, U32(s.duration), flags + U32(0) + rest);
    assert b == U32(s.duration) + U32(s.size) + (flags + U32(0) + rest);
    U32RoundTrip(0, U32(s.duration) + U32(s.size) + flags, rest);
  }

  /** A sample is presented when it is decoded: its composition offset is 0. */
  function ViewOf(s: Sample, data: ByteString): SampleView {
    SampleView(ToUint32(s.duration), [s.dependsOn, s.isNonSync, 0, 0], 0, 16 * s.dependsOn, data)
  }

  function Views(samples: seq<Sample>, datas: seq<ByteString>): seq<SampleView>
    requires |samples| == |datas|
  {
    if samples == [] then [] else
      var s := samples[0];
      [ViewOf(s, datas[0])] + Views(samples[1..], datas[1..])
  }

  /** Each sample's size is that of its data. */
  predicate Sized(samples: seq<Sample>, datas: seq<ByteString>) {
    |samples| == |datas| &&
    (samples == [] || (samples[0].size == |datas[0]| && Sized(samples[1..], datas[1..])))
  }

  lemma {:induction false} CutSamplesBack(samples: seq<Sample>, datas: seq<ByteString>)
    requires Sized(samples, datas) && |Flatten(datas)| < TWO_32
    ensures CutSamples(Entries(samples), Dependencies(samples), Flatten(datas)) == Some(Views(samples, datas))
    decreases |samples|
  {
    if samples != [] {
      CutSamplesBack(samples[1..], datas[1..]);
      var data := Flatten(datas);
      assert data[..|datas[0]|] == datas[0] && data[|datas[0]|..] == Flatten(datas[1..]);
      assert Entries(samples)[1..] == Entries(samples[1..]) && Dependencies(samples)[1..] == Dependencies(samples[1..]);
    }
  }

  function TrunBody(samples: seq<Sample>, dataOffset: int): ByteString {
    [0, 0, 0x0F, 1] + U32(|samples|) + U32(dataOffset) + TrunEntries(samples)
  }

  lemma ReadTrunBack(before: ByteString, samples: seq<Sample>, datas: seq<ByteString>)
    requires Sized(samples, datas) && |before + Flatten(datas)| < TWO_32 && |samples| < TWO_32
    ensures ReadTrun(before + Flatten(datas), TrunBody(samples, |before|), Dependencies(samples)) ==
            Some(Views(samples, datas))
  {
    TrunHeader(samples, |before|);
    ReadEntriesBack(samples);
    CutSamplesBack(samples, datas);
    assert (before + Flatten(datas))[|before|..] == Flatten(datas);
  }

  lemma TrunHeader(samples: seq<Sample>, dataOffset: int)
    ensures var b := TrunBody(samples, dataOffset);
            && |b| >= 12 && b[..4] == [0, 0, 0x0F, 1] && b[12..] == TrunEntries(samples)
            && ReadU32(b, 4) == ToUint32(|samples|) && ReadU32(b, 8) == ToUint32(dataOffset)
  {
    var b, start := TrunBody(samples, dataOffset), [0, 0, 0x0F, 1];
    var count, offset, entries := U32(|samples|), U32(dataOffset), TrunEntries(samples);
    U32RoundTrip(|samples|, start, offset + entries);
    assert b == start + count + (offset + entries);
    U32RoundTrip(dataOffset, start + count, entries);
  }

  /** The trun box holds, in `data_offset`, the position of the first payload byte of the fragment. */
  lemma DataOffset(sequenceNumber: int, time: int, id: int, samples: seq<Sample>)
    ensures var moof := Moof(sequenceNumber, time, id, samples);
            Trun(samples, |Sdtp(samples)| + 16 + 16 + 8 + 16 + 8 + 8) == Box(TRUN, TrunBody(samples, |moof| + 8))
  {
  }

  lemma AfterFlags(rest: ByteString)
    ensures ([0, 0, 0, 0] + rest)[..4] == [0, 0, 0, 0] && ([0, 0, 0, 0] + rest)[4..] == rest
  {
  }

  lemma FieldAfterFlags(x: int)
    ensures ReadU32([0, 0, 0, 0] + U32(x), 4) == ToUint32(x)
  {
    U32RoundTrip(x, [0, 0, 0, 0], []);
    assert [0, 0, 0, 0] + U32(x) + [] == [0, 0, 0, 0] + U32(x);
  }

  /** The four boxes of a traf tile it. */
  lemma TrafTiles(id: int, samples: seq<Sample>, time: int, trunBody: ByteString)
    requires |trunBody| + |Sdtp(samples)| < TWO_32
    ensures ReadBoxes(Tfhd(id) + Tfdt(time) + Box(TRUN, trunBody) + Sdtp(samples)) ==
            Some([BoxView(TFHD, [0, 0, 0, 0] + U32(id)), BoxView(TFDT, [0, 0, 0, 0] + U32(time)),
                  BoxView(TRUN, trunBody), BoxView(SDTP, [0, 0, 0, 0] + Dependencies(samples))])
  {
    FourBoxes(TFHD, [0, 0, 0, 0] + U32(id), TFDT, [0, 0, 0, 0] + U32(time), TRUN, trunBody,
              SDTP, [0, 0, 0, 0] + Dependencies(samples));
  }

  function TrafBody(id: int, samples: seq<Sample>, time: int, dataOffset: int): ByteString {
    Tfhd(id) + Tfdt(time) + Box(TRUN, TrunBody(samples, dataOffset)) + Sdtp(samples)
  }

  lemma ReadTrafBack(before: ByteString, sequenceNumber: nat, time: int, id: int,
                     samples: seq<Sample>, datas: seq<ByteString>)
    requires Sized(samples, datas) && |before + Flatten(datas)| < TWO_32 && 17 * |samples| + 100 < TWO_32
    ensures ReadTraf(before + Flatten(datas), sequenceNumber, TrafBody(id, samples, time, |before|)) ==
            Some(Fragment(sequenceNumber, ToUint32(id), ToUint32(time), Views(samples, datas)))
  {
    TrafTiles(id, samples, time, TrunBody(samples, |before|));
    ReadTrunBack(before, samples, datas);
    FieldAfterFlags(id);
    FieldAfterFlags(time);
    BoxTypes();
    AfterFlags(Dependencies(samples));
  }

  lemma MoofTiles(sequenceNumber: int, traf: ByteString)
    requires |traf| + 100 < TWO_32
    ensures ReadBoxes(Mfhd(sequenceNumber) + Box(TRAF, traf)) ==
            Some([BoxView(MFHD, [0, 0, 0, 0] + U32(sequenceNumber)), BoxView(TRAF, traf)])
  {
    TwoBoxes(MFHD, [0, 0, 0, 0] + U32(sequenceNumber), TRAF, traf);
  }

  lemma FragmentTiles(moof: ByteString, data: ByteString)
    requires |moof| + |data| + 16 < TWO_32
    ensures ReadBoxes(Box(MOOF, moof) + Mdat(data)) == Some([BoxView(MOOF, moof), BoxView(MDAT, data)])
  {
    TwoBoxes(MOOF, moof, MDAT, data);
  }

  function MoofBody(sequenceNumber: int, time: int, id: int, samples: seq<Sample>, dataOffset: int): ByteString {
    Mfhd(sequenceNumber) + Box(TRAF, TrafBody(id, samples, time, dataOffset))
  }

  lemma MoofIs(sequenceNumber: int, time: int, id: int, samples: seq<Sample>)
    ensures var moof := Moof(sequenceNumber, time, id, samples);
            && moof == Box(MOOF, MoofBody(sequenceNumber, time, id, samples, |moof| + 8))
            && |moof| >= 17 * |samples|
  {
    DataOffset(sequenceNumber, time, id, samples);
  }

  lemma ReadMoofBack(before: ByteString, sequenceNumber: int, time: int, id: int,
                     samples: seq<Sample>, datas: seq<ByteString>)
    requires Sized(samples, datas) && |before + Flatten(datas)| < TWO_32 && 17 * |samples| + 200 < TWO_32
    ensures ReadMoof(before + Flatten(datas), MoofBody(sequenceNumber, time, id, samples, |before|)) ==
            Some(Fragment(ToUint32(sequenceNumber), ToUint32(id), ToUint32(time), Views(samples, datas)))
  {
    BoxTypes();
    MoofTiles(sequenceNumber, TrafBody(id, samples, time, |before|));
    FieldAfterFlags(sequenceNumber);
    ReadTrafBack(before, ToUint32(sequenceNumber), time, id, samples, datas);
  }

  /** Reading a written fragment gives back its numbers and, sample by sample, its data: all boxes tile,
      the data offset is right, and the sizes leave no gap and no overrun. */
  lemma FragmentRoundTrip(sequenceNumber: int, time: int, id: int, samples: seq<Sample>, datas: seq<ByteString>)
    requires Sized(samples, datas)
    requires |FragmentBytes(sequenceNumber, time, id, samples, Flatten(datas))| < TWO_31
    ensures ReadFragment(FragmentBytes(sequenceNumber, time, id, samples, Flatten(datas))) ==
            Some(Fragment(ToUint32(sequenceNumber), ToUint32(id), ToUint32(time), Views(samples, datas)))
  {
    MoofIs(sequenceNumber, time, id, samples);
    FragmentOf(Moof(sequenceNumber, time, id, samples), sequenceNumber, time, id, samples, datas);
  }

  lemma FragmentOf(moof: ByteString, sequenceNumber: int, time: int, id: int,
                   samples: seq<Sample>, datas: seq<ByteString>)
    requires Sized(samples, datas) && |moof| >= 17 * |samples|
    requires moof == Box(MOOF, MoofBody(sequenceNumber, time, id, samples, |moof| + 8))
    requires |moof + Mdat(Flatten(datas))| < TWO_31
    ensures ReadFragment(moof + Mdat(Flatten(datas))) ==
            Some(Fragment(ToUint32(sequenceNumber), ToUint32(id), ToUint32(time), Views(samples, datas)))
  {
    var data := Flatten(datas);
    var before := Before(moof, data);
    var body := MoofBody(sequenceNumber, time, id, samples, |before|);
    Assembled(moof, body, data);
    ReadMoofBack(before, sequenceNumber, time, id, samples, datas);
  }

  /** Everything before the payload. */
  function Before(moof: ByteString, data: ByteString): (b: ByteString)
    ensures |b| == |moof| + 8
  {
    moof + U32(8 + |data|) + MDAT
  }

  lemma Assembled(moof: ByteString, body: ByteString, data: ByteString)
    requires moof == Box(MOOF, body) && |moof + Mdat(data)| < TWO_31
    ensures moof + Mdat(data) == Before(moof, data) + data
    ensures ReadFragment(moof + Mdat(data)) == ReadMoof(Before(moof, data) + data, body)
  {
    BoxTypes();
    FragmentTiles(body, data);
  }

  // ----- NAL units -----

  /** `NALU.getData`. */
  function LengthPrefixed(nal: ByteString): ByteString {
    U32(|nal|) + nal
  }

  function AvcSample(nals: seq<ByteString>): ByteString {
    if nals == [] then [] else LengthPrefixed(nals[0]) + AvcSample(nals[1..])
  }

  lemma {:induction false} NalsRoundTrip(nals: seq<ByteString>)
    requires |AvcSample(nals)| < TWO_32
    ensures ReadNals(AvcSample(nals)) == Some(nals)
    decreases |nals|
  {
    if nals != [] {
      NalsRoundTrip(nals[1..]);
      ReadNal(nals[0], AvcSample(nals[1..]));
      assert [nals[0]] + nals[1..] == nals;
    }
  }

  lemma ReadNal(nal: ByteString, rest: ByteString)
    requires |nal| < TWO_32
    ensures ReadNals(LengthPrefixed(nal) + rest) == Cons(nal, ReadNals(rest))
  {
    var b, n := LengthPrefixed(nal) + rest, |nal|;
    U32RoundTrip(n, [], nal + rest);
    assert b == [] + U32(n) + (nal + rest);
    assert b[4 + n..] == rest && b[4..4 + n] == nal;
  }
}
