/** The fragment boxes that `MP4` writes. */
module Mp4 {
  import opened Bytes

  const MOOF: ByteString := [109, 111, 111, 102]
  const MFHD: ByteString := [109, 102, 104, 100]
  const TRAF: ByteString := [116, 114, 97, 102]
  const TFHD: ByteString := [116, 102, 104, 100]
  const TFDT: ByteString := [116, 102, 100, 116]
  const TRUN: ByteString := [116, 114, 117, 110]
  const SDTP: ByteString := [115, 100, 116, 112]
  const MDAT: ByteString := [109, 100, 97, 116]

  type Flag = x: int | 0 <= x < 4

  /** A sample as it is listed in a fragment. The other flags the source sets are all zero. */
  datatype Sample = Sample(size: int, duration: int, dependsOn: Flag, isNonSync: Flag)

  /** `MP4.box` of one payload; several payloads are concatenated. */
  function Box(kind: ByteString, body: ByteString): (b: ByteString)
    ensures |b| == 4 + |kind| + |body|
  {
    U32(8 + |body|) + kind + body
  }

  function Mfhd(sequenceNumber: int): ByteString {
    Box(MFHD, [0, 0, 0, 0] + U32(sequenceNumber))
  }

  function Tfhd(id: int): ByteString {
    Box(TFHD, [0, 0, 0, 0] + U32(id))
  }

  function Tfdt(baseMediaDecodeTime: int): ByteString {
    Box(TFDT, [0, 0, 0, 0] + U32(baseMediaDecodeTime))
  }

  function Dependencies(samples: seq<Sample>): (b: ByteString)
    ensures |b| == |samples|
  {
    if samples == [] then [] else [16 * samples[0].dependsOn] + Dependencies(samples[1..])
  }

  function Sdtp(samples: seq<Sample>): ByteString {
    Box(SDTP, [0, 0, 0, 0] + Dependencies(samples))
  }

  /** Duration, size, flags and composition offset of one sample. */
  function TrunEntry(s: Sample): (b: ByteString)
    ensures |b| == 16
  {
    U32(s.duration) + U32(s.size) + [s.dependsOn, s.isNonSync, 0, 0] + U32(0)
  }

  function TrunEntries(samples: seq<Sample>): (b: ByteString)
    ensures |b| == 16 * |samples|
  {
    if samples == [] then [] else TrunEntry(samples[0]) + TrunEntries(samples[1..])
  }

  /** `offset` is the length of everything before the payload except this box. */
  function Trun(samples: seq<Sample>, offset: int): ByteString {
    Box(TRUN, [0, 0, 0x0F, 1] + U32(|samples|) + U32(offset + 8 + 12 + 16 * |samples|) + TrunEntries(samples))
  }

  function Traf(id: int, samples: seq<Sample>, baseMediaDecodeTime: int): ByteString {
    Box(TRAF, Tfhd(id) + Tfdt(baseMediaDecodeTime)
              + Trun(samples, |Sdtp(samples)| + 16 + 16 + 8 + 16 + 8 + 8) + Sdtp(samples))
  }

  function Moof(sequenceNumber: int, baseMediaDecodeTime: int, id: int, samples: seq<Sample>): ByteString {
    Box(MOOF, Mfhd(sequenceNumber) + Traf(id, samples, baseMediaDecodeTime))
  }

  function Mdat(data: ByteString): ByteString {
    Box(MDAT, data)
  }

  /** What a fragment is dispatched as. */
  function FragmentBytes(sequenceNumber: int, baseMediaDecodeTime: int, id: int,
                         samples: seq<Sample>, data: ByteString): ByteString
  {
    Moof(sequenceNumber, baseMediaDecodeTime, id, samples) + Mdat(data)
  }

  // ----- The array code -----

  /** `result.set(bytes, at)` */
  method Set(result: array<Byte>, bytes: ByteString, at: nat)
    requires at + |bytes| <= result.Length
    modifies result
    ensures result[..at + |bytes|] == old(result[..at]) + bytes
    ensures result[at + |bytes|..] == old(result[at + |bytes|..])
  {
    forall k | 0 <= k < |bytes| {
      result[at + k] := bytes[k];
    }
  }

  /** Appending a part to what has been written. */
  method Append(result: array<Byte>, bytes: ByteString, at: nat, ghost head: ByteString, ghost written: ByteString)
    requires at + |bytes| <= result.Length && result[..at] == head + written
    modifies result
    ensures result[..at + |bytes|] == head + (written + bytes)
  {
    Set(result, bytes, at);
    assert (head + written) + bytes == head + (written + bytes);
  }

  function TotalLength(payload: seq<ByteString>): nat {
    if payload == [] then 0 else TotalLength(payload[..|payload| - 1]) + |payload[|payload| - 1]|
  }

  lemma {:induction false} TotalLengthFlatten(payload: seq<ByteString>)
    ensures TotalLength(payload) == |Flatten(payload)|
  {
    if payload != [] {
      var front, last := payload[..|payload| - 1], payload[|payload| - 1];
      TotalLengthFlatten(front);
      FlattenAppend(front, [last]);
      FlattenOne(last);
      assert payload == front + [last];
    }
  }

  lemma FlattenStep(payload: seq<ByteString>, i: nat)
    requires i < |payload|
    ensures Flatten(payload[..i + 1]) == Flatten(payload[..i]) + payload[i]
    ensures |Flatten(payload[..i + 1])| <= |Flatten(payload)|
  {
    FlattenAppend(payload[..i], [payload[i]]);
    FlattenOne(payload[i]);
    assert payload[..i + 1] == payload[..i] + [payload[i]];
    FlattenAppend(payload[..i + 1], payload[i + 1..]);
    assert payload == payload[..i + 1] + payload[i + 1..];
  }

  method SumLengths(payload: seq<ByteString>) returns (size: nat)
    ensures size == 8 + |Flatten(payload)|
  {
    size := 8;
    var i := |payload|;
    assert payload[..i] == payload;
    while i > 0
      invariant 0 <= i <= |payload|
      invariant size + TotalLength(payload[..i]) == 8 + TotalLength(payload)
    {
      i := i - 1;
      assert payload[..i + 1][..i] == payload[..i];
      size := size + |payload[i]|;
    }
    TotalLengthFlatten(payload);
  }

  method CopyParts(result: array<Byte>, payload: seq<ByteString>)
    requires result.Length == 8 + |Flatten(payload)|
    modifies result
    ensures result[..] == old(result[..8]) + Flatten(payload)
  {
    ghost var header := result[..8];
    var i, size := 0, 8;
    assert Flatten(payload[..0]) == [];
    while i < |payload|
      invariant 0 <= i <= |payload|
      invariant size == 8 + |Flatten(payload[..i])| <= result.Length
      invariant result[..size] == header + Flatten(payload[..i])
    {
      FlattenStep(payload, i);
      Append(result, payload[i], size, header, Flatten(payload[..i]));
      size := size + |payload[i]|;
      i := i + 1;
    }
    assert payload[..i] == payload && result[..size] == result[..];
  }

  /** `MP4.box`: the size is summed first, then the parts are copied. */
  method MakeBox(kind: ByteString, payload: seq<ByteString>) returns (result: array<Byte>)
    requires |kind| == 4
    ensures fresh(result) && result[..] == Box(kind, Flatten(payload))
  {
    var size := SumLengths(payload);
    result := new Byte[size](_ => 0);
    Set(result, U32(size), 0);
    Set(result, kind, 4);
    CopyParts(result, payload);
  }

  method MakeSdtp(samples: seq<Sample>) returns (box: array<Byte>)
    ensures box[..] == Sdtp(samples)
  {
    var bytes := new Byte[4 + |samples|](_ => 0);
    var i := 0;
    while i < |samples|
      invariant 0 <= i <= |samples|
      invariant bytes[..4 + i] == [0, 0, 0, 0] + Dependencies(samples[..i])
    {
      DependenciesStep(samples, i);
      bytes[i + 4] := 16 * samples[i].dependsOn;
      assert bytes[..5 + i] == bytes[..4 + i] + [bytes[i + 4]];
      i := i + 1;
    }
    assert samples[..i] == samples && bytes[..4 + i] == bytes[..];
    box := MakeBox(SDTP, [bytes[..]]);
    FlattenOne(bytes[..]);
  }

  lemma {:induction false} DependenciesStep(samples: seq<Sample>, i: nat)
    requires i < |samples|
    ensures Dependencies(samples[..i + 1]) == Dependencies(samples[..i]) + [16 * samples[i].dependsOn]
    decreases i
  {
    if i == 0 {
      assert samples[..1][1..] == [];
    } else {
      DependenciesStep(samples[1..], i - 1);
      assert samples[..i + 1][1..] == samples[1..][..i];
      assert samples[..i][1..] == samples[1..][..i - 1];
    }
  }

  lemma {:induction false} EntriesStep(samples: seq<Sample>, i: nat)
    requires i < |samples|
    ensures TrunEntries(samples[..i + 1]) == TrunEntries(samples[..i]) + TrunEntry(samples[i])
    decreases i
  {
    if i == 0 {
      assert samples[..1][1..] == [];
    } else {
      EntriesStep(samples[1..], i - 1);
      assert samples[..i + 1][1..] == samples[1..][..i];
      assert samples[..i][1..] == samples[1..][..i - 1];
    }
  }

  method WriteEntries(bytes: array<Byte>, samples: seq<Sample>)
    requires bytes.Length == 12 + 16 * |samples|
    modifies bytes
    ensures bytes[..] == old(bytes[..12]) + TrunEntries(samples)
  {
    ghost var header := bytes[..12];
    var i := 0;
    while i < |samples|
      invariant 0 <= i <= |samples|
      invariant bytes[..12 + 16 * i] == header + TrunEntries(samples[..i])
    {
      EntriesStep(samples, i);
      var at := 12 + 16 * i;
      Append(bytes, TrunEntry(samples[i]), at, header, TrunEntries(samples[..i]));
      i := i + 1;
    }
    assert samples[..i] == samples && bytes[..12 + 16 * i] == bytes[..];
  }

  method MakeTrun(samples: seq<Sample>, offset: int) returns (box: array<Byte>)
    ensures box[..] == Trun(samples, offset)
  {
    var arraylen := 12 + 16 * |samples|;
    var bytes := new Byte[arraylen](_ => 0);
    var header := [0, 0, 0x0F, 1] + U32(|samples|) + U32(offset + 8 + arraylen);
    Set(bytes, header, 0);
    WriteEntries(bytes, samples);
    box := MakeBox(TRUN, [bytes[..]]);
    FlattenOne(bytes[..]);
  }
}
