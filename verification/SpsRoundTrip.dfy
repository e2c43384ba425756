/** `readSPS` follows the syntax field by field and returns the coded picture size. */
module SpsRoundTrip {
  import opened Bytes
  import opened BitStream
  import opened ExpGolombCodes
  import opened SpsSyntax
  import Sps

  // ----- One field -----

  lemma TakeU(b: BitString, stop: nat, i: nat, v: nat, n: nat, rest: Fields) returns (next: nat)
    requires Written(b, stop, i, Cons(U(v, n), rest)) && 1 <= n <= 8 && v < Pow2(n)
    ensures i <= |b| && next == i + n <= |b|
    ensures ReadBits(b, n, i) == Read(v, next) && SkipBits(b, n, i) == next && Written(b, stop, next, rest)
  {
    next := i + n;
    ValueOfBits(b, i, v, n);
    GetBitsIs(b, n, i, v);
    Pow2Monotone(n, 8);
    assert Pow2(8) == 256;
    Int32Pattern(v);
  }

  lemma TakeFlag(b: BitString, stop: nat, i: nat, v: nat, rest: Fields) returns (next: nat)
    requires Written(b, stop, i, Cons(U(v, 1), rest)) && v < 2
    ensures i <= |b| && next <= |b|
    ensures ReadBits(b, 1, i) == Read(v, next) && SkipBits(b, 1, i) == next && Written(b, stop, next, rest)
  {
    assert Pow2(1) == 2;
    next := TakeU(b, stop, i, v, 1, rest);
  }

  lemma UeFirst(b: BitString, stop: nat, i: nat, k: nat, rest: Fields)
    requires Written(b, stop, i, Cons(UE(k), rest))
    ensures BitsAt(b, i, Ue(k)) && i + |Ue(k)| <= |b| && Written(b, stop, i + |Ue(k)|, rest)
  {
    BitsAtBound(b, i, Ue(k));
  }

  lemma UeRead(b: BitString, i: nat, k: nat)
    requires BitsAt(b, i, Ue(k)) && Codable(k)
    ensures i <= |b| && SkipUEG(b, i) == i + |Ue(k)| == ReadUEG(b, i).index
    ensures Readable(k) ==> ReadUEG(b, i) == Read(k, i + |Ue(k)|)
  {
    ReadUeCode(b, i, k);
  }

  lemma TakeUe(b: BitString, stop: nat, i: nat, k: nat, rest: Fields) returns (next: nat)
    requires Written(b, stop, i, Cons(UE(k), rest)) && Codable(k)
    ensures i <= |b| && next == i + |Ue(k)| <= |b|
    ensures SkipUEG(b, i) == next && ReadUEG(b, i).index == next && Written(b, stop, next, rest)
    ensures Readable(k) ==> ReadUEG(b, i) == Read(k, next)
  {
    next := i + |Ue(k)|;
    UeFirst(b, stop, i, k, rest);
    UeRead(b, i, k);
  }

  lemma SeFirst(b: BitString, stop: nat, i: nat, v: int, rest: Fields)
    requires Written(b, stop, i, Cons(SE(v), rest))
    ensures BitsAt(b, i, Se(v)) && i + |Se(v)| <= |b| && Written(b, stop, i + |Se(v)|, rest)
  {
    BitsAtBound(b, i, Se(v));
  }

  lemma TakeSe(b: BitString, stop: nat, i: nat, v: int, rest: Fields) returns (next: nat)
    requires Written(b, stop, i, Cons(SE(v), rest)) && SignedCodable(v)
    ensures i <= |b| && next == i + |Se(v)| <= |b|
    ensures SkipUEG(b, i) == next && ReadEG(b, i) == Read(v, next) && Written(b, stop, next, rest)
  {
    next := i + |Se(v)|;
    SeFirst(b, stop, i, v, rest);
    ReadSeCode(b, i, v);
  }

  // ----- Sections -----

  lemma ScalesAgree(lastScale: int, delta: int)
    requires 1 <= lastScale <= 255 && -128 <= delta <= 127
    ensures Sps.NextScale(lastScale, delta) == CodedScale(lastScale, delta)
  {
  }

  lemma SkipStep(b: BitString, i: nat, count: nat, lastScale: int, nextScale: int, delta: int, scale: int, next: nat)
    requires i <= |b| && count > 0 && nextScale != 0
    requires ReadEG(b, i) == Read(delta, next) && Sps.NextScale(lastScale, delta) == scale
    ensures Sps.SkipScalingList(b, i, count, lastScale, nextScale) ==
            Sps.SkipScalingList(b, next, count - 1, if scale == 0 then lastScale else scale, scale)
  {
  }

  /** One delta_scale that is written and skipped. */
  lemma TakeScale(b: BitString, stop: nat, i: nat, deltas: seq<int>, j: nat,
                  lastScale: int, nextScale: int, tail: Fields)
    returns (next: nat, last: int, scale: int)
    requires j < |deltas| && DeltasOk(deltas) && 1 <= lastScale <= 255 && nextScale != 0
    requires Written(b, stop, i, ScalingFields(deltas, j, lastScale, nextScale, tail)) && i <= |b|
    ensures next <= |b| && 1 <= last <= 255 && 0 <= scale <= 255
    ensures Written(b, stop, next, ScalingFields(deltas, j + 1, last, scale, tail))
    ensures Sps.SkipScalingList(b, i, |deltas| - j, lastScale, nextScale) ==
            Sps.SkipScalingList(b, next, |deltas| - j - 1, last, scale)
  {
    scale := CodedScale(lastScale, deltas[j]);
    last := if scale == 0 then lastScale else scale;
    ScalesAgree(lastScale, deltas[j]);
    next := TakeSe(b, stop, i, deltas[j], ScalingFields(deltas, j + 1, last, scale, tail));
    SkipStep(b, i, |deltas| - j, lastScale, nextScale, deltas[j], scale, next);
  }

  /** Once the next scale is 0 nothing is written and nothing skipped. */
  lemma NoScale(b: BitString, i: nat, deltas: seq<int>, j: nat, lastScale: int, tail: Fields)
    requires j < |deltas| && i <= |b|
    ensures ScalingFields(deltas, j, lastScale, 0, tail) == ScalingFields(deltas, j + 1, lastScale, 0, tail)
    ensures Sps.SkipScalingList(b, i, |deltas| - j, lastScale, 0) ==
            Sps.SkipScalingList(b, i, |deltas| - j - 1, lastScale, 0)
  {
  }

  lemma NoScaleLeft(b: BitString, i: nat, deltas: seq<int>, lastScale: int, nextScale: int, tail: Fields)
    requires i <= |b|
    ensures ScalingFields(deltas, |deltas|, lastScale, nextScale, tail) == tail
    ensures Sps.SkipScalingList(b, i, 0, lastScale, nextScale) == i
  {
  }

  lemma {:induction false} TakeScaling(b: BitString, stop: nat, i: nat, deltas: seq<int>, j: nat,
                                       lastScale: int, nextScale: int, tail: Fields) returns (end: nat)
    requires j <= |deltas| && DeltasOk(deltas) && 1 <= lastScale <= 255 && 0 <= nextScale <= 255
    requires Written(b, stop, i, ScalingFields(deltas, j, lastScale, nextScale, tail)) && i <= |b|
    ensures end == Sps.SkipScalingList(b, i, |deltas| - j, lastScale, nextScale) <= |b|
    ensures Written(b, stop, end, tail)
    decreases |deltas| - j
  {
    if j == |deltas| {
      NoScaleLeft(b, i, deltas, lastScale, nextScale, tail);
      end := i;
    } else if nextScale != 0 {
      var next, last, scale := TakeScale(b, stop, i, deltas, j, lastScale, nextScale, tail);
      end := TakeScaling(b, stop, next, deltas, j + 1, last, scale, tail);
    } else {
      NoScale(b, i, deltas, j, lastScale, tail);
      end := TakeScaling(b, stop, i, deltas, j + 1, lastScale, 0, tail);
    }
  }

  lemma {:induction false} TakeMatrix(b: BitString, stop: nat, i: nat, lists: seq<Option<seq<int>>>, k: nat,
                                      tail: Fields)
    returns (end: nat)
    requires k <= |lists| && ListsOk(lists)
    requires Written(b, stop, i, MatrixFields(lists, k, tail)) && i <= |b|
    ensures end == Sps.SkipMatrix(b, i, k, |lists|) && Written(b, stop, end, tail)
    decreases |lists| - k
  {
    if k == |lists| {
      end := i;
    } else {
      var more := MatrixFields(lists, k + 1, tail);
      match lists[k]
      case None =>
        var next := TakeFlag(b, stop, i, 0, more);
        end := TakeMatrix(b, stop, next, lists, k + 1, tail);
      case Some(deltas) =>
        var next := TakeFlag(b, stop, i, 1, ScalingFields(deltas, 0, 8, 8, more));
        next := TakeScaling(b, stop, next, deltas, 0, 8, 8, more);
        end := TakeMatrix(b, stop, next, lists, k + 1, tail);
    }
  }

  lemma TakeHigh(b: BitString, stop: nat, i: nat, h: High, tail: Fields) returns (end: nat)
    requires HighOk(h) && Written(b, stop, i, HighFields(h, tail)) && i <= |b|
    ensures end == Sps.SkipHigh(b, i) && Written(b, stop, end, tail)
  {
    var matrixFields :=
      match h.matrix
      case None => Cons(U(0, 1), tail)
      case Some(lists) => Cons(U(1, 1), MatrixFields(lists, 0, tail));
    var depths := Cons(UE(h.lumaDepth), Cons(UE(h.chromaDepth), Cons(U(h.bypass, 1), matrixFields)));
    var i0 := TakeUe(b, stop, i, h.chromaFormatIdc, PlaneFields(h, depths));
    var i1 := i0;
    if h.chromaFormatIdc == 3 { i1 := TakeFlag(b, stop, i0, h.separatePlane, depths); }
    var i2 := TakeUe(b, stop, i1, h.lumaDepth, depths.rest);
    var i3 := TakeUe(b, stop, i2, h.chromaDepth, depths.rest.rest);
    var i4 := TakeFlag(b, stop, i3, h.bypass, matrixFields);
    match h.matrix
    case None =>
      end := TakeFlag(b, stop, i4, 0, tail);
    case Some(lists) =>
      var i5 := TakeFlag(b, stop, i4, 1, MatrixFields(lists, 0, tail));
      end := TakeMatrix(b, stop, i5, lists, 0, tail);
  }

  lemma {:induction false} TakeOffsets(b: BitString, stop: nat, i: nat, offsets: seq<int>, j: nat, tail: Fields)
    returns (end: nat)
    requires j <= |offsets| && i <= |b|
    requires forall k :: 0 <= k < |offsets| ==> SignedCodable(offsets[k])
    requires Written(b, stop, i, OffsetFields(offsets, j, tail))
    ensures end == Sps.SkipCodes(b, i, |offsets| - j) && Written(b, stop, end, tail)
    decreases |offsets| - j
  {
    if j == |offsets| {
      end := i;
    } else {
      var next := TakeSe(b, stop, i, offsets[j], OffsetFields(offsets, j + 1, tail));
      end := TakeOffsets(b, stop, next, offsets, j + 1, tail);
    }
  }

  lemma TakeOffsetFields(b: BitString, stop: nat, i: nat, zero: nat, nonRef: int, bottom: int, refs: seq<int>,
                         tail: Fields)
    returns (end: nat)
    requires PocOk(Type1(zero, nonRef, bottom, refs)) && i <= |b|
    requires Written(b, stop, i, Cons(U(zero, 1), Cons(SE(nonRef), Cons(SE(bottom),
                                   Cons(UE(|refs|), OffsetFields(refs, 0, tail))))))
    ensures var count := ReadUEG(b, SkipUEG(b, SkipUEG(b, SkipBits(b, 1, i))));
            count.value == |refs| && end == Sps.SkipCodes(b, count.index, |refs|)
    ensures Written(b, stop, end, tail)
  {
    var f3 := Cons(UE(|refs|), OffsetFields(refs, 0, tail));
    var i1 := TakeFlag(b, stop, i, zero, Cons(SE(nonRef), Cons(SE(bottom), f3)));
    var i2 := TakeSe(b, stop, i1, nonRef, Cons(SE(bottom), f3));
    var i3 := TakeSe(b, stop, i2, bottom, f3);
    var i4 := TakeUe(b, stop, i3, |refs|, OffsetFields(refs, 0, tail));
    end := TakeOffsets(b, stop, i4, refs, 0, tail);
  }

  lemma TakePoc(b: BitString, stop: nat, i: nat, p: Poc, tail: Fields) returns (end: nat)
    requires PocOk(p) && Written(b, stop, i, PocFields(p, tail)) && i <= |b|
    ensures end == Sps.SkipPoc(b, i) && Written(b, stop, end, tail)
  {
    match p
    case Type0(lsb) =>
      var i0 := TakeUe(b, stop, i, 0, Cons(UE(lsb), tail));
      end := TakeUe(b, stop, i0, lsb, tail);
    case Type1(zero, nonRef, bottom, refs) =>
      var f1 := Cons(SE(nonRef), Cons(SE(bottom), Cons(UE(|refs|), OffsetFields(refs, 0, tail))));
      var i0 := TakeUe(b, stop, i, 1, Cons(U(zero, 1), f1));
      end := TakeOffsetFields(b, stop, i0, zero, nonRef, bottom, refs, tail);
    case Type2 =>
      end := TakeUe(b, stop, i, 2, tail);
  }

  function Box(c: Option<Cropping>): Cropping {
    match c
    case None => Cropping(0, 0, 0, 0)
    case Some(r) => r
  }

  lemma TakeCrop(b: BitString, stop: nat, i: nat, c: Option<Cropping>, tail: Fields) returns (next: nat)
    requires CroppingOk(c) && Written(b, stop, i, CropFields(c, tail)) && i <= |b|
    ensures next <= |b| && Written(b, stop, next, tail)
    ensures var r := Box(c); Sps.ReadCrop(b, i) == Sps.Crop(r.left, r.right, r.top, r.bottom, next)
  {
    match c
    case None =>
      next := TakeFlag(b, stop, i, 0, tail);
    case Some(r) =>
      var f3 := Cons(UE(r.bottom), tail);
      var f2 := Cons(UE(r.top), f3);
      var f1 := Cons(UE(r.right), f2);
      var i0 := TakeFlag(b, stop, i, 1, Cons(UE(r.left), f1));
      var i1 := TakeUe(b, stop, i0, r.left, f1);
      var i2 := TakeUe(b, stop, i1, r.right, f2);
      var i3 := TakeUe(b, stop, i2, r.top, f3);
      next := TakeUe(b, stop, i3, r.bottom, tail);
  }

  lemma TakeStart(b: BitString, stop: nat, s: ParameterSet, high: bool) returns (end: nat)
    requires Ok(s) && high == Sps.IsHighProfile(s.profileIdc) && Written(b, stop, 0, AllFields(s, high))
    ensures end == Sps.SkipToSize(b) && Written(b, stop, end, SizeFields(s))
  {
    assert Pow2(3) == 8 && Pow2(5) == 32 && Pow2(8) == 256;
    var f4 := Cons(UE(s.id), ProfileFields(s, high));
    var f3 := Cons(U(s.levelIdc, 8), f4);
    var f2 := Cons(U(s.reserved, 3), f3);
    var f1 := Cons(U(s.constraints, 5), f2);
    var i0 := TakeU(b, stop, 0, s.nalHeader, 8, Cons(U(s.profileIdc, 8), f1));
    var i1 := TakeU(b, stop, i0, s.profileIdc, 8, f1);
    var i2 := TakeU(b, stop, i1, s.constraints, 5, f2);
    var i3 := TakeU(b, stop, i2, s.reserved, 3, f3);
    var i4 := TakeU(b, stop, i3, s.levelIdc, 8, f4);
    var i5 := TakeUe(b, stop, i4, s.id, ProfileFields(s, high));
    var i6 := i5;
    if high { i6 := TakeHigh(b, stop, i5, s.high, MiddleFields(s)); }
    end := TakeMiddle(b, stop, i6, s);
  }

  lemma TakeMiddle(b: BitString, stop: nat, i: nat, s: ParameterSet) returns (end: nat)
    requires Ok(s) && i <= |b| && Written(b, stop, i, MiddleFields(s))
    ensures end == SkipBits(b, 1, SkipUEG(b, Sps.SkipPoc(b, SkipUEG(b, i)))) && Written(b, stop, end, SizeFields(s))
  {
    var i1 := TakeUe(b, stop, i, s.log2MaxFrameNum, PocFields(s.poc, FrameNumFields(s)));
    var i2 := TakePoc(b, stop, i1, s.poc, FrameNumFields(s));
    var i3 := TakeUe(b, stop, i2, s.maxRefFrames, Cons(U(s.gapsAllowed, 1), SizeFields(s)));
    end := TakeFlag(b, stop, i3, s.gapsAllowed, SizeFields(s));
  }

  lemma TakeSize(b: BitString, stop: nat, i: nat, s: ParameterSet) returns (end: nat)
    requires Ok(s) && i <= |b| && Written(b, stop, i, SizeFields(s))
    ensures var r := Box(s.cropping);
            Sps.ReadSize(b, i) == Sps.SpsRead(Sps.Width(s.widthMinus1, r.left, r.right),
                                              Sps.Height(s.heightMinus1, s.frameMbsOnly, r.top, r.bottom), false, end)
    ensures Written(b, stop, end, Nil)
  {
    var tail := Cons(U(0, 1), Nil);
    var f2 := Cons(U(s.direct8x8, 1), CropFields(s.cropping, tail));
    var i1 := TakeUe(b, stop, i, s.widthMinus1, Cons(UE(s.heightMinus1), Cons(U(s.frameMbsOnly, 1), FrameFields(s))));
    var i2 := TakeUe(b, stop, i1, s.heightMinus1, Cons(U(s.frameMbsOnly, 1), FrameFields(s)));
    var i3 := TakeFlag(b, stop, i2, s.frameMbsOnly, FrameFields(s));
    var i4 := i3;
    if s.frameMbsOnly == 0 { i4 := TakeFlag(b, stop, i3, s.mbAdaptive, f2); }
    var i5 := TakeFlag(b, stop, i4, s.direct8x8, CropFields(s.cropping, tail));
    var i6 := TakeCrop(b, stop, i5, s.cropping, tail);
    end := TakeFlag(b, stop, i6, 0, Nil);
  }

  // ----- Bytes -----

  function ByteOf(bits: BitString): Byte
    requires |bits| == 8
  {
    ValueBound(bits, 0, 8);
    assert Pow2(8) == 256;
    Value(bits, 0, 8)
  }

  /** Eight bits to a byte, the last ones filled up with rbsp_trailing_bits: a one, then zeros. */
  function Pack(bits: BitString): ByteString
    decreases |bits|
  {
    if |bits| < 8 then [ByteOf(bits + [1] + ZeroBits(7 - |bits|))]
    else [ByteOf(bits[..8])] + Pack(bits[8..])
  }

  lemma ByteBits(bits: BitString)
    requires |bits| == 8
    ensures Bits([ByteOf(bits)]) == bits
  {
    forall k | 0 <= k < 8
      ensures BitOf(ByteOf(bits), 7 - k) == bits[k]
    {
      BitOfValue(bits, 8, k);
    }
  }

  lemma {:induction false} BitOfValue(bits: BitString, n: nat, k: nat)
    requires k < n <= |bits|
    ensures BitOf(Value(bits, 0, n), n - 1 - k) == bits[k]
    decreases n
  {
    var v := Value(bits, 0, n - 1);
    if k == n - 1 {
      assert Pow2(0) == 1;
    } else {
      BitOfValue(bits, n - 1, k);
      BitOfDouble(v, bits[n - 1], n - 2 - k);
    }
  }

  lemma BitOfDouble(v: nat, bit: Bit, m: nat)
    ensures BitOf(2 * v + bit, m + 1) == BitOf(v, m)
  {
    HalfThenDiv(2 * v + bit, Pow2(m));
  }

  lemma HalfThenDiv(x: nat, p: nat)
    requires p > 0
    ensures x / (2 * p) == x / 2 / p
  {
    var q, r := x / 2 / p, x / 2 % p;
    assert x / 2 == q * p + r;
    assert q * (2 * p) == 2 * (q * p);
    DivModUnique(x, 2 * p, q, 2 * r + x % 2);
  }

  lemma BitsOfConcat(x: ByteString, y: ByteString)
    ensures Bits(x + y) == Bits(x) + Bits(y)
  {
    forall k | 0 <= k < 8 * |x + y|
      ensures Bits(x + y)[k] == (Bits(x) + Bits(y))[k]
    {
      if k >= 8 * |x| {
        DivModUnique(k - 8 * |x|, 8, k / 8 - |x|, k % 8);
      }
    }
  }

  lemma {:induction false} PackedBits(bits: BitString)
    ensures bits <= Bits(Pack(bits))
    decreases |bits|
  {
    if |bits| < 8 {
      ByteBits(bits + [1] + ZeroBits(7 - |bits|));
    } else {
      var rest := Pack(bits[8..]);
      PackedBits(bits[8..]);
      ByteBits(bits[..8]);
      BitsOfConcat([ByteOf(bits[..8])], rest);
      PrefixOfConcat(bits, bits[..8], Bits(rest));
    }
  }

  lemma PrefixOfConcat(bits: BitString, first: BitString, rest: BitString)
    requires |first| <= |bits| && bits[..|first|] == first && bits[|first|..] <= rest
    ensures bits <= first + rest
  {
    assert bits == first + bits[|first|..];
  }

  lemma {:induction false} BitsAtPrefix(b: BitString, i: nat, bs: BitString)
    requires i <= |b| && bs <= b[i..]
    ensures BitsAt(b, i, bs)
    decreases |bs|
  {
    if bs != [] {
      assert b[i..][1..] == b[i + 1..];
      BitsAtPrefix(b, i + 1, bs[1..]);
    }
  }

  // ----- Main results -----

  /** The NAL unit written for a parameter set. */
  function SpsNal(s: ParameterSet): ByteString {
    Pack(EncodeAll(SpsFields(s)))
  }

  function CodedWidth(s: ParameterSet): int {
    (s.widthMinus1 + 1) * 16 - 2 * (Box(s.cropping).left + Box(s.cropping).right)
  }

  function CodedHeight(s: ParameterSet): int {
    (2 - s.frameMbsOnly) * (s.heightMinus1 + 1) * 16
    - (4 - 2 * s.frameMbsOnly) * (Box(s.cropping).top + Box(s.cropping).bottom)
  }

  lemma SizeValues(s: ParameterSet)
    requires s.frameMbsOnly < 2
    ensures var r := Box(s.cropping);
            && Sps.Width(s.widthMinus1, r.left, r.right) == CodedWidth(s)
            && Sps.Height(s.heightMinus1, s.frameMbsOnly, r.top, r.bottom) == CodedHeight(s)
  {
    if s.frameMbsOnly == 0 {
    } else {
    }
  }

  lemma ParseWritten(b: BitString, stop: nat, s: ParameterSet)
    requires Ok(s) && Written(b, stop, 0, AllFields(s, Sps.IsHighProfile(s.profileIdc)))
    ensures Sps.ParseSps(b) == Sps.SpsRead(CodedWidth(s), CodedHeight(s), false, stop)
  {
    var start := TakeStart(b, stop, s, Sps.IsHighProfile(s.profileIdc));
    var end := TakeSize(b, stop, start, s);
    SizeValues(s);
  }

  lemma PackedIsWritten(s: ParameterSet)
    ensures Written(Bits(SpsNal(s)), |EncodeAll(SpsFields(s))|, 0, SpsFields(s))
  {
    var b := Bits(SpsNal(s));
    PackedBits(EncodeAll(SpsFields(s)));
    assert b[0..] == b;
    BitsAtPrefix(b, 0, EncodeAll(SpsFields(s)));
    EncodedIsWritten(b, 0, SpsFields(s));
  }

  /** Reading the NAL unit written for a parameter set gives the picture size it codes, and the cursor ends
      just behind the last syntax element. */
  lemma ReadsWhatWasWritten(s: ParameterSet)
    requires Ok(s) && !Unknown(s.profileIdc)
    ensures var read := Sps.ParseSps(Bits(SpsNal(s)));
            && read.width == CodedWidth(s) && read.height == CodedHeight(s) && !read.vui
            && read.index == |EncodeAll(SpsFields(s))|
  {
    PackedIsWritten(s);
    ParseWritten(Bits(SpsNal(s)), |EncodeAll(SpsFields(s))|, s);
  }

  /** Table 6-1: chroma samples per luma sample; base profiles are 4:2:0. */
  function SubWidthC(chromaFormatIdc: nat): nat {
    if chromaFormatIdc == 1 || chromaFormatIdc == 2 then 2 else 1
  }

  function SubHeightC(chromaFormatIdc: nat): nat {
    if chromaFormatIdc == 1 then 2 else 1
  }

  function ChromaFormat(s: ParameterSet): nat {
    if HasChromaFields(s.profileIdc) then s.high.chromaFormatIdc else 1
  }

  /** Section 7.4.2.1.1: the luma samples of a frame less the cropping rectangle. */
  function CroppedWidth(s: ParameterSet): int {
    (s.widthMinus1 + 1) * 16 - SubWidthC(ChromaFormat(s)) * (Box(s.cropping).left + Box(s.cropping).right)
  }

  function CroppedHeight(s: ParameterSet): int {
    (2 - s.frameMbsOnly) * (s.heightMinus1 + 1) * 16
    - SubHeightC(ChromaFormat(s)) * (2 - s.frameMbsOnly) * (Box(s.cropping).top + Box(s.cropping).bottom)
  }

  /** The parser takes crop units to be those of 4:2:0 video. Its size is the one of the standard if and
      only if the chroma format has those units in each direction that is cropped at all. */
  lemma SizeMatchesStandard(s: ParameterSet)
    requires Ok(s) && !Unknown(s.profileIdc)
    ensures var r, read := Box(s.cropping), Sps.ParseSps(Bits(SpsNal(s)));
            && (read.width == CroppedWidth(s) <==> SubWidthC(ChromaFormat(s)) == 2 || r.left + r.right == 0)
            && (read.height == CroppedHeight(s) <==> SubHeightC(ChromaFormat(s)) == 2 || r.top + r.bottom == 0)
  {
    ReadsWhatWasWritten(s);
    CroppingUnits(s);
  }

  lemma CroppingUnits(s: ParameterSet)
    requires s.frameMbsOnly < 2
    ensures var r := Box(s.cropping);
            && (CodedWidth(s) == CroppedWidth(s) <==> SubWidthC(ChromaFormat(s)) == 2 || r.left + r.right == 0)
            && (CodedHeight(s) == CroppedHeight(s) <==> SubHeightC(ChromaFormat(s)) == 2 || r.top + r.bottom == 0)
  {
    if s.frameMbsOnly == 0 {
    } else {
    }
  }

  /** For example with 4:4:4 video: one column is cropped, and the parser takes off two. */
  lemma FullChromaIsMisread()
    ensures var high := High(3, 0, 0, 0, 0, None);
            var crop := Some(Cropping(1, 0, 0, 0));
            var s := ParameterSet(103, 244, 0, 0, 40, 0, high, 0, Type2, 1, 0, 3, 3, 1, 0, 1, crop);
            Ok(s) && CroppedWidth(s) == 63 && Sps.ParseSps(Bits(SpsNal(s))).width == 62
  {
    var high := High(3, 0, 0, 0, 0, None);
    var s := ParameterSet(103, 244, 0, 0, 40, 0, high, 0, Type2, 1, 0, 3, 3, 1, 0, 1, Some(Cropping(1, 0, 0, 0)));
    ReadsWhatWasWritten(s);
  }

  // ----- Profiles the parser does not know -----

  lemma ShortCodes()
    ensures Ue(0) == [1] && Ue(1) == [0, 1, 0] && Ue(2) == [0, 1, 1]
    ensures ToBits(0, 1) == [0] && ToBits(1, 1) == [1]
  {
    assert BitCount(1) == 1 && BitCount(2) == 2 && BitCount(3) == 2;
    assert ToBits(0, 0) == [] && ToBits(1, 1) == [1] && ToBits(2, 2) == [1, 0] && ToBits(3, 2) == [1, 1];
    assert ZeroBits(0) == [] && ZeroBits(1) == [0];
  }

  lemma Grouped(a: BitString, b: BitString, c: BitString)
    ensures (a + b) + c == a + (b + c)
  {
  }

  lemma TwoZeros(n: nat)
    requires n >= 2
    ensures ZeroBits(n) == [0, 0] + ZeroBits(n - 2)
  {
    assert ZeroBits(n) == [0] + ZeroBits(n - 1) && ZeroBits(n - 1) == [0] + ZeroBits(n - 2);
  }

  lemma ManyBits(k: nat)
    requires k >= 3
    ensures BitCount(k + 1) >= 3
  {
    var n := BitCount(k + 1);
    assert Pow2(0) == 1 && Pow2(1) == 2 && Pow2(2) == 4;
    if n <= 2 { Pow2Monotone(n, 2); }
  }

  lemma LongCode(k: nat) returns (rest: BitString)
    requires k >= 3
    ensures Ue(k) == [0, 0] + rest
  {
    var n := BitCount(k + 1);
    ManyBits(k);
    TwoZeros(n - 1);
    Grouped([0, 0], ZeroBits(n - 3), ToBits(k + 1, n));
    rest := ZeroBits(n - 3) + ToBits(k + 1, n);
  }

  lemma TwoFlags()
    ensures EncodeAll(Cons(U(0, 1), Cons(U(0, 1), Nil))) == [0, 0]
  {
    ShortCodes();
    assert EncodeAll(Cons(U(0, 1), Nil)) == [0];
  }

  /** Fields with the same bits. */
  lemma SameBits(f: Field, fs: Fields, g: Field, gs: Fields, more: BitString)
    requires FieldBits(f) == FieldBits(g) && EncodeAll(fs) == EncodeAll(gs) + more
    ensures EncodeAll(Cons(f, fs)) == EncodeAll(Cons(g, gs)) + more
  {
    Grouped(FieldBits(g), EncodeAll(gs), more);
  }

  /** Parameter sets of 4:2:0 frames, more than three macroblocks wide, with lossless coding allowed. */
  predicate Lossless(s: ParameterSet) {
    && s.high == High(1, 0, 0, 0, 1, None) && s.poc == Type2 && s.maxRefFrames == 0 && s.gapsAllowed == 0
    && s.widthMinus1 >= 3
  }

  /** What their bits say to a parser that expects no fields of the high profiles. */
  function TakenFor(s: ParameterSet): ParameterSet {
    s.(log2MaxFrameNum := 1, poc := Type0(0), maxRefFrames := 0, gapsAllowed := 0, widthMinus1 := s.log2MaxFrameNum,
       heightMinus1 := 2, frameMbsOnly := 1, direct8x8 := 0, cropping := None)
  }

  /** The code of the width begins with two zero flags: no cropping, no VUI parameters. */
  lemma WidthTakenForFlags(s: ParameterSet) returns (more: BitString)
    requires s.widthMinus1 >= 3
    ensures EncodeAll(SizeFields(s)) == EncodeAll(Cons(U(0, 1), Cons(U(0, 1), Nil))) + more
  {
    var code := LongCode(s.widthMinus1);
    more := code + EncodeAll(SizeFields(s).rest);
    TwoFlags();
    Grouped([0, 0], code, EncodeAll(SizeFields(s).rest));
  }

  /** From the frame number on, and the size that is found there. */
  lemma MiddleTakenFor(s: ParameterSet) returns (more: BitString)
    requires Lossless(s)
    ensures EncodeAll(MiddleFields(s)) == EncodeAll(SizeFields(TakenFor(s))) + more
  {
    more := WidthTakenForFlags(s);
    ShortCodes();
    var f0, g0 := SizeFields(s), Cons(U(0, 1), Cons(U(0, 1), Nil));
    SameBits(U(0, 1), f0, U(0, 1), g0, more);
    var f1, g1 := Cons(U(0, 1), f0), Cons(U(0, 1), g0);
    SameBits(UE(0), f1, U(1, 1), g1, more);
    var f2, g2 := Cons(UE(0), f1), Cons(U(1, 1), g1);
    SameBits(UE(2), f2, UE(2), g2, more);
    SameBits(UE(s.log2MaxFrameNum), Cons(UE(2), f2), UE(s.log2MaxFrameNum), Cons(UE(2), g2), more);
  }

  lemma ProfileTakenFor(s: ParameterSet) returns (more: BitString)
    requires Lossless(s)
    ensures EncodeAll(ProfileFields(s, true)) == EncodeAll(ProfileFields(TakenFor(s), false)) + more
  {
    more := MiddleTakenFor(s);
    ShortCodes();
    var f0, g0 := MiddleFields(s), SizeFields(TakenFor(s));
    SameBits(U(0, 1), f0, U(0, 1), g0, more);
    var f1, g1 := Cons(U(0, 1), f0), Cons(U(0, 1), g0);
    SameBits(U(1, 1), f1, UE(0), g1, more);
    var f2, g2 := Cons(U(1, 1), f1), Cons(UE(0), g1);
    SameBits(UE(0), f2, UE(0), g2, more);
    var f3, g3 := Cons(UE(0), f2), Cons(UE(0), g2);
    SameBits(UE(0), f3, UE(0), g3, more);
    SameBits(UE(1), Cons(UE(0), f3), UE(1), Cons(UE(0), g3), more);
  }

  lemma AllTakenFor(s: ParameterSet) returns (more: BitString)
    requires Lossless(s)
    ensures EncodeAll(AllFields(s, true)) == EncodeAll(AllFields(TakenFor(s), false)) + more
  {
    more := ProfileTakenFor(s);
    var f0, g0 := ProfileFields(s, true), ProfileFields(TakenFor(s), false);
    SameBits(UE(s.id), f0, UE(s.id), g0, more);
    var f1, g1 := Cons(UE(s.id), f0), Cons(UE(s.id), g0);
    SameBits(U(s.levelIdc, 8), f1, U(s.levelIdc, 8), g1, more);
    var f2, g2 := Cons(U(s.levelIdc, 8), f1), Cons(U(s.levelIdc, 8), g1);
    SameBits(U(s.reserved, 3), f2, U(s.reserved, 3), g2, more);
    var f3, g3 := Cons(U(s.reserved, 3), f2), Cons(U(s.reserved, 3), g2);
    SameBits(U(s.constraints, 5), f3, U(s.constraints, 5), g3, more);
    var f4, g4 := Cons(U(s.constraints, 5), f3), Cons(U(s.constraints, 5), g3);
    SameBits(U(s.profileIdc, 8), f4, U(s.profileIdc, 8), g4, more);
    SameBits(U(s.nalHeader, 8), Cons(U(s.profileIdc, 8), f4), U(s.nalHeader, 8), Cons(U(s.profileIdc, 8), g4), more);
  }

  /** Where the bits of `s` begin with those of `t` as the parser expects them, it reads `t`. */
  lemma ReadsTakenFor(s: ParameterSet, t: ParameterSet, more: BitString)
    requires Ok(t) && !Sps.IsHighProfile(t.profileIdc)
    requires EncodeAll(SpsFields(s)) == EncodeAll(AllFields(t, false)) + more
    ensures Sps.ParseSps(Bits(SpsNal(s))).width == CodedWidth(t)
  {
    var b, bits := Bits(SpsNal(s)), EncodeAll(AllFields(t, false));
    PackedBits(EncodeAll(SpsFields(s)));
    assert b[0..] == b;
    BitsAtPrefix(b, 0, bits);
    EncodedIsWritten(b, 0, AllFields(t, false));
    ParseWritten(b, |bits|, t);
  }

  /** Why the profile must be known: of these parameter sets, in one of the four profiles, the parser takes
      log2_max_frame_num_minus4 for the width. */
  lemma UnknownProfileIsMisread(s: ParameterSet)
    requires Ok(s) && Unknown(s.profileIdc) && Lossless(s) && Readable(s.log2MaxFrameNum)
    ensures Sps.ParseSps(Bits(SpsNal(s))).width == 16 * (s.log2MaxFrameNum + 1)
  {
    var more := AllTakenFor(s);
    ReadsTakenFor(s, TakenFor(s), more);
  }
}
