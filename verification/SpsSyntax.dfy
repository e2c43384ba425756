/** Sequence parameter sets as ITU-T H.264, section 7.3.2.1.1, writes them. */
module SpsSyntax {
  import opened Bytes
  import opened BitStream
  import opened ExpGolombCodes
  import Sps

  datatype Field = U(value: nat, size: nat) | UE(code: nat) | SE(signed: int)

  datatype Fields = Nil | Cons(field: Field, rest: Fields)

  function FieldBits(f: Field): BitString {
    match f
    case U(v, n) => ToBits(v, n)
    case UE(k) => Ue(k)
    case SE(v) => Se(v)
  }

  function EncodeAll(fs: Fields): BitString {
    match fs
    case Nil => []
    case Cons(f, rest) => FieldBits(f) + EncodeAll(rest)
  }

  /** The fields stand one after the other in `b`, from `i` on and up to `stop`. */
  predicate Written(b: BitString, stop: nat, i: nat, fs: Fields)
    decreases fs
  {
    match fs
    case Nil => i == stop <= |b|
    case Cons(f, rest) => BitsAt(b, i, FieldBits(f)) && Written(b, stop, i + |FieldBits(f)|, rest)
  }

  lemma {:induction false} EncodedIsWritten(b: BitString, i: nat, fs: Fields)
    requires BitsAt(b, i, EncodeAll(fs))
    ensures Written(b, i + |EncodeAll(fs)|, i, fs)
    decreases fs
  {
    match fs
    case Nil =>
    case Cons(f, rest) =>
      BitsAtConcat(b, i, FieldBits(f), EncodeAll(rest));
      EncodedIsWritten(b, i + |FieldBits(f)|, rest);
  }

  // ----- The syntax -----

  /** The syntax elements that only high profiles carry; a scaling list is present when it is given,
      as the delta_scale of each of its entries. */
  datatype High = High(chromaFormatIdc: nat, separatePlane: nat, lumaDepth: nat, chromaDepth: nat,
                       bypass: nat, matrix: Option<seq<Option<seq<int>>>>)

  datatype Poc =
    | Type0(log2MaxLsb: nat)
    | Type1(deltaAlwaysZero: nat, nonRefOffset: int, bottomOffset: int, refOffsets: seq<int>)
    | Type2

  datatype Cropping = Cropping(left: nat, right: nat, top: nat, bottom: nat)

  datatype ParameterSet = ParameterSet(
    nalHeader: nat, profileIdc: nat, constraints: nat, reserved: nat, levelIdc: nat, id: nat, high: High,
    log2MaxFrameNum: nat, poc: Poc, maxRefFrames: nat, gapsAllowed: nat,
    widthMinus1: nat, heightMinus1: nat, frameMbsOnly: nat, mbAdaptive: nat, direct8x8: nat,
    cropping: Option<Cropping>)

  function ListCount(h: High): nat {
    if h.chromaFormatIdc != 3 then 8 else 12
  }

  function CodedScale(lastScale: int, delta: int): (scale: int)
    ensures 0 <= scale < 256
  {
    (lastScale + delta + 256) % 256
  }

  /** Section 7.3.2.1.1.1: no further delta_scale is written once the next scale is 0. */
  function ScalingFields(deltas: seq<int>, j: nat, lastScale: int, nextScale: int, tail: Fields): Fields
    requires j <= |deltas|
    decreases |deltas| - j
  {
    if j == |deltas| then tail
    else if nextScale != 0 then
      var scale := CodedScale(lastScale, deltas[j]);
      Cons(SE(deltas[j]), ScalingFields(deltas, j + 1, if scale == 0 then lastScale else scale, scale, tail))
    else ScalingFields(deltas, j + 1, lastScale, 0, tail)
  }

  function MatrixFields(lists: seq<Option<seq<int>>>, k: nat, tail: Fields): Fields
    requires k <= |lists|
    decreases |lists| - k
  {
    if k == |lists| then tail else
      match lists[k]
      case None => Cons(U(0, 1), MatrixFields(lists, k + 1, tail))
      case Some(deltas) => Cons(U(1, 1), ScalingFields(deltas, 0, 8, 8, MatrixFields(lists, k + 1, tail)))
  }

  function PlaneFields(h: High, tail: Fields): Fields {
    if h.chromaFormatIdc == 3 then Cons(U(h.separatePlane, 1), tail) else tail
  }

  function HighFields(h: High, tail: Fields): Fields {
    Cons(UE(h.chromaFormatIdc), PlaneFields(h,
      Cons(UE(h.lumaDepth), Cons(UE(h.chromaDepth), Cons(U(h.bypass, 1),
        match h.matrix
        case None => Cons(U(0, 1), tail)
        case Some(lists) => Cons(U(1, 1), MatrixFields(lists, 0, tail)))))))
  }

  function OffsetFields(offsets: seq<int>, j: nat, tail: Fields): Fields
    requires j <= |offsets|
    decreases |offsets| - j
  {
    if j == |offsets| then tail else Cons(SE(offsets[j]), OffsetFields(offsets, j + 1, tail))
  }

  function PocFields(p: Poc, tail: Fields): Fields {
    match p
    case Type0(lsb) => Cons(UE(0), Cons(UE(lsb), tail))
    case Type1(zero, nonRef, bottom, refs) =>
      Cons(UE(1), Cons(U(zero, 1), Cons(SE(nonRef), Cons(SE(bottom),
        Cons(UE(|refs|), OffsetFields(refs, 0, tail))))))
    case Type2 => Cons(UE(2), tail)
  }

  function CropFields(c: Option<Cropping>, tail: Fields): Fields {
    match c
    case None => Cons(U(0, 1), tail)
    case Some(r) =>
      Cons(U(1, 1), Cons(UE(r.left), Cons(UE(r.right), Cons(UE(r.top), Cons(UE(r.bottom), tail)))))
  }

  function SizeFields(s: ParameterSet): Fields {
    Cons(UE(s.widthMinus1), Cons(UE(s.heightMinus1), Cons(U(s.frameMbsOnly, 1), FrameFields(s))))
  }

  function FrameFields(s: ParameterSet): Fields {
    var rest := Cons(U(s.direct8x8, 1), CropFields(s.cropping, Cons(U(0, 1), Nil)));
    if s.frameMbsOnly == 0 then Cons(U(s.mbAdaptive, 1), rest) else rest
  }

  function FrameNumFields(s: ParameterSet): Fields {
    Cons(UE(s.maxRefFrames), Cons(U(s.gapsAllowed, 1), SizeFields(s)))
  }

  function MiddleFields(s: ParameterSet): Fields {
    Cons(UE(s.log2MaxFrameNum), PocFields(s.poc, FrameNumFields(s)))
  }

  /** The profiles that carry the chroma format, as section 7.3.2.1.1 lists them. */
  predicate HasChromaFields(profileIdc: nat) {
    profileIdc in {100, 110, 122, 244, 44, 83, 86, 118, 128, 138, 139, 134, 135}
  }

  /** With `high` the fields of the high profiles are written. */
  function ProfileFields(s: ParameterSet, high: bool): Fields {
    if high then HighFields(s.high, MiddleFields(s)) else MiddleFields(s)
  }

  function AllFields(s: ParameterSet, high: bool): Fields {
    Cons(U(s.nalHeader, 8), Cons(U(s.profileIdc, 8), Cons(U(s.constraints, 5), Cons(U(s.reserved, 3),
      Cons(U(s.levelIdc, 8), Cons(UE(s.id), ProfileFields(s, high)))))))
  }

  /** The NAL unit header byte and seq_parameter_set_data() with vui_parameters_present_flag 0. */
  function SpsFields(s: ParameterSet): Fields {
    AllFields(s, HasChromaFields(s.profileIdc))
  }

  // ----- Legal values -----

  /** A value the parser reads: its code has at most 30 leading zeros. */
  predicate Readable(k: nat) {
    k + 1 < TWO_31
  }

  /** A value the parser only skips. */
  predicate Codable(k: nat) {
    k + 1 < TWO_32
  }

  predicate SignedCodable(v: int) {
    -TWO_31 < v < TWO_31
  }

  predicate DeltasOk(deltas: seq<int>) {
    forall j :: 0 <= j < |deltas| ==> -128 <= deltas[j] <= 127
  }

  predicate ListsOk(lists: seq<Option<seq<int>>>) {
    forall k :: 0 <= k < |lists| && lists[k].Some? ==>
      |lists[k].value| == Sps.ListSize(k) && DeltasOk(lists[k].value)
  }

  predicate HighOk(h: High) {
    && Readable(h.chromaFormatIdc) && Codable(h.lumaDepth) && Codable(h.chromaDepth)
    && h.separatePlane < 2 && h.bypass < 2
    && (h.matrix.Some? ==> |h.matrix.value| == ListCount(h) && ListsOk(h.matrix.value))
  }

  predicate PocOk(p: Poc) {
    match p
    case Type0(lsb) => Codable(lsb)
    case Type1(zero, nonRef, bottom, refs) =>
      && zero < 2 && SignedCodable(nonRef) && SignedCodable(bottom) && Readable(|refs|)
      && forall j :: 0 <= j < |refs| ==> SignedCodable(refs[j])
    case Type2 => true
  }

  predicate CroppingOk(c: Option<Cropping>) {
    c.Some? ==> Readable(c.value.left) && Readable(c.value.right) && Readable(c.value.top) && Readable(c.value.bottom)
  }

  predicate Ok(s: ParameterSet) {
    && s.nalHeader < 256 && s.profileIdc < 256 && s.constraints < 32 && s.reserved < 8 && s.levelIdc < 256
    && Codable(s.id) && Codable(s.log2MaxFrameNum) && Codable(s.maxRefFrames)
    && HighOk(s.high) && PocOk(s.poc) && CroppingOk(s.cropping)
    && Readable(s.widthMinus1) && Readable(s.heightMinus1)
    && s.gapsAllowed < 2 && s.frameMbsOnly < 2 && s.mbAdaptive < 2 && s.direct8x8 < 2
  }

  /** Profiles of the standard's list that the parser does not know: 134, 135, 138 and 139. */
  predicate Unknown(profileIdc: nat) {
    HasChromaFields(profileIdc) && !Sps.IsHighProfile(profileIdc)
  }
}
