/** `readSPS`: the sequence parameter set parser as functions of the bits. */
module Sps {
  import opened Bytes
  import opened BitStream

  /** `vui` tells that VUI parameters follow: the source then goes on to scale the width by the sample
      aspect ratio, which is not part of this model; `width` is the value before that. */
  datatype SpsRead = SpsRead(width: int, height: int, vui: bool, index: nat)

  predicate IsHighProfile(profileIdc: int) {
    profileIdc in {100, 110, 122, 244, 44, 83, 86, 118, 128}
  }

  function NextScale(lastScale: int, delta: int): int {
    TruncMod(lastScale + delta + 256, 256)
  }

  /** `skipScalingList` with `count` entries to go. */
  function SkipScalingList(b: BitString, i: nat, count: nat, lastScale: int, nextScale: int): (next: nat)
    requires i <= |b|
    ensures next <= |b|
    decreases count
  {
    if count == 0 then i
    else if nextScale != 0 then
      var delta := ReadEG(b, i);
      var scale := NextScale(lastScale, delta.value);
      SkipScalingList(b, delta.index, count - 1, if scale == 0 then lastScale else scale, scale)
    else SkipScalingList(b, i, count - 1, lastScale, 0)
  }

  function ListSize(k: nat): nat {
    if k < 6 then 16 else 64
  }

  /** The scaling lists from number `k` on. */
  function SkipMatrix(b: BitString, i: nat, k: nat, count: nat): (next: nat)
    requires i <= |b| && k <= count
    ensures next <= |b|
    decreases count - k
  {
    if k == count then i else
      var present := ReadBits(b, 1, i);
      var j := if present.value == 1 then SkipScalingList(b, present.index, ListSize(k), 8, 8) else present.index;
      SkipMatrix(b, j, k + 1, count)
  }

  /** What only the high profiles have: chroma format to scaling matrix. */
  function SkipHigh(b: BitString, i: nat): (next: nat)
    requires i <= |b|
    ensures next <= |b|
  {
    var chroma := ReadUEG(b, i);
    var i1 := if chroma.value == 3 then SkipBits(b, 1, chroma.index) else chroma.index;
    var i2 := SkipBits(b, 1, SkipUEG(b, SkipUEG(b, i1)));
    var matrix := ReadBits(b, 1, i2);
    if matrix.value == 1 then SkipMatrix(b, matrix.index, 0, if chroma.value != 3 then 8 else 12)
    else matrix.index
  }

  function SkipCodes(b: BitString, i: nat, count: int): (next: nat)
    requires i <= |b|
    ensures next <= |b|
    decreases count
  {
    if count <= 0 then i else SkipCodes(b, SkipUEG(b, i), count - 1)
  }

  /** Picture order count fields. */
  function SkipPoc(b: BitString, i: nat): (next: nat)
    requires i <= |b|
    ensures next <= |b|
  {
    var kind := ReadUEG(b, i);
    if kind.value == 0 then ReadUEG(b, kind.index).index
    else if kind.value == 1 then
      var count := ReadUEG(b, SkipUEG(b, SkipUEG(b, SkipBits(b, 1, kind.index))));
      SkipCodes(b, count.index, count.value)
    else kind.index
  }

  datatype Crop = Crop(left: int, right: int, top: int, bottom: int, index: nat)

  function ReadCrop(b: BitString, i: nat): (c: Crop)
    requires i <= |b|
    ensures c.index <= |b|
  {
    var flag := ReadBits(b, 1, i);
    if flag.value == 1 then
      var left := ReadUEG(b, flag.index);
      var right := ReadUEG(b, left.index);
      var top := ReadUEG(b, right.index);
      var bottom := ReadUEG(b, top.index);
      Crop(left.value, right.value, top.value, bottom.value, bottom.index)
    else Crop(0, 0, 0, 0, flag.index)
  }

  /** From the start to just before the picture size. */
  function SkipToSize(b: BitString): (next: nat)
    ensures next <= |b|
  {
    var header := ReadBits(b, 8, 0);
    var profile := ReadBits(b, 8, header.index);
    var constraints := ReadBits(b, 5, profile.index);
    var level := ReadBits(b, 8, SkipBits(b, 3, constraints.index));
    var i1 := SkipUEG(b, level.index);
    var i2 := if IsHighProfile(profile.value) then SkipHigh(b, i1) else i1;
    var i3 := SkipPoc(b, SkipUEG(b, i2));
    SkipBits(b, 1, SkipUEG(b, i3))
  }

  function Width(widthMinus1: int, left: int, right: int): int {
    (widthMinus1 + 1) * 16 - left * 2 - right * 2
  }

  function Height(heightMinus1: int, frameMbsOnly: int, top: int, bottom: int): int {
    (2 - frameMbsOnly) * (heightMinus1 + 1) * 16 - (if frameMbsOnly != 0 then 2 else 4) * (top + bottom)
  }

  /** Picture size, frame flags, cropping, and the flag for VUI parameters. */
  function ReadSize(b: BitString, i: nat): SpsRead
    requires i <= |b|
  {
    var width := ReadUEG(b, i);
    var height := ReadUEG(b, width.index);
    var frameMbsOnly := ReadBits(b, 1, height.index);
    var i1 := if frameMbsOnly.value == 0 then SkipBits(b, 1, frameMbsOnly.index) else frameMbsOnly.index;
    var crop := ReadCrop(b, SkipBits(b, 1, i1));
    var vui := ReadBits(b, 1, crop.index);
    SpsRead(
      Width(width.value, crop.left, crop.right),
      Height(height.value, frameMbsOnly.value, crop.top, crop.bottom),
      vui.value == 1, vui.index)
  }

  function ParseSps(b: BitString): SpsRead {
    ReadSize(b, SkipToSize(b))
  }
}
