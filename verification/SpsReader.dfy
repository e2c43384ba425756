/** `readSPS` as the source runs it, on the moving reader. */
module SpsReader {
  import opened Bytes
  import BitStream
  import opened BitReader
  import Sps

  method SkipScalingList(decoder: ExpGolomb, count: nat)
    requires decoder.Valid()
    modifies decoder
    ensures decoder.Valid()
    ensures decoder.index == Sps.SkipScalingList(decoder.Bits(), old(decoder.index), count, 8, 8)
  {
    var lastScale, nextScale := 8, 8;
    var j := 0;
    while j < count
      invariant 0 <= j <= count && decoder.Valid()
      invariant Sps.SkipScalingList(decoder.Bits(), old(decoder.index), count, 8, 8) ==
                Sps.SkipScalingList(decoder.Bits(), decoder.index, count - j, lastScale, nextScale)
    {
      if nextScale != 0 {
        var deltaScale := decoder.ReadEG();
        nextScale := Sps.NextScale(lastScale, deltaScale);
      }
      lastScale := if nextScale == 0 then lastScale else nextScale;
      j := j + 1;
    }
  }

  method SkipScalingMatrix(decoder: ExpGolomb, scalingListCount: nat)
    requires decoder.Valid()
    modifies decoder
    ensures decoder.Valid()
    ensures decoder.index == Sps.SkipMatrix(decoder.Bits(), old(decoder.index), 0, scalingListCount)
  {
    var i := 0;
    while i < scalingListCount
      invariant 0 <= i <= scalingListCount && decoder.Valid()
      invariant Sps.SkipMatrix(decoder.Bits(), old(decoder.index), 0, scalingListCount) ==
                Sps.SkipMatrix(decoder.Bits(), decoder.index, i, scalingListCount)
    {
      var present := decoder.ReadBoolean();
      if present {
        if i < 6 {
          SkipScalingList(decoder, 16);
        } else {
          SkipScalingList(decoder, 64);
        }
      }
      i := i + 1;
    }
  }

  method SkipHigh(decoder: ExpGolomb)
    requires decoder.Valid()
    modifies decoder
    ensures decoder.Valid() && decoder.index == Sps.SkipHigh(decoder.Bits(), old(decoder.index))
  {
    var chromaFormatIdc := decoder.ReadUEG();
    if chromaFormatIdc == 3 {
      decoder.SkipBits(1);
    }
    decoder.SkipUEG();
    decoder.SkipUEG();
    decoder.SkipBits(1);
    var matrix := decoder.ReadBoolean();
    if matrix {
      SkipScalingMatrix(decoder, if chromaFormatIdc != 3 then 8 else 12);
    }
  }

  method SkipRefFrames(decoder: ExpGolomb, count: int)
    requires decoder.Valid()
    modifies decoder
    ensures decoder.Valid() && decoder.index == Sps.SkipCodes(decoder.Bits(), old(decoder.index), count)
  {
    var i := 0;
    while i < count
      invariant 0 <= i && decoder.Valid()
      invariant Sps.SkipCodes(decoder.Bits(), old(decoder.index), count) ==
                Sps.SkipCodes(decoder.Bits(), decoder.index, count - i)
      decreases count - i
    {
      decoder.SkipUEG();
      i := i + 1;
    }
  }

  method SkipPoc(decoder: ExpGolomb)
    requires decoder.Valid()
    modifies decoder
    ensures decoder.Valid() && decoder.index == Sps.SkipPoc(decoder.Bits(), old(decoder.index))
  {
    var picOrderCntType := decoder.ReadUEG();
    if picOrderCntType == 0 {
      var _ := decoder.ReadUEG();
    } else if picOrderCntType == 1 {
      decoder.SkipBits(1);
      decoder.SkipUEG();
      decoder.SkipUEG();
      var numRefFramesInPicOrderCntCycle := decoder.ReadUEG();
      SkipRefFrames(decoder, numRefFramesInPicOrderCntCycle);
    }
  }

  method ReadCrop(decoder: ExpGolomb) returns (left: int, right: int, top: int, bottom: int)
    requires decoder.Valid()
    modifies decoder
    ensures decoder.Valid()
    ensures Sps.Crop(left, right, top, bottom, decoder.index) == Sps.ReadCrop(decoder.Bits(), old(decoder.index))
  {
    left, right, top, bottom := 0, 0, 0, 0;
    var flag := decoder.ReadBoolean();
    if flag {
      left := decoder.ReadUEG();
      right := decoder.ReadUEG();
      top := decoder.ReadUEG();
      bottom := decoder.ReadUEG();
    }
  }

  method SkipToSize(decoder: ExpGolomb)
    requires decoder.Valid() && decoder.index == 0
    modifies decoder
    ensures decoder.Valid() && decoder.index == Sps.SkipToSize(decoder.Bits())
  {
    var _ := decoder.ReadBits(8);
    var profileIdc := decoder.ReadBits(8);
    var _ := decoder.ReadBits(5);
    decoder.SkipBits(3);
    var _ := decoder.ReadBits(8);
    decoder.SkipUEG();
    if Sps.IsHighProfile(profileIdc) {
      SkipHigh(decoder);
    }
    decoder.SkipUEG();
    SkipPoc(decoder);
    decoder.SkipUEG();
    decoder.SkipBits(1);
  }

  method ReadSPS(data: ByteString) returns (sps: Sps.SpsRead)
    ensures sps == Sps.ParseSps(BitStream.Bits(data))
  {
    var decoder := new ExpGolomb(data);
    SkipToSize(decoder);
    var picWidthInMbsMinus1 := decoder.ReadUEG();
    var picHeightInMapUnitsMinus1 := decoder.ReadUEG();
    var frameMbsOnlyFlag := decoder.ReadBits(1);
    if frameMbsOnlyFlag == 0 {
      decoder.SkipBits(1);
    }
    decoder.SkipBits(1);
    var left, right, top, bottom := ReadCrop(decoder);
    var vui := decoder.ReadBoolean();
    sps := Sps.SpsRead(
      Sps.Width(picWidthInMbsMinus1, left, right),
      Sps.Height(picHeightInMapUnitsMinus1, frameMbsOnlyFlag, top, bottom),
      vui, decoder.index);
  }
}
