/** `ExpGolomb`: the reader that moves a bit cursor over a byte array. */
module BitReader {
  import opened Bytes
  import BitStream

  class ExpGolomb {
    const data: ByteString
    var index: nat

    constructor (data: ByteString)
      ensures Valid() && this.data == data && index == 0
    {
      this.data := data;
      index := 0;
    }

    ghost predicate Valid()
      reads this
    {
      index <= BitLength()
    }

    function BitLength(): nat {
      8 * |data|
    }

    ghost function Bits(): (b: BitStream.BitString)
      ensures |b| == BitLength()
    {
      BitStream.Bits(data)
    }

    method SkipBits(size: nat)
      requires Valid()
      modifies this
      ensures Valid() && index == BitStream.SkipBits(Bits(), size, old(index))
    {
      if BitLength() - index < size {
        return;
      }
      index := index + size;
    }

    /** The bits up to the next byte boundary. */
    method RestOfByte(offsetBits: nat) returns (byte: nat)
      requires offsetBits < BitLength()
      ensures byte == BitStream.Value(Bits(), offsetBits, 8 - offsetBits % 8)
    {
      var offset := offsetBits % 8;
      byte := data[offsetBits / 8] % BitStream.Pow2(8 - offset);
      BitStream.WholeChunk(data, offsetBits);
    }

    /** The first `size` of them. */
    method PartOfByte(offsetBits: nat, size: nat) returns (value: nat)
      requires offsetBits < BitLength() && 1 <= size <= 8 - offsetBits % 8
      ensures offsetBits + size <= BitLength()
      ensures value == BitStream.GetBits(Bits(), size, offsetBits)
    {
      var offset := offsetBits % 8;
      var byte := data[offsetBits / 8] % BitStream.Pow2(8 - offset);
      BitStream.PartChunk(data, offsetBits, size);
      value := byte / BitStream.Pow2(8 - offset - size);
    }

    /** With `moveIndex` the bits are read at the cursor; without, anywhere in the data. */
    method GetBits(size: nat, offsetBits: nat, moveIndex: bool) returns (value: int)
      requires Valid() && 1 <= size
      requires if moveIndex then offsetBits == index else index <= offsetBits && offsetBits + size <= BitLength()
      modifies this
      ensures Valid()
      ensures BitLength() - old(index) < size ==> value == 0 && index == old(index)
      ensures BitLength() - old(index) >= size ==>
                && value == BitStream.GetBits(Bits(), size, offsetBits)
                && index == if moveIndex then old(index) + size else old(index)
      decreases size
    {
      if BitLength() - index < size {
        return 0;
      }
      var bits := 8 - offsetBits % 8;
      if bits >= size {
        value := PartOfByte(offsetBits, size);
        if moveIndex {
          index := index + size;
        }
        return;
      }
      var byte := RestOfByte(offsetBits);
      if moveIndex {
        index := index + bits;
      }
      var nextSize := size - bits;
      var rest := GetBits(nextSize, offsetBits + bits, moveIndex);
      BitStream.GetBitsJoin(Bits(), size, offsetBits, byte, rest);
      value := BitStream.Or(BitStream.ShiftLeft(byte, nextSize), rest);
    }

    method ReadBits(size: nat) returns (value: int)
      requires Valid() && 1 <= size
      modifies this
      ensures Valid() && BitStream.Read(value, index) == BitStream.ReadBits(Bits(), size, old(index))
    {
      value := GetBits(size, index, true);
    }

    method SkipLZ() returns (leadingZeroCount: nat)
      requires Valid()
      modifies this
      ensures Valid() && BitStream.Read(leadingZeroCount, index) == BitStream.SkipLZ(Bits(), old(index))
    {
      leadingZeroCount := 0;
      while leadingZeroCount < BitLength() - index
        invariant index == old(index) && Valid()
        invariant index + leadingZeroCount <= BitLength()
        invariant BitStream.LeadingZeros(Bits(), index) ==
                  leadingZeroCount + BitStream.LeadingZeros(Bits(), index + leadingZeroCount)
      {
        BitStream.OneBit(Bits(), index + leadingZeroCount);
        var bit := GetBits(1, index + leadingZeroCount, false);
        if bit != 0 {
          index := index + leadingZeroCount;
          return;
        }
        leadingZeroCount := leadingZeroCount + 1;
      }
    }

    /** Also `skipEG`. */
    method SkipUEG()
      requires Valid()
      modifies this
      ensures Valid() && index == BitStream.SkipUEG(Bits(), old(index))
    {
      var lz := SkipLZ();
      SkipBits(1 + lz);
    }

    method ReadUEG() returns (value: int)
      requires Valid()
      modifies this
      ensures Valid() && BitStream.Read(value, index) == BitStream.ReadUEG(Bits(), old(index))
    {
      var prefix := SkipLZ();
      value := ReadBits(prefix + 1);
      value := value - 1;
    }

    method ReadEG() returns (value: int)
      requires Valid()
      modifies this
      ensures Valid() && BitStream.Read(value, index) == BitStream.ReadEG(Bits(), old(index))
    {
      value := ReadUEG();
      if ToInt32(value) % 2 != 0 {
        value := ToUint32(1 + value) / 2;
      } else {
        value := -(ToUint32(value) / 2);
      }
    }

    method ReadBoolean() returns (value: bool)
      requires Valid()
      modifies this
      ensures Valid() && index == BitStream.ReadBits(Bits(), 1, old(index)).index
      ensures value == (BitStream.ReadBits(Bits(), 1, old(index)).value == 1)
    {
      var bit := ReadBits(1);
      value := bit == 1;
    }
  }
}
