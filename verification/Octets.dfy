/** Bytes of the serial link as numbers. */
module Octets {

  /** The first two bytes are those of the number, the least significant first. */
  predicate LittleEndian(bytes: seq<bv8>, v: int) {
    |bytes| >= 2 && bytes[0] as int == v % 256 && bytes[1] as int == v / 256
  }

  lemma Pieces(l: int, h: int)
    requires 0 <= l < 256 && 0 <= h < 256
    ensures (l + 256 * h) % 256 == l && (l + 256 * h) / 256 == h && 0 <= l + 256 * h < 0x1_0000
  {
  }

  lemma ByteRange(b: bv8)
    ensures 0 <= b as int < 256
  {
  }

  /** The number of two bytes. */
  function Join(lo: bv8, hi: bv8): (v: int)
    ensures 0 <= v < 0x1_0000 && v % 256 == lo as int && v / 256 == hi as int
  {
    ByteRange(lo);
    ByteRange(hi);
    Pieces(lo as int, hi as int);
    lo as int + 256 * (hi as int)
  }

  /** There is only one number with these bytes. */
  lemma NumberIsUnique(bytes: seq<bv8>, v: int, w: int)
    requires LittleEndian(bytes, v) && LittleEndian(bytes, w)
    ensures v == w
  {
  }
}
