/** The codes of ITU-T H.264, sections 7.2, 9.1 and 9.1.1, and that the reader decodes them. */
module ExpGolombCodes {
  import opened Bytes
  import opened BitStream

  /** `bs` stands at position `at` of `b`. */
  predicate BitsAt(b: BitString, at: nat, bs: BitString)
    decreases |bs|
  {
    if bs == [] then at <= |b| else at < |b| && b[at] == bs[0] && BitsAt(b, at + 1, bs[1..])
  }

  lemma {:induction false} BitsAtBound(b: BitString, at: nat, bs: BitString)
    requires BitsAt(b, at, bs)
    ensures at + |bs| <= |b|
    decreases |bs|
  {
    if bs != [] { BitsAtBound(b, at + 1, bs[1..]); }
  }

  lemma {:induction false} BitsAtConcat(b: BitString, at: nat, x: BitString, y: BitString)
    ensures BitsAt(b, at, x + y) <==> BitsAt(b, at, x) && BitsAt(b, at + |x|, y)
    decreases |x|
  {
    if x == [] {
      assert x + y == y;
      if BitsAt(b, at, y) { BitsAtBound(b, at, y); }
    } else {
      assert (x + y)[1..] == x[1..] + y;
      BitsAtConcat(b, at + 1, x[1..], y);
    }
  }

  lemma {:induction false} ValueBound(b: BitString, at: nat, size: nat)
    requires at + size <= |b|
    ensures Value(b, at, size) < Pow2(size)
    decreases size
  {
    if size > 0 { ValueBound(b, at, size - 1); }
  }

  lemma {:induction false} ValueSplit(b: BitString, at: nat, m: nat, n: nat)
    requires at + m + n <= |b|
    ensures Value(b, at, m + n) == Value(b, at, m) * Pow2(n) + Value(b, at + m, n)
    decreases n
  {
    if n > 0 {
      ValueSplit(b, at, m, n - 1);
      Doubled(Value(b, at, m), Pow2(n - 1));
    }
  }

  lemma Doubled(x: nat, p: nat)
    ensures x * (2 * p) == 2 * (x * p)
  {
  }

  lemma {:induction false} Pow2Monotone(a: nat, b: nat)
    requires a <= b
    ensures Pow2(a) <= Pow2(b)
    decreases b
  {
    if a < b { Pow2Monotone(a, b - 1); }
  }

  lemma Pow2Of32()
    ensures Pow2(31) == TWO_31 && Pow2(32) == TWO_32
  {
    assert Pow2(8) == 256;
    Pow2Add(8, 8);
    Pow2Add(16, 16);
    assert Pow2(32) == 2 * Pow2(31);
  }

  lemma {:induction false} OrDisjoint(a: nat, b: nat, n: nat)
    requires b < Pow2(n)
    ensures a * Pow2(n) >= 0 && OrNat(a * Pow2(n), b) == a * Pow2(n) + b
    decreases n
  {
    if n > 0 && a > 0 && b > 0 {
      Doubled(a, Pow2(n - 1));
      OrDisjoint(a, b / 2, n - 1);
    }
  }

  lemma Int32Pattern(v: int)
    ensures ToUint32(ToInt32(v)) == ToUint32(v)
    ensures 0 <= v < TWO_32 ==> ToUint32(v) == v
    ensures 0 <= v < TWO_31 ==> ToInt32(v) == v
    ensures TWO_31 <= v < TWO_32 ==> ToInt32(v) == v - TWO_32
  {
  }

  lemma OrOfHalves(byte: nat, rest: nat, n: nat)
    requires n < 32 && rest < Pow2(n) && byte * Pow2(n) + rest < TWO_32
    ensures Or(ShiftLeft(byte, n), ToInt32(rest)) == ToInt32(byte * Pow2(n) + rest)
  {
    OrDisjoint(byte, rest, n);
    OrOf(byte * Pow2(n), rest);
  }

  lemma OrOf(hi: nat, lo: nat)
    requires hi < TWO_32 && lo < TWO_32
    ensures Or(ToInt32(hi), ToInt32(lo)) == ToInt32(OrNat(hi, lo))
  {
    Int32Pattern(hi);
    Int32Pattern(lo);
  }

  lemma ShortValue(b: BitString, at: nat, size: nat)
    requires at + size <= |b| && size <= 8
    ensures ToInt32(Value(b, at, size)) == Value(b, at, size)
  {
    ValueBound(b, at, size);
    Pow2Monotone(size, 8);
    assert Pow2(8) == 256;
  }

  /** The bits up to a byte boundary and the rest of them, put together. */
  lemma JoinValue(b: BitString, at: nat, bits: nat, rest: nat)
    requires bits >= 1 && bits + rest <= 32 && at + bits + rest <= |b|
    ensures Or(ShiftLeft(Value(b, at, bits), rest), ToInt32(Value(b, at + bits, rest))) ==
            ToInt32(Value(b, at, bits + rest))
  {
    ValueBound(b, at, bits + rest);
    Pow2Of32();
    Pow2Monotone(bits + rest, 32);
    ValueSplit(b, at, bits, rest);
    ValueBound(b, at + bits, rest);
    OrOfHalves(Value(b, at, bits), Value(b, at + bits, rest), rest);
  }

  /** Up to 32 bits, across any byte boundaries, `getBits` returns the number they spell, read as a
      signed 32-bit number when all 32 are used. */
  lemma {:induction false} GetBitsValue(b: BitString, size: nat, at: nat)
    requires 1 <= size <= 32 && at + size <= |b|
    ensures GetBits(b, size, at) == ToInt32(Value(b, at, size))
    decreases size
  {
    var bits := 8 - at % 8;
    if bits >= size {
      ShortValue(b, at, size);
    } else {
      GetBitsValue(b, size - bits, at + bits);
      GetBitsStep(b, size, at);
      JoinValue(b, at, bits, size - bits);
    }
  }

  lemma GetBitsIs(b: BitString, size: nat, at: nat, v: nat)
    requires 1 <= size <= 32 && at + size <= |b| && Value(b, at, size) == v
    ensures GetBits(b, size, at) == ToInt32(v)
  {
    GetBitsValue(b, size, at);
  }

  // ----- ue(v) and se(v) -----

  /** `v` in `n` bits. */
  function ToBits(v: nat, n: nat): (bs: BitString)
    ensures |bs| == n
  {
    if n == 0 then [] else ToBits(v / 2, n - 1) + [v % 2]
  }

  function ZeroBits(n: nat): (bs: BitString)
    ensures |bs| == n
  {
    if n == 0 then [] else [0] + ZeroBits(n - 1)
  }

  function BitCount(v: nat): (n: nat)
    requires v >= 1
    ensures n >= 1 && Pow2(n - 1) <= v < Pow2(n)
  {
    if v == 1 then 1 else 1 + BitCount(v / 2)
  }

  /** Section 9.1: as many zeros as there are bits after the first one bit of `k` + 1, then `k` + 1. */
  function Ue(k: nat): BitString {
    ZeroBits(BitCount(k + 1) - 1) + ToBits(k + 1, BitCount(k + 1))
  }

  /** Section 9.1.1. */
  function CodeNum(v: int): nat {
    if v > 0 then 2 * v - 1 else -2 * v
  }

  function Se(v: int): BitString {
    Ue(CodeNum(v))
  }

  lemma {:induction false} ValueOfBits(b: BitString, at: nat, v: nat, n: nat)
    requires v < Pow2(n) && BitsAt(b, at, ToBits(v, n))
    ensures at + n <= |b| && Value(b, at, n) == v
    decreases n
  {
    if n > 0 {
      BitsAtConcat(b, at, ToBits(v / 2, n - 1), [v % 2]);
      ValueOfBits(b, at, v / 2, n - 1);
    }
  }

  lemma {:induction false} FirstBit(v: nat, n: nat)
    requires n >= 1 && Pow2(n - 1) <= v < Pow2(n)
    ensures ToBits(v, n)[0] == 1
    decreases n
  {
    if n > 1 { FirstBit(v / 2, n - 1); }
  }

  lemma {:induction false} CountZeros(b: BitString, at: nat, n: nat)
    requires BitsAt(b, at, ZeroBits(n)) && at + n < |b| && b[at + n] == 1
    ensures LeadingZeros(b, at) == n
    decreases n
  {
    if n > 0 {
      CountZeros(b, at + 1, n - 1);
    }
  }

  lemma CodeBits(k: nat)
    requires k + 1 < TWO_32
    ensures BitCount(k + 1) <= 32
    ensures BitCount(k + 1) <= 31 <==> k + 1 < TWO_31
  {
    Pow2Of32();
    var n := BitCount(k + 1);
    if n > 32 { Pow2Monotone(32, n - 1); }
    if n <= 31 { Pow2Monotone(n, 31); }
  }

  lemma ScanUe(b: BitString, at: nat, k: nat)
    requires BitsAt(b, at, Ue(k))
    ensures var n := BitCount(k + 1);
            && SkipLZ(b, at) == Read(n - 1, at + n - 1)
            && at + |Ue(k)| == at + n - 1 + n <= |b|
            && Value(b, at + n - 1, n) == k + 1
  {
    var n := BitCount(k + 1);
    BitsAtConcat(b, at, ZeroBits(n - 1), ToBits(k + 1, n));
    FirstBit(k + 1, n);
    CountZeros(b, at, n - 1);
    ValueOfBits(b, at + n - 1, k + 1, n);
    assert LeadingZeros(b, at) == n - 1;
  }

  lemma UeAdvances(b: BitString, at: nat, k: nat)
    requires k + 1 < TWO_32 && BitsAt(b, at, Ue(k))
    ensures at <= |b|
    ensures ReadUEG(b, at) == Read(ToInt32(k + 1) - 1, at + |Ue(k)|)
    ensures SkipUEG(b, at) == at + |Ue(k)|
  {
    ScanUe(b, at, k);
    UeBits(b, at, k);
    ReadUegOf(b, at, BitCount(k + 1), ToInt32(k + 1));
  }

  lemma UeBits(b: BitString, at: nat, k: nat)
    requires k + 1 < TWO_32 && at + BitCount(k + 1) - 1 + BitCount(k + 1) <= |b|
    requires Value(b, at + BitCount(k + 1) - 1, BitCount(k + 1)) == k + 1
    ensures GetBits(b, BitCount(k + 1), at + BitCount(k + 1) - 1) == ToInt32(k + 1)
  {
    CodeBits(k);
    GetBitsIs(b, BitCount(k + 1), at + BitCount(k + 1) - 1, k + 1);
  }

  lemma UeValue(k: nat)
    requires k + 1 < TWO_32
    ensures ToInt32(k + 1) - 1 == if k + 1 < TWO_31 then k else k - TWO_32
    ensures k + 1 < TWO_31 <==> BitCount(k + 1) - 1 <= 30
  {
    CodeBits(k);
  }

  /** `readUEG` and `skipUEG` advance by exactly the codeword; the value read is the coded one if and
      only if the code has at most 30 leading zeros, and wraps to a negative number beyond. */
  lemma ReadUeCode(b: BitString, at: nat, k: nat)
    requires k + 1 < TWO_32 && BitsAt(b, at, Ue(k))
    ensures at <= |b|
    ensures ReadUEG(b, at) == Read(if k + 1 < TWO_31 then k else k - TWO_32, at + |Ue(k)|)
    ensures SkipUEG(b, at) == at + |Ue(k)|
    ensures ReadUEG(b, at).value == k <==> BitCount(k + 1) - 1 <= 30
  {
    UeAdvances(b, at, k);
    UeValue(k);
  }

  lemma ReadUegOf(b: BitString, at: nat, n: nat, v: int)
    requires 1 <= n && at + n - 1 + n <= |b|
    requires SkipLZ(b, at) == Read(n - 1, at + n - 1) && GetBits(b, n, at + n - 1) == v
    ensures ReadUEG(b, at) == Read(v - 1, at + n - 1 + n)
    ensures SkipUEG(b, at) == at + n - 1 + n
  {
  }

  /** `readEG` is right on the whole range of se(v): its unsigned shifts undo the wrap. */
  lemma ReadSeCode(b: BitString, at: nat, v: int)
    requires -TWO_31 < v < TWO_31 && BitsAt(b, at, Se(v))
    ensures ReadEG(b, at) == Read(v, at + |Se(v)|)
    ensures SkipUEG(b, at) == at + |Se(v)|
  {
    var k := CodeNum(v);
    var w := if k + 1 < TWO_31 then k else k - TWO_32;
    ReadUeCode(b, at, k);
    SignedOf(v, w);
    ReadEgOf(b, at, w, at + |Se(v)|);
  }

  lemma ReadEgOf(b: BitString, at: nat, w: int, next: nat)
    requires at <= |b| && ReadUEG(b, at) == Read(w, next)
    ensures ReadEG(b, at) == Read(SignedValue(w), next)
  {
  }

  lemma SignedOf(v: int, w: int)
    requires -TWO_31 < v < TWO_31
    requires w == if CodeNum(v) + 1 < TWO_31 then CodeNum(v) else CodeNum(v) - TWO_32
    ensures SignedValue(w) == v
  {
  }
}
