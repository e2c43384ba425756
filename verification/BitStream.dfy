/** Bit fields and Exp-Golomb codes as `ExpGolomb` reads them, in the 32-bit arithmetic of JavaScript.
    A bit string is a sequence of bits, most significant bit of each byte first. */
module BitStream {
  import opened Bytes

  type Bit = x: int | 0 <= x < 2

  type BitString = seq<Bit>

  function Pow2(n: nat): (p: nat)
    ensures p >= 1
  {
    if n == 0 then 1 else 2 * Pow2(n - 1)
  }

  // ----- JavaScript bit operators -----

  /** Bitwise or of two naturals. */
  function OrNat(a: nat, b: nat): nat {
    if a == 0 then b else if b == 0 then a
    else 2 * OrNat(a / 2, b / 2) + (if a % 2 == 1 || b % 2 == 1 then 1 else 0)
  }

  /** `a | b` */
  function Or(a: int, b: int): int {
    ToInt32(OrNat(ToUint32(a), ToUint32(b)))
  }

  /** `a << n`; the shift count is taken modulo 32. */
  function ShiftLeft(a: int, n: nat): int {
    ToInt32(a * Pow2(if n < 32 then n else n % 32))
  }

  // ----- The reader -----

  /** The number written in the `size` bits from `at` on. */
  function Value(b: BitString, at: nat, size: nat): nat
    requires at + size <= |b|
  {
    if size == 0 then 0 else 2 * Value(b, at, size - 1) + b[at + size - 1]
  }

  /** `getBits` once enough bits are known to be available: byte by byte. */
  function GetBits(b: BitString, size: nat, at: nat): int
    requires 1 <= size && at + size <= |b|
    decreases size
  {
    var bits := 8 - at % 8;
    if bits >= size then Value(b, at, size)
    else Or(ShiftLeft(Value(b, at, bits), size - bits), GetBits(b, size - bits, at + bits))
  }

  datatype Read = Read(value: int, index: nat)

  /** `readBits`: too few bits give 0 and leave the cursor. */
  function ReadBits(b: BitString, size: nat, index: nat): (r: Read)
    requires 1 <= size && index <= |b|
    ensures r.index <= |b|
  {
    if |b| - index < size then Read(0, index) else Read(GetBits(b, size, index), index + size)
  }

  /** `skipBits`: too few bits leave the cursor. */
  function SkipBits(b: BitString, size: nat, index: nat): (next: nat)
    requires index <= |b|
    ensures next <= |b|
  {
    if |b| - index < size then index else index + size
  }

  /** Zero bits from `index` on. */
  function LeadingZeros(b: BitString, index: nat): (n: nat)
    requires index <= |b|
    ensures index + n <= |b|
    decreases |b| - index
  {
    if index == |b| || b[index] != 0 then 0 else 1 + LeadingZeros(b, index + 1)
  }

  /** `skipLZ`: the cursor moves to the first one bit, or not at all when there is none. */
  function SkipLZ(b: BitString, index: nat): (r: Read)
    requires index <= |b|
    ensures r.index <= |b| && r.value >= 0
  {
    var n := LeadingZeros(b, index);
    Read(n, if index + n < |b| then index + n else index)
  }

  function SkipUEG(b: BitString, index: nat): (next: nat)
    requires index <= |b|
    ensures next <= |b|
  {
    var lz := SkipLZ(b, index);
    SkipBits(b, 1 + lz.value, lz.index)
  }

  function ReadUEG(b: BitString, index: nat): (r: Read)
    requires index <= |b|
    ensures r.index <= |b|
  {
    var lz := SkipLZ(b, index);
    var code := ReadBits(b, lz.value + 1, lz.index);
    Read(code.value - 1, code.index)
  }

  /** The value of `readEG` from that of `readUEG`. */
  function SignedValue(value: int): int {
    if ToInt32(value) % 2 != 0 then ToUint32(1 + value) / 2 else -(ToUint32(value) / 2)
  }

  function ReadEG(b: BitString, index: nat): (r: Read)
    requires index <= |b|
    ensures r.index <= |b|
  {
    var u := ReadUEG(b, index);
    Read(SignedValue(u.value), u.index)
  }

  // ----- Bytes as bits -----

  function BitOf(byte: nat, n: nat): Bit {
    byte / Pow2(n) % 2
  }

  function Bits(data: ByteString): (b: BitString)
    ensures |b| == 8 * |data|
  {
    seq(8 * |data|, k requires 0 <= k < 8 * |data| => BitOf(data[k / 8], 7 - k % 8))
  }

  lemma BitsIndex(data: ByteString, k: nat)
    requires k < 8 * |data|
    ensures Bits(data)[k] == BitOf(data[k / 8], 7 - k % 8)
  {
  }

  lemma OneBit(b: BitString, at: nat)
    requires at < |b|
    ensures GetBits(b, 1, at) == b[at]
  {
    assert Value(b, at, 0) == 0;
  }

  lemma MulLarge(d: int, m: nat)
    requires m > 0
    ensures d >= 1 ==> d * m >= m
    ensures d <= -1 ==> d * m + m <= 0
  {
  }

  lemma DivModUnique(x: int, m: nat, q: int, r: int)
    requires m > 0 && 0 <= r < m && x == q * m + r
    ensures x / m == q && x % m == r
  {
    assert (q - x / m) * m == x % m - r;
    MulLarge(q - x / m, m);
  }

  /** One more bit of a quotient. */
  lemma DivStep(x: nat, n: nat)
    ensures x / Pow2(n) == 2 * (x / Pow2(n + 1)) + BitOf(x, n)
  {
    var p := Pow2(n);
    var q, r := x / p, x % p;
    var h, l := q / 2, q % 2;
    assert q * p == (2 * h + l) * p == h * (2 * p) + l * p;
    assert 0 <= l * p <= p;
    DivModUnique(x, 2 * p, h, l * p + r);
  }

  lemma {:induction false} Pow2Add(a: nat, b: nat)
    ensures Pow2(a + b) == Pow2(a) * Pow2(b)
  {
    if a > 0 {
      Pow2Add(a - 1, b);
      assert 2 * (Pow2(a - 1) * Pow2(b)) == Pow2(a) * Pow2(b);
    }
  }

  lemma DivAdd(k: nat, p: nat, y: nat)
    requires p > 0
    ensures (k * p + y) / p == k + y / p
  {
    assert (k + y / p) * p == k * p + y / p * p;
    DivModUnique(k * p + y, p, k + y / p, y % p);
  }

  lemma SameParity(x: nat, q: nat, y: nat, d: nat, p: nat)
    requires p > 0 && x == q * (d * (2 * p)) + y
    ensures x / p % 2 == y / p % 2
  {
    ThreeFactors(q, d, p);
    DivAdd(2 * (q * d), p, y);
  }

  /** Dropping the bits from `m` on does not change the bits below. */
  lemma SameBit(x: nat, m: nat, n: nat)
    requires n < m
    ensures BitOf(x % Pow2(m), n) == BitOf(x, n)
  {
    Pow2Add(m - n - 1, n + 1);
    SameBitOf(x, Pow2(m), Pow2(m - n - 1), Pow2(n));
  }

  lemma SameBitOf(x: nat, m: nat, d: nat, p: nat)
    requires m > 0 && p > 0 && m == d * (2 * p)
    ensures x % m / p % 2 == x / p % 2
  {
    SameParity(x, x / m, x % m, d, p);
  }

  lemma ThreeFactors(q: nat, d: nat, p: nat)
    ensures q * (d * (2 * p)) == (2 * (q * d)) * p
  {
  }

  lemma SameByte(at: nat, n: nat)
    requires at % 8 + n < 8
    ensures (at + n) / 8 == at / 8 && (at + n) % 8 == at % 8 + n
  {
  }

  /** A bit of the chunk is a bit of the data. */
  lemma ChunkBit(data: ByteString, at: nat, n: nat)
    requires at < 8 * |data| && at % 8 + n < 8
    ensures at + n < 8 * |data|
    ensures Bits(data)[at + n] == BitOf(data[at / 8] % Pow2(8 - at % 8), 7 - at % 8 - n)
  {
    SameByte(at, n);
    BitsIndex(data, at + n);
    SameBit(data[at / 8], 8 - at % 8, 7 - at % 8 - n);
  }

  lemma DivSelf(x: nat, m: nat)
    requires m > 0
    ensures x % m / m == 0
  {
    DivModUnique(x % m, m, 0, x % m);
  }

  /** What `data[i] & 0xff >>> offset`, shifted right to `n` bits, is: the number those bits spell. */
  lemma {:induction false} ChunkValue(data: ByteString, at: nat, n: nat)
    requires at < 8 * |data| && n <= 8 - at % 8
    ensures at + n <= 8 * |data|
    ensures Value(Bits(data), at, n) == data[at / 8] % Pow2(8 - at % 8) / Pow2(8 - at % 8 - n)
    decreases n
  {
    if n == 0 {
      DivSelf(data[at / 8], Pow2(8 - at % 8));
    } else {
      ChunkValue(data, at, n - 1);
      ChunkBit(data, at, n - 1);
      DivStep(data[at / 8] % Pow2(8 - at % 8), 8 - at % 8 - n);
    }
  }

  lemma GetBitsStep(b: BitString, size: nat, at: nat)
    requires at + size <= |b| && size > 8 - at % 8
    ensures var bits := 8 - at % 8;
            GetBits(b, size, at) == Or(ShiftLeft(Value(b, at, bits), size - bits), GetBits(b, size - bits, at + bits))
  {
  }

  lemma GetBitsJoin(b: BitString, size: nat, at: nat, byte: nat, rest: int)
    requires at + size <= |b| && size > 8 - at % 8 && byte == Value(b, at, 8 - at % 8)
    requires rest == GetBits(b, size - (8 - at % 8), at + (8 - at % 8))
    ensures Or(ShiftLeft(byte, size - (8 - at % 8)), rest) == GetBits(b, size, at)
  {
    GetBitsStep(b, size, at);
  }

  /** All bits up to the next byte boundary. */
  lemma WholeChunk(data: ByteString, at: nat)
    requires at < 8 * |data|
    ensures at + 8 - at % 8 <= 8 * |data|
    ensures Value(Bits(data), at, 8 - at % 8) == data[at / 8] % Pow2(8 - at % 8)
  {
    ChunkValue(data, at, 8 - at % 8);
    assert Pow2(0) == 1;
  }

  lemma PartChunk(data: ByteString, at: nat, size: nat)
    requires at < 8 * |data| && 1 <= size <= 8 - at % 8
    ensures at + size <= 8 * |data|
    ensures GetBits(Bits(data), size, at) == data[at / 8] % Pow2(8 - at % 8) / Pow2(8 - at % 8 - size)
  {
    ChunkValue(data, at, size);
  }
}
