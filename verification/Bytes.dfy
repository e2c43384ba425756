/** Byte strings, the integer conversions of JavaScript, and big-endian 32-bit fields. */
module Bytes {

  type Byte = x: int | 0 <= x < 256

  type ByteString = seq<Byte>

  const TWO_31 := 0x8000_0000
  const TWO_32 := 0x1_0000_0000

  datatype Option<+T> = None | Some(value: T)

  /** The conversion a JavaScript shift applies to its left operand when it is `>>>`. */
  function ToUint32(x: int): (r: nat)
    ensures r < TWO_32
  {
    if 0 <= x < TWO_32 then x else x % TWO_32
  }

  /** The conversion every other JavaScript bit operator applies to its operands. */
  function ToInt32(x: int): (r: int)
    ensures -TWO_31 <= r < TWO_31
  {
    if -TWO_31 <= x < TWO_31 then x else
      var u := ToUint32(x);
      if u < TWO_31 then u else u - TWO_32
  }

  /** Division that rounds toward zero, as JavaScript's `a / b | 0` does below 2^31. */
  function TruncDiv(a: int, b: int): int
    requires b > 0
  {
    if a >= 0 then a / b else -((-a) / b)
  }

  /** The remainder of `TruncDiv`, which has the sign of the dividend (JavaScript's `%`). */
  function TruncMod(a: int, b: int): int
    requires b > 0
  {
    a - b * TruncDiv(a, b)
  }

  /** The four bytes `x >> 24, x >> 16 & 0xFF, x >> 8 & 0xFF, x & 0xFF` stored in a Uint8Array. */
  function U32(x: int): (b: ByteString)
    ensures |b| == 4
  {
    var u := ToUint32(x);
    [u / 0x100_0000, u / 0x1_0000 % 256, u / 256 % 256, u % 256]
  }

  function ReadU32(b: ByteString, at: nat): (r: nat)
    requires at + 4 <= |b|
    ensures r < TWO_32
  {
    var b0: int, b1: int, b2: int := b[at], b[at + 1], b[at + 2];
    ((b0 * 256 + b1) * 256 + b2) * 256 + b[at + 3]
  }

  lemma U32RoundTrip(x: int, pre: ByteString, post: ByteString)
    ensures ReadU32(pre + U32(x) + post, |pre|) == ToUint32(x)
  {
    var u := ToUint32(x);
    var b := pre + U32(x) + post;
    assert b[|pre|] == u / 0x100_0000 && b[|pre| + 1] == u / 0x1_0000 % 256;
    assert b[|pre| + 2] == u / 256 % 256 && b[|pre| + 3] == u % 256;
    assert u / 0x1_0000 == u / 256 / 256;
    assert u / 0x100_0000 == u / 256 / 256 / 256;
  }

  function Zeros(n: nat): (z: ByteString)
    ensures |z| == n
    ensures forall k :: 0 <= k < n ==> z[k] == 0
  {
    seq(n, i => 0)
  }

  function Flatten<T>(ss: seq<seq<T>>): seq<T>
  {
    if ss == [] then [] else ss[0] + Flatten(ss[1..])
  }

  lemma {:induction false} FlattenAppend<T>(a: seq<seq<T>>, b: seq<seq<T>>)
    ensures Flatten(a + b) == Flatten(a) + Flatten(b)
  {
    if a == [] {
      assert a + b == b;
    } else {
      assert (a + b)[1..] == a[1..] + b;
      FlattenAppend(a[1..], b);
    }
  }

  lemma FlattenOne<T>(s: seq<T>)
    ensures Flatten([s]) == s
  {
    assert [s][1..] == [];
    assert Flatten<T>([]) == [];
  }

  function Sum(s: seq<int>): int
  {
    if s == [] then 0 else s[0] + Sum(s[1..])
  }

  lemma {:induction false} SumAppend(a: seq<int>, b: seq<int>)
    ensures Sum(a + b) == Sum(a) + Sum(b)
  {
    if a == [] {
      assert a + b == b;
    } else {
      assert (a + b)[1..] == a[1..] + b;
      SumAppend(a[1..], b);
    }
  }
}
