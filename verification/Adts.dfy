/** `AACParser.extractAAC` and the ADTS frames of ISO/IEC 13818-7, section 6.2. */
module Adts {
  import opened Bytes

  /** A missing byte counts as 0. */
  function At(b: ByteString, i: nat): Byte {
    if i < |b| then b[i] else 0
  }

  predicate IsAacPattern(b: ByteString) {
    At(b, 0) == 255 && At(b, 1) / 16 == 15 && At(b, 1) / 2 % 4 == 0
  }

  /** Seven bytes, or nine with a checksum. */
  function HeaderLength(b: ByteString): nat {
    if At(b, 1) % 2 == 1 then 7 else 9
  }

  function FrameLength(b: ByteString): nat {
    At(b, 3) % 4 * 2048 + At(b, 4) * 8 + At(b, 5) / 32
  }

  /** `b.subarray(lo, hi)` */
  function SubArray(b: ByteString, lo: nat, hi: nat): ByteString {
    var end := if hi < |b| then hi else |b|;
    if lo < end then b[lo..end] else []
  }

  /** `b.slice(lo)` */
  function Drop(b: ByteString, lo: nat): ByteString {
    if lo < |b| then b[lo..] else []
  }

  /** `Stuck`: a frame length of 0, on which the loop of the source repeats for ever. */
  datatype Extracted = Invalid | Frames(payloads: seq<ByteString>) | Stuck

  function ExtractFrames(b: ByteString, headerLength: nat): Extracted
    decreases |b|
  {
    if b == [] then Frames([])
    else if FrameLength(b) == 0 then Stuck
    else Prepend(SubArray(b, headerLength, FrameLength(b)), ExtractFrames(Drop(b, FrameLength(b)), headerLength))
  }

  function Prepend(payload: ByteString, rest: Extracted): Extracted {
    if rest.Frames? then Frames([payload] + rest.payloads) else rest
  }

  function ExtractAac(b: ByteString): Extracted {
    if !IsAacPattern(b) then Invalid else ExtractFrames(b, HeaderLength(b))
  }

  /** The frames found so far, then those of the rest. */
  function After(found: seq<ByteString>, rest: Extracted): Extracted {
    if rest.Frames? then Frames(found + rest.payloads) else rest
  }

  lemma AfterPrepend(found: seq<ByteString>, payload: ByteString, rest: Extracted)
    ensures After(found, Prepend(payload, rest)) == After(found + [payload], rest)
  {
    if rest.Frames? { assert found + ([payload] + rest.payloads) == (found + [payload]) + rest.payloads; }
  }

  /** The scanner as the source runs it; `header` is the first header, kept in `aacHeader`. */
  method ExtractAAC(data: ByteString, aacHeader: Option<ByteString>)
    returns (result: Extracted, header: Option<ByteString>)
    ensures result == ExtractAac(data)
    ensures header ==
            if aacHeader.None? && !result.Invalid? then Some(SubArray(data, 0, HeaderLength(data))) else aacHeader
  {
    header := aacHeader;
    if !IsAacPattern(data) {
      return Invalid, header;
    }
    var headerLength := HeaderLength(data);
    if header.None? {
      header := Some(SubArray(data, 0, headerLength));
    }
    var buffer, i, payloads := data, 0, [];
    while i < |data|
      invariant i <= |data| ==> |buffer| == |data| - i
      invariant i >= |data| ==> buffer == []
      invariant ExtractAac(data) == After(payloads, ExtractFrames(buffer, headerLength))
      decreases |data| - i
    {
      var frameLength := FrameLength(buffer);
      if frameLength == 0 {
        return Stuck, header;
      }
      AfterPrepend(payloads, SubArray(buffer, headerLength, frameLength),
                   ExtractFrames(Drop(buffer, frameLength), headerLength));
      payloads := payloads + [SubArray(buffer, headerLength, frameLength)];
      buffer := Drop(buffer, frameLength);
      i := i + frameLength;
    }
    assert payloads + [] == payloads;
    result := Frames(payloads);
  }

  /** The scan is refused exactly when the data does not start with a sync word of twelve one bits, either MPEG
      version, layer 0, and either protection bit. */
  lemma InvalidExactly(b: ByteString)
    ensures ExtractAac(b).Invalid? <==> !(|b| >= 2 && b[0] == 255 && b[1] in {240, 241, 248, 249})
  {
    NeverInvalid(b, HeaderLength(b));
    if |b| >= 2 { assert b[1] == 16 * (b[1] / 16) + b[1] % 16; }
  }

  lemma {:induction false} NeverInvalid(b: ByteString, headerLength: nat)
    ensures !ExtractFrames(b, headerLength).Invalid?
    decreases |b|
  {
    if b != [] && FrameLength(b) > 0 { NeverInvalid(Drop(b, FrameLength(b)), headerLength); }
  }

  // ----- Round trip -----

  type Bits2 = x: int | 0 <= x < 4
  type Bits6 = x: int | 0 <= x < 64
  type Bits11 = x: int | 0 <= x < 2048

  datatype Crc = Absent | Crc(high: Byte, low: Byte)

  /** A frame: the MPEG version, the fields the scanner does not look at, and the payload. */
  datatype Frame = Frame(mpeg2: bool, config: Byte, flags: Bits6, fullness: Bits11, blocks: Bits2, crc: Crc,
                         payload: ByteString)
  {
    function HeaderSize(): nat {
      if crc.Absent? then 7 else 9
    }

    function Size(): nat {
      HeaderSize() + |payload|
    }
  }

  /** The length field has 13 bits. */
  predicate AllFit(fs: seq<Frame>) {
    fs == [] || (fs[0].Size() < 8192 && AllFit(fs[1..]))
  }

  function Header(f: Frame): (h: ByteString)
    requires f.Size() < 8192
    ensures |h| == f.HeaderSize()
  {
    var n := f.Size();
    [255, 240 + (if f.mpeg2 then 8 else 0) + (if f.crc.Absent? then 1 else 0), f.config,
     4 * f.flags + n / 2048, n / 8 % 256, n % 8 * 32 + f.fullness / 64, f.fullness % 64 * 4 + f.blocks]
    + if f.crc.Absent? then [] else [f.crc.high, f.crc.low]
  }

  function EncodeAll(fs: seq<Frame>): ByteString
    requires AllFit(fs)
  {
    if fs == [] then [] else Header(fs[0]) + fs[0].payload + EncodeAll(fs[1..])
  }

  function Payloads(fs: seq<Frame>): (ps: seq<ByteString>)
    ensures |ps| == |fs|
  {
    if fs == [] then [] else [fs[0].payload] + Payloads(fs[1..])
  }

  lemma ReadsHeader(f: Frame, rest: ByteString)
    requires f.Size() < 8192
    ensures var b := Header(f) + f.payload + rest;
            IsAacPattern(b) && HeaderLength(b) == f.HeaderSize() && FrameLength(b) == f.Size()
  {
    var b, n := Header(f) + f.payload + rest, f.Size();
    var h := Header(f);
    assert b[0] == h[0] && b[1] == h[1] && b[3] == h[3] && b[4] == h[4] && b[5] == h[5];
    Length13(n);
  }

  lemma Length13(n: nat)
    requires n < 8192
    ensures n / 2048 * 2048 + n / 8 % 256 * 8 + n % 8 == n && n / 2048 < 4
  {
    assert n / 8 / 256 == n / 2048;
  }

  /** The scanner takes the header length of the first frame for all. A frame with another one comes out
      right only if both have nothing left to misread: it has no payload and its header is the shorter. */
  predicate Aligned(f: Frame, headerLength: nat) {
    f.HeaderSize() == headerLength || (f.payload == [] && f.HeaderSize() < headerLength)
  }

  predicate AllAligned(fs: seq<Frame>, headerLength: nat) {
    fs == [] || (Aligned(fs[0], headerLength) && AllAligned(fs[1..], headerLength))
  }

  lemma TakesPayload(f: Frame, rest: ByteString, headerLength: nat)
    requires f.Size() < 8192 && (headerLength == 7 || headerLength == 9)
    ensures var b := Header(f) + f.payload + rest;
            && (SubArray(b, headerLength, f.Size()) == f.payload <==> Aligned(f, headerLength))
            && Drop(b, f.Size()) == rest
  {
    var h := Header(f);
    var b := h + f.payload + rest;
    var taken := SubArray(b, headerLength, f.Size());
    assert Drop(b, f.Size()) == rest;
    if f.HeaderSize() == headerLength {
      assert taken == f.payload;
    } else {
      assert |taken| == if headerLength < f.Size() then f.Size() - headerLength else 0;
    }
  }

  lemma {:induction false} FramesRoundTrip(fs: seq<Frame>, headerLength: nat)
    requires AllFit(fs) && (headerLength == 7 || headerLength == 9)
    ensures var r := ExtractFrames(EncodeAll(fs), headerLength);
            r.Frames? && |r.payloads| == |fs| && (r.payloads == Payloads(fs) <==> AllAligned(fs, headerLength))
    decreases |fs|
  {
    if fs != [] {
      var rest := EncodeAll(fs[1..]);
      FramesRoundTrip(fs[1..], headerLength);
      ReadsHeader(fs[0], rest);
      TakesPayload(fs[0], rest, headerLength);
      var r := ExtractFrames(rest, headerLength);
      SameHead(SubArray(EncodeAll(fs), headerLength, fs[0].Size()), r.payloads, fs[0].payload, Payloads(fs[1..]));
    }
  }

  lemma SameHead(x: ByteString, xs: seq<ByteString>, y: ByteString, ys: seq<ByteString>)
    ensures [x] + xs == [y] + ys <==> x == y && xs == ys
  {
    if [x] + xs == [y] + ys {
      assert ([x] + xs)[0] == x && ([y] + ys)[0] == y;
      assert ([x] + xs)[1..] == xs && ([y] + ys)[1..] == ys;
    }
  }

  /** Extracting from any non-empty list of ADTS frames terminates with as many frames as were written,
      and gives back the payloads, in order, exactly when the header lengths agree. */
  lemma AdtsRoundTrip(fs: seq<Frame>)
    requires fs != [] && AllFit(fs)
    ensures var r := ExtractAac(EncodeAll(fs));
            r.Frames? && |r.payloads| == |fs| && (r.payloads == Payloads(fs) <==> AllAligned(fs, fs[0].HeaderSize()))
  {
    ReadsHeader(fs[0], EncodeAll(fs[1..]));
    FramesRoundTrip(fs, fs[0].HeaderSize());
  }

  lemma TailBehind(a: ByteString, b: ByteString, c: ByteString)
    ensures a + b + c == a + (b + c)
  {
  }

  lemma {:induction false} FramesThenTail(fs: seq<Frame>, tail: ByteString, headerLength: nat)
    requires AllFit(fs)
    ensures ExtractFrames(EncodeAll(fs) + tail, headerLength).Stuck? <==> ExtractFrames(tail, headerLength).Stuck?
    decreases |fs|
  {
    if fs == [] {
      assert EncodeAll(fs) + tail == tail;
    } else {
      var rest := EncodeAll(fs[1..]) + tail;
      FramesThenTail(fs[1..], tail, headerLength);
      TailBehind(Header(fs[0]) + fs[0].payload, EncodeAll(fs[1..]), tail);
      OneFrameTaken(fs[0], rest, headerLength);
    }
  }

  lemma OneFrameTaken(f: Frame, rest: ByteString, headerLength: nat)
    requires f.Size() < 8192
    ensures ExtractFrames(Header(f) + f.payload + rest, headerLength).Stuck? <==>
            ExtractFrames(rest, headerLength).Stuck?
  {
    ReadsHeader(f, rest);
    TakesPayload(f, rest, 7);
  }

  /** The length field of a frame that is cut off after `k` bytes: the bytes that are missing count as 0. */
  lemma CutLength(f: Frame, k: nat)
    requires f.Size() < 8192 && 0 < k < f.Size()
    ensures var n := f.Size();
            FrameLength((Header(f) + f.payload)[..k]) ==
            if k <= 3 then 0 else if k == 4 then n / 2048 * 2048 else if k == 5 then n / 8 * 8 else n
  {
    var h, b := Header(f), (Header(f) + f.payload)[..k];
    Length13(f.Size());
    if k > 3 { assert b[3] == h[3]; }
    if k > 4 { assert b[4] == h[4]; }
    if k > 5 { assert b[5] == h[5]; }
  }

  /** A last piece is at most one more turn of the loop, unless its length reads as 0 or ends inside it. */
  lemma CutFrameIsStuck(f: Frame, k: nat, headerLength: nat)
    requires f.Size() < 8192 && 0 < k < f.Size()
    ensures ExtractFrames((Header(f) + f.payload)[..k], headerLength).Stuck? <==>
            k <= 3 || (k == 4 && f.Size() < 2048) || (k == 5 && f.Size() < 8)
  {
    CutLength(f, k);
    var b := (Header(f) + f.payload)[..k];
    var n := f.Size();
    if k == 4 && n >= 2048 {
      assert n / 2048 * 2048 >= k;
    } else if k == 5 && n >= 8 {
      assert n / 8 * 8 >= k;
    }
    assert FrameLength(b) > 0 ==> Drop(b, FrameLength(b)) == [];
  }

  /** When a stream that ends inside a frame makes the scanner loop for ever: exactly when the part of the
      length field that has arrived is 0. */
  lemma CutHeaderIsStuck(fs: seq<Frame>, f: Frame, k: nat)
    requires fs != [] && AllFit(fs) && f.Size() < 8192 && 0 < k < f.Size()
    ensures ExtractAac(EncodeAll(fs) + (Header(f) + f.payload)[..k]).Stuck? <==>
            k <= 3 || (k == 4 && f.Size() < 2048) || (k == 5 && f.Size() < 8)
  {
    var tail := (Header(f) + f.payload)[..k];
    TailBehind(Header(fs[0]) + fs[0].payload, EncodeAll(fs[1..]), tail);
    ReadsHeader(fs[0], EncodeAll(fs[1..]) + tail);
    FramesThenTail(fs, tail, fs[0].HeaderSize());
    CutFrameIsStuck(f, k, fs[0].HeaderSize());
  }
}
