/** The byte stream format of ITU-T H.264, section B.1.1, and how far the scanner inverts it. */
module AnnexBEncoder {
  import opened Bytes
  import opened AnnexB
  import opened AnnexBProperties

  /** A NAL unit and the number of zero bytes written before its prefix 00 00 01: the optional
      leading_zero_8bits and zero_byte, and the trailing_zero_8bits of the unit before it. */
  datatype StreamUnit = StreamUnit(zeros: nat, nal: ByteString)

  /** Section 7.4.1: a NAL unit is not empty, does not end in 00 and holds no 00 00 01. */
  predicate GoodNal(n: ByteString) {
    n != [] && n[|n| - 1] != 0 && NoCode(n)
  }

  predicate GoodStream(us: seq<StreamUnit>) {
    us == [] || (GoodNal(us[0].nal) && GoodStream(us[1..]))
  }

  function Encode(us: seq<StreamUnit>): ByteString {
    if us == [] then [] else Zeros(us[0].zeros) + [0, 0, 1] + us[0].nal + Encode(us[1..])
  }

  function NalsButLast(us: seq<StreamUnit>): (ns: seq<ByteString>)
    requires us != []
    ensures |ns| == |us| - 1
  {
    if |us| == 1 then [] else [us[0].nal] + NalsButLast(us[1..])
  }

  function LastNal(us: seq<StreamUnit>): ByteString
    requires us != []
  {
    if |us| == 1 then us[0].nal else LastNal(us[1..])
  }

  /** Every start code has three or four bytes. */
  predicate Unpadded(us: seq<StreamUnit>) {
    us == [] || (us[0].zeros <= 1 && Unpadded(us[1..]))
  }

  /** All zeros but one before a start code end the segment before it. */
  function PieceBefore(prev: ByteString, zeros: nat): Piece {
    if zeros == 0 then Piece(prev, [0, 0, 1]) else Piece(prev + Zeros(zeros - 1), [0, 0, 0, 1])
  }

  lemma PieceBeforeIsGood(prev: ByteString, zeros: nat)
    requires prev == [] || GoodNal(prev)
    ensures GoodPiece(PieceBefore(prev, zeros))
    ensures PieceBefore(prev, zeros).segment + PieceBefore(prev, zeros).code == prev + Zeros(zeros) + [0, 0, 1]
    ensures PieceBefore(prev, zeros).segment == prev <==> zeros <= 1
  {
    var s := PieceBefore(prev, zeros).segment;
    forall j | 0 <= j <= |s|
      ensures !CodeEndsAt(s, 0, j)
    {
      if j <= |prev| { assert !CodeEndsAt(prev, 0, j); }
    }
  }

  lemma {:induction false} RoundTripFrom(prev: ByteString, us: seq<StreamUnit>)
    requires GoodStream(us) && us != []
    requires prev == [] || GoodNal(prev)
    ensures Extract(prev + Encode(us)).left == LastNal(us)
    ensures Extract(prev + Encode(us)).units == IfNonEmpty(prev) + NalsButLast(us) <==> Unpadded(us)
    ensures |Extract(prev + Encode(us)).units| == |us| || prev == []
    decreases |us|
  {
    var u, more := us[0], us[1..];
    var rest := u.nal + Encode(more);
    assert prev + Encode(us) == prev + Zeros(u.zeros) + [0, 0, 1] + rest;
    ExtractPadded(prev, u.zeros, rest);
    if more == [] {
      assert rest == u.nal;
      SplitUnique([], u.nal);
    } else {
      RoundTripFrom(u.nal, more);
    }
    var tail := if more == [] then [] else [u.nal] + NalsButLast(more);
    SameList(PieceBefore(prev, u.zeros).segment, prev, Extract(rest).units, tail);
  }

  lemma ExtractPadded(prev: ByteString, zeros: nat, rest: ByteString)
    requires rest != [] && (prev == [] || GoodNal(prev))
    ensures var segment := PieceBefore(prev, zeros).segment;
            && Extract(prev + Zeros(zeros) + [0, 0, 1] + rest) == Prepend(IfNonEmpty(segment), Extract(rest))
            && (segment == prev <==> zeros <= 1)
  {
    PieceBeforeIsGood(prev, zeros);
    ExtractPiece(PieceBefore(prev, zeros), rest);
  }

  lemma SameList(s: ByteString, prev: ByteString, a: seq<ByteString>, b: seq<ByteString>)
    requires |a| == |b|
    ensures IfNonEmpty(s) + a == IfNonEmpty(prev) + b <==> s == prev && a == b
  {
    var l, r := IfNonEmpty(s) + a, IfNonEmpty(prev) + b;
    if l == r {
      assert |IfNonEmpty(s)| == |IfNonEmpty(prev)|;
      assert a == l[|IfNonEmpty(s)|..] == r[|IfNonEmpty(prev)|..] == b;
      if s != [] { assert l[0] == s && r[0] == prev; }
    }
  }

  /** The scanner gives back the units that were written, the last one as left-over, if and only
      if no start code is preceded by more than one zero byte. */
  lemma EncodeRoundTrip(us: seq<StreamUnit>)
    requires GoodStream(us) && us != []
    ensures Extract(Encode(us)).left == LastNal(us)
    ensures Extract(Encode(us)).units == NalsButLast(us) <==> Unpadded(us)
  {
    RoundTripFrom([], us);
    assert [] + Encode(us) == Encode(us);
    assert IfNonEmpty([]) + NalsButLast(us) == NalsButLast(us);
  }

  /** A leading_zero_8bits comes out as a unit that was never written. */
  lemma LeadingZeroIsReported()
    ensures Extract([0, 0, 0, 0, 1, 9]) == Split([[0]], [9])
  {
    assert NoCode([9]);
    var p := PieceBefore([], 2);
    PieceBeforeIsGood([], 2);
    ExtractPiece(p, [9]);
    SplitUnique([], [9]);
    assert p.segment == [0];
    assert [0, 0, 0, 0, 1, 9] == p.segment + p.code + [9];
  }
}
