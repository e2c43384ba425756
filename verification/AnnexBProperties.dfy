/** What `Extract` means: cutting a stream anywhere does not matter, the split is the unique
    alternation of segments and start codes, and it inverts the Annex B encoder. */
module AnnexBProperties {
  import opened Bytes
  import opened AnnexB

  // ----- Streaming -----

  lemma {:induction false} FirstCutPrefix(a: ByteString, b: ByteString, lo: nat, from: nat)
    requires lo <= from <= |a|
    requires FirstCut(a, lo, from) < |a|
    ensures FirstCut(a + b, lo, from) == FirstCut(a, lo, from)
    decreases |a| - from
  {
    assert from < |a|;
    assert CodeEndsAt(a, lo, from) == CodeEndsAt(a + b, lo, from);
    if !CodeEndsAt(a, lo, from) { FirstCutPrefix(a, b, lo, from + 1); }
  }

  lemma {:induction false} FirstCutShift(p: ByteString, s: ByteString, lo: nat, from: nat)
    requires lo <= from <= |s|
    ensures FirstCut(p + s, |p| + lo, |p| + from) == |p| + FirstCut(s, lo, from)
    decreases |s| - from
  {
    if from < |s| {
      assert CodeEndsAt(s, lo, from) == CodeEndsAt(p + s, |p| + lo, |p| + from);
      if !CodeEndsAt(s, lo, from) { FirstCutShift(p, s, lo, from + 1); }
    }
  }

  lemma SegmentShift(p: ByteString, s: ByteString, lo: nat, i: nat)
    requires lo + 3 <= i <= |s|
    ensures SegmentEnd(p + s, |p| + lo, |p| + i) == |p| + SegmentEnd(s, lo, i)
    ensures (p + s)[|p| + lo..|p| + SegmentEnd(s, lo, i)] == s[lo..SegmentEnd(s, lo, i)]
  {
  }

  /** Extraction from a position does not look at the bytes before it. */
  lemma {:induction false} ExtractShift(p: ByteString, s: ByteString, lo: nat)
    requires lo <= |s|
    ensures ExtractFrom(p + s, |p| + lo) == ExtractFrom(s, lo)
    decreases |s| - lo
  {
    FirstCutShift(p, s, lo, lo);
    var i := FirstCut(s, lo, lo);
    if i == |s| {
      assert (p + s)[|p| + lo..] == s[lo..];
    } else {
      ExtractShift(p, s, i);
      SegmentShift(p, s, lo, i);
    }
  }

  lemma {:induction false} ExtractAppendFrom(a: ByteString, b: ByteString, lo: nat)
    requires lo <= |a|
    ensures ExtractFrom(a + b, lo) == Prepend(ExtractFrom(a, lo).units, Extract(ExtractFrom(a, lo).left + b))
    decreases |a| - lo
  {
    var i := FirstCut(a, lo, lo);
    if i == |a| {
      assert a + b == a[..lo] + (a[lo..] + b);
      ExtractShift(a[..lo], a[lo..] + b, 0);
    } else {
      FirstCutPrefix(a, b, lo, lo);
      var e := SegmentEnd(a, lo, i);
      assert SegmentEnd(a + b, lo, i) == e;
      assert (a + b)[lo..e] == a[lo..e];
      ExtractAppendFrom(a, b, i);
      var rest := ExtractFrom(a, i);
      PrependTwice(IfNonEmpty(a[lo..e]), rest.units, Extract(rest.left + b));
    }
  }

  /** Scanning `a`, then what it left over followed by `b`, finds what one scan of `a + b` finds. */
  lemma ExtractAppend(a: ByteString, b: ByteString)
    ensures Extract(a + b) == Prepend(Extract(a).units, Extract(Extract(a).left + b))
  {
    ExtractAppendFrom(a, b, 0);
  }

  /** The left-over part holds no complete unit. */
  lemma ExtractLeft(b: ByteString)
    ensures Extract(Extract(b).left) == Split([], Extract(b).left)
  {
    ExtractAppend(b, []);
    var s := Extract(b);
    assert b + [] == b && s.left + [] == s.left;
    assert |s.units| == |s.units| + |Extract(s.left).units|;
  }

  // ----- The split, declared -----

  predicate NoCode(s: ByteString) {
    forall j :: 0 <= j <= |s| ==> !CodeEndsAt(s, 0, j)
  }

  predicate IsCode(c: ByteString) {
    c == [0, 0, 1] || c == [0, 0, 0, 1]
  }

  datatype Piece = Piece(segment: ByteString, code: ByteString)

  /** A segment holds no start code, and a zero before the prefix 00 00 01 is part of the code. */
  predicate GoodPiece(p: Piece) {
    && IsCode(p.code) && NoCode(p.segment)
    && (|p.code| == 3 && p.segment != [] ==> p.segment[|p.segment| - 1] != 0)
  }

  /** Segments and start codes in turn, then a part in which no start code is followed by a byte. */
  predicate WellSplit(pieces: seq<Piece>, left: ByteString) {
    if pieces == [] then forall j :: 0 <= j < |left| ==> !CodeEndsAt(left, 0, j)
    else GoodPiece(pieces[0]) && left != [] && WellSplit(pieces[1..], left)
  }

  function Join(pieces: seq<Piece>, left: ByteString): ByteString {
    if pieces == [] then left else pieces[0].segment + pieces[0].code + Join(pieces[1..], left)
  }

  function NonEmptySegments(pieces: seq<Piece>): seq<ByteString> {
    if pieces == [] then [] else IfNonEmpty(pieces[0].segment) + NonEmptySegments(pieces[1..])
  }

  lemma FirstCutIs(b: ByteString, i: nat)
    requires i < |b| && CodeEndsAt(b, 0, i)
    requires forall j :: 0 <= j < i ==> !CodeEndsAt(b, 0, j)
    ensures FirstCut(b, 0, 0) == i
  {
    var k := FirstCut(b, 0, 0);
    FirstCutLeast(b, 0, 0, if k < i then k else i);
  }

  lemma FirstPiece(p: Piece, rest: ByteString)
    requires GoodPiece(p) && rest != []
    ensures var b, n := p.segment + p.code + rest, |p.segment|;
            FirstCut(b, 0, 0) == n + |p.code| && SegmentEnd(b, 0, n + |p.code|) == n
  {
    var b, n, i := p.segment + p.code + rest, |p.segment|, |p.segment| + |p.code|;
    assert b[i - 1] == 1 && b[i - 2] == 0 && b[i - 3] == 0;
    forall j | 0 <= j < i
      ensures !CodeEndsAt(b, 0, j)
    {
      if j <= n {
        assert !CodeEndsAt(p.segment, 0, j);
      } else {
        assert b[j - 1] == p.code[j - 1 - n] == 0;
      }
    }
    FirstCutIs(b, i);
  }

  lemma ExtractPiece(p: Piece, rest: ByteString)
    requires GoodPiece(p) && rest != []
    ensures Extract(p.segment + p.code + rest) == Prepend(IfNonEmpty(p.segment), Extract(rest))
  {
    FirstPiece(p, rest);
    ExtractShift(p.segment + p.code, rest, 0);
    assert (p.segment + p.code + rest)[0..|p.segment|] == p.segment;
  }

  /** Any alternation of segments and start codes is the one `Extract` finds. */
  lemma {:induction false} SplitUnique(pieces: seq<Piece>, left: ByteString)
    requires WellSplit(pieces, left)
    ensures Extract(Join(pieces, left)) == Split(NonEmptySegments(pieces), left)
    ensures left != [] ==> Join(pieces, left) != []
    decreases |pieces|
  {
    if pieces == [] {
      if FirstCut(left, 0, 0) < |left| { FirstCutLeast(left, 0, 0, FirstCut(left, 0, 0)); }
    } else {
      SplitUnique(pieces[1..], left);
      ExtractPiece(pieces[0], Join(pieces[1..], left));
    }
  }

  function Pieces(b: ByteString, lo: nat): seq<Piece>
    requires lo <= |b|
    decreases |b| - lo
  {
    var i := FirstCut(b, lo, lo);
    if i == |b| then [] else
      var e := SegmentEnd(b, lo, i);
      [Piece(b[lo..e], b[e..i])] + Pieces(b, i)
  }

  lemma PieceIsGood(b: ByteString, lo: nat, i: nat)
    requires lo <= |b| && i == FirstCut(b, lo, lo) < |b|
    ensures var e := SegmentEnd(b, lo, i); GoodPiece(Piece(b[lo..e], b[e..i]))
  {
    var e := SegmentEnd(b, lo, i);
    FirstCutLeast(b, lo, lo, i);
    assert b[e..i] == if i - e == 3 then [0, 0, 1] else [0, 0, 0, 1];
    forall j | 0 <= j <= e - lo
      ensures !CodeEndsAt(b[lo..e], 0, j)
    {
      FirstCutLeast(b, lo, lo, lo + j);
    }
  }

  lemma LastPart(b: ByteString, lo: nat)
    requires lo <= |b| == FirstCut(b, lo, lo)
    ensures forall j :: 0 <= j < |b| - lo ==> !CodeEndsAt(b[lo..], 0, j)
  {
    forall j | 0 <= j < |b| - lo
      ensures !CodeEndsAt(b[lo..], 0, j)
    {
      FirstCutLeast(b, lo, lo, lo + j);
    }
  }

  lemma {:induction false} SplitExistsFrom(b: ByteString, lo: nat)
    requires lo <= |b|
    ensures WellSplit(Pieces(b, lo), ExtractFrom(b, lo).left)
    ensures Join(Pieces(b, lo), ExtractFrom(b, lo).left) == b[lo..]
    ensures NonEmptySegments(Pieces(b, lo)) == ExtractFrom(b, lo).units
    ensures lo < |b| ==> ExtractFrom(b, lo).left != []
    decreases |b| - lo
  {
    var i := FirstCut(b, lo, lo);
    if i == |b| {
      LastPart(b, lo);
    } else {
      SplitExistsFrom(b, i);
      PieceIsGood(b, lo, i);
      var e := SegmentEnd(b, lo, i);
      assert Pieces(b, lo)[1..] == Pieces(b, i);
      assert b[lo..] == b[lo..e] + b[e..i] + b[i..];
    }
  }

  /** Every buffer is such an alternation, and its non-empty segments are the units found. */
  lemma SplitExists(b: ByteString)
    ensures WellSplit(Pieces(b, 0), Extract(b).left)
    ensures Join(Pieces(b, 0), Extract(b).left) == b
    ensures NonEmptySegments(Pieces(b, 0)) == Extract(b).units
  {
    SplitExistsFrom(b, 0);
    assert b[0..] == b;
  }
}
