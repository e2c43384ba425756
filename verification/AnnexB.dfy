/** The byte-stream scanner `H264Parser.extractNALu` and the splitting it computes. */
module AnnexB {
  import opened Bytes

  datatype Split = Split(units: seq<ByteString>, left: ByteString)

  /** The bytes 00 00 01 lie in `b[lo..]` and end just before position `j`. */
  predicate CodeEndsAt(b: ByteString, lo: nat, j: nat)
    requires j <= |b|
  {
    j >= lo + 3 && b[j - 3] == 0 && b[j - 2] == 0 && b[j - 1] == 1
  }

  /** The first position, at or after `from`, where a start code ends with a byte still to come. */
  function FirstCut(b: ByteString, lo: nat, from: nat): (i: nat)
    requires lo <= from <= |b|
    ensures from <= i <= |b|
    ensures i < |b| ==> lo + 3 <= i
    decreases |b| - from
  {
    if from == |b| || CodeEndsAt(b, lo, from) then from else FirstCut(b, lo, from + 1)
  }

  lemma {:induction false} FirstCutLeast(b: ByteString, lo: nat, from: nat, j: nat)
    requires lo <= from <= |b| && from <= j <= FirstCut(b, lo, from) && j < |b|
    ensures CodeEndsAt(b, lo, j) <==> j == FirstCut(b, lo, from)
    decreases |b| - from
  {
    if from < j { FirstCutLeast(b, lo, from + 1, j); }
  }

  /** Where the segment that the start code ending at `i` closes ends: a zero just before the
      three-byte prefix belongs to the start code. */
  function SegmentEnd(b: ByteString, lo: nat, i: nat): (e: nat)
    requires lo + 3 <= i <= |b|
    ensures lo <= e < i
  {
    if i >= lo + 4 && b[i - 4] == 0 then i - 4 else i - 3
  }

  function IfNonEmpty(s: ByteString): seq<ByteString> {
    if s == [] then [] else [s]
  }

  /** The units `found` followed by those of `rest`. */
  function Prepend(found: seq<ByteString>, rest: Split): Split {
    Split(found + rest.units, rest.left)
  }

  lemma PrependTwice(a: seq<ByteString>, b: seq<ByteString>, rest: Split)
    ensures Prepend(a, Prepend(b, rest)) == Prepend(a + b, rest)
  {
    assert a + (b + rest.units) == (a + b) + rest.units;
  }

  function ExtractFrom(b: ByteString, lo: nat): Split
    requires lo <= |b|
    decreases |b| - lo
  {
    var i := FirstCut(b, lo, lo);
    if i == |b| then Split([], b[lo..])
    else Prepend(IfNonEmpty(b[lo..SegmentEnd(b, lo, i)]), ExtractFrom(b, i))
  }

  function Extract(b: ByteString): Split {
    ExtractFrom(b, 0)
  }

  /** `state` is the number of zeros just before `i` in the current segment, capped at three. */
  predicate ZerosBefore(b: ByteString, lo: nat, i: nat, state: int) {
    && lo <= i <= |b|
    && 0 <= state <= 3 && state <= i - lo
    && (if state >= 1 then b[i - 1] == 0 else i > lo ==> b[i - 1] != 0)
    && (state >= 1 ==> if state >= 2 then b[i - 2] == 0 else i - 1 > lo ==> b[i - 2] != 0)
    && (state >= 2 ==> if state >= 3 then b[i - 3] == 0 else i - 2 > lo ==> b[i - 3] != 0)
  }

  /** No start code followed by a byte has been completed in `b[lo..i]`. */
  predicate NoCut(b: ByteString, lo: nat, i: nat) {
    lo <= i <= |b| && i <= FirstCut(b, lo, lo) && (i < |b| ==> !CodeEndsAt(b, lo, i))
  }

  /** Reading `b[i]` completes a start code exactly when it is a one after two or more zeros. */
  lemma NoCutStep(b: ByteString, lo: nat, i: nat, state: int)
    requires ZerosBefore(b, lo, i, state) && NoCut(b, lo, i) && i < |b|
    ensures i + 1 <= FirstCut(b, lo, lo)
    ensures i + 1 < |b| ==> (CodeEndsAt(b, lo, i + 1) <==> state >= 2 && b[i] == 1)
  {
    FirstCutLeast(b, lo, lo, i);
  }

  /** What the scanner has yet to report is what `ExtractFrom` finds from `lo` on. */
  ghost predicate Progress(b: ByteString, lo: nat, result: seq<ByteString>) {
    lo <= |b| && Extract(b) == Prepend(result, ExtractFrom(b, lo))
  }

  lemma CutIs(b: ByteString, lo: nat, i: nat, state: int)
    requires ZerosBefore(b, lo, i, state) && NoCut(b, lo, i)
    requires i + 1 < |b| && state >= 2 && b[i] == 1
    ensures FirstCut(b, lo, lo) == i + 1
    ensures SegmentEnd(b, lo, i + 1) == i - state
  {
    NoCutStep(b, lo, i, state);
    FirstCutLeast(b, lo, lo, i + 1);
  }

  lemma ProgressCut(b: ByteString, lo: nat, i: nat, result: seq<ByteString>)
    requires Progress(b, lo, result)
    requires i == FirstCut(b, lo, lo) < |b|
    ensures Progress(b, i, result + IfNonEmpty(b[lo..SegmentEnd(b, lo, i)]))
  {
    PrependTwice(result, IfNonEmpty(b[lo..SegmentEnd(b, lo, i)]), ExtractFrom(b, i));
  }

  lemma ProgressEnd(b: ByteString, lo: nat, result: seq<ByteString>)
    requires Progress(b, lo, result) && NoCut(b, lo, |b|)
    ensures Extract(b) == Split(result, b[lo..])
  {
    assert result + [] == result;
  }

  /** The scanner as the source runs it: one pass, a counter of pending zeros, a last cut. */
  method ExtractNALu(buffer: ByteString) returns (result: seq<ByteString>, left: ByteString)
    ensures Split(result, left) == Extract(buffer)
  {
    var i, state, lastIndex := 0, 0, 0;
    result := [];
    while i < |buffer|
      invariant ZerosBefore(buffer, lastIndex, i, state)
      invariant NoCut(buffer, lastIndex, i)
      invariant Progress(buffer, lastIndex, result)
    {
      var value := buffer[i];
      NoCutStep(buffer, lastIndex, i, state);
      ghost var upTo, found := i - state, result;
      if state >= 2 && value == 1 && i + 1 < |buffer| {
        CutIs(buffer, lastIndex, i, state);
        ProgressCut(buffer, lastIndex, i + 1, result);
        found := result + IfNonEmpty(buffer[lastIndex..upTo]);
      }
      i := i + 1;
      if state == 0 {
        if value == 0 { state := 1; }
      } else if state == 1 {
        state := if value == 0 then 2 else 0;
      } else if value == 0 {
        state := 3;
      } else if value == 1 && i < |buffer| {
        if lastIndex != i - state - 1 {
          result := result + [buffer[lastIndex..i - state - 1]];
        }
        assert i - state - 1 == upTo;
        assert result == found;
        lastIndex := i;
        state := 0;
      } else {
        state := 0;
      }
    }
    left := buffer[lastIndex..];
    ProgressEnd(buffer, lastIndex, result);
  }
}
