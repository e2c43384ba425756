/** Which part of the media buffer may be dropped: keyframe positions and the ranges removed. `CleanupRuns` says
    what the positions are. */
module Cleanup {
  // ----- getSafeClearOffsetOfBuffer -----

  /** The positions before the first one at or after the offset. */
  function Passed(positions: seq<real>, offset: real): (n: nat)
    ensures n <= |positions|
  {
    if positions == [] || positions[0] >= offset then 0 else 1 + Passed(positions[1..], offset)
  }

  /** `filter`: what stays. */
  function Kept(positions: seq<real>, adjacent: real): seq<real> {
    if positions == [] then [] else
      var last := positions[|positions| - 1];
      Kept(positions[..|positions| - 1], adjacent) + if last >= adjacent then [last] else []
  }

  /** The last position that is filtered out becomes the limit. */
  function LastBelow(positions: seq<real>, adjacent: real, limit: real): real {
    if positions == [] then limit else
      var last := positions[|positions| - 1];
      if last < adjacent then last else LastBelow(positions[..|positions| - 1], adjacent, limit)
  }

  datatype Safe = Safe(limit: real, positions: seq<real>)

  function SafeClearOffset(positions: seq<real>, offset: real, audioMode: bool): Safe {
    var limit := if audioMode then offset else 0.0;
    var n := Passed(positions, offset);
    if n == 0 || positions[n - 1] == 0.0 then Safe(limit, positions)
    else Safe(LastBelow(positions, positions[n - 1], limit), Kept(positions, positions[n - 1]))
  }

  predicate Increasing(positions: seq<real>) {
    |positions| >= 2 ==>
      positions[|positions| - 2] < positions[|positions| - 1] && Increasing(positions[..|positions| - 1])
  }

  predicate AllPositive(positions: seq<real>) {
    positions == [] || (positions[|positions| - 1] > 0.0 && AllPositive(positions[..|positions| - 1]))
  }

  lemma {:induction false} PassedAre(positions: seq<real>, offset: real, k: nat)
    requires k <= Passed(positions, offset)
    ensures k < |positions| ==> (positions[k] < offset <==> k < Passed(positions, offset))
    decreases |positions|
  {
    if k > 0 && positions != [] && positions[0] < offset { PassedAre(positions[1..], offset, k - 1); }
  }

  lemma {:induction false} IncreasingAt(positions: seq<real>, j: nat, k: nat)
    requires Increasing(positions) && j < k < |positions|
    ensures positions[j] < positions[k]
    decreases |positions|
  {
    var front := positions[..|positions| - 1];
    if k < |front| {
      IncreasingAt(front, j, k);
    } else if j < k - 1 {
      IncreasingAt(front, j, k - 1);
    }
  }

  lemma {:induction false} PositiveAt(positions: seq<real>, k: nat)
    requires AllPositive(positions) && k < |positions|
    ensures positions[k] > 0.0
    decreases |positions|
  {
    if k < |positions| - 1 { PositiveAt(positions[..|positions| - 1], k); }
  }

  /** Of an increasing list the filter keeps a suffix; the last position before it is the limit. */
  lemma {:induction false} FilterIncreasing(positions: seq<real>, k: nat, adjacent: real, limit: real)
    requires Increasing(positions) && k <= |positions|
    requires k > 0 ==> positions[k - 1] < adjacent
    requires k < |positions| ==> positions[k] >= adjacent
    ensures Kept(positions, adjacent) == positions[k..]
    ensures LastBelow(positions, adjacent, limit) == if k > 0 then positions[k - 1] else limit
    decreases |positions|
  {
    if positions != [] {
      var front := positions[..|positions| - 1];
      if k == |positions| {
        assert k > 1 ==> front[k - 2] < positions[k - 1];
        FilterIncreasing(front, k - 1, adjacent, limit);
      } else {
        if k < |positions| - 1 { IncreasingAt(positions, k, |positions| - 1); }
        FilterIncreasing(front, k, adjacent, limit);
        assert positions[k..] == front[k..] + [positions[|positions| - 1]];
      }
    }
  }

  lemma {:induction false} SuffixIncreasing(positions: seq<real>, k: nat)
    requires Increasing(positions) && AllPositive(positions) && k <= |positions|
    ensures Increasing(positions[k..]) && AllPositive(positions[k..])
    decreases |positions|
  {
    if k < |positions| {
      var front := positions[..|positions| - 1];
      SuffixIncreasing(front, k);
      assert positions[k..][..|positions[k..]| - 1] == front[k..];
    }
  }

  lemma PassedBounds(positions: seq<real>, offset: real)
    ensures var n := Passed(positions, offset);
            (n > 0 ==> positions[n - 1] < offset) && (n < |positions| ==> offset <= positions[n])
  {
    var n := Passed(positions, offset);
    PassedAre(positions, offset, n);
    if n > 0 { PassedAre(positions, offset, n - 1); }
  }

  lemma FilterAt(positions: seq<real>, k: nat, limit: real)
    requires Increasing(positions) && AllPositive(positions) && k < |positions|
    ensures Kept(positions, positions[k]) == positions[k..]
    ensures LastBelow(positions, positions[k], limit) == if k > 0 then positions[k - 1] else limit
  {
    if k > 0 { IncreasingAt(positions, k - 1, k); }
    FilterIncreasing(positions, k, positions[k], limit);
  }

  /** The limit that stands if no position is filtered out. */
  function Otherwise(offset: real, audioMode: bool): real {
    if audioMode then offset else 0.0
  }

  lemma SafeBy(positions: seq<real>, offset: real, audioMode: bool, limit: real, rest: seq<real>)
    requires Passed(positions, offset) > 0
    requires var adjacent := positions[Passed(positions, offset) - 1];
             && adjacent != 0.0 && LastBelow(positions, adjacent, Otherwise(offset, audioMode)) == limit
             && Kept(positions, adjacent) == rest
    ensures SafeClearOffset(positions, offset, audioMode) == Safe(limit, rest)
  {
  }

  lemma SafeSome(positions: seq<real>, offset: real, audioMode: bool, n: nat)
    requires Increasing(positions) && AllPositive(positions) && n == Passed(positions, offset) > 0
    ensures SafeClearOffset(positions, offset, audioMode) ==
            Safe(if n > 1 then positions[n - 2] else Otherwise(offset, audioMode), positions[n - 1..])
  {
    PositiveAt(positions, n - 1);
    FilterAt(positions, n - 1, Otherwise(offset, audioMode));
    SafeBy(positions, offset, audioMode, if n > 1 then positions[n - 2] else Otherwise(offset, audioMode),
           positions[n - 1..]);
  }

  lemma LimitBelow(positions: seq<real>, n: nat)
    requires Increasing(positions) && AllPositive(positions) && 0 < n <= |positions|
    ensures (if n > 1 then positions[n - 2] else 0.0) < positions[n - 1]
  {
    PositiveAt(positions, n - 1);
    if n > 1 { IncreasingAt(positions, n - 2, n - 1); }
  }

  /** With `n` positions before the offset, the limit is the last but one of them; if there is none it is 0, or
      in audio mode the offset. The positions from the last one on are kept. */
  lemma SafeLimit(positions: seq<real>, offset: real, audioMode: bool)
    requires Increasing(positions) && AllPositive(positions)
    ensures var n := Passed(positions, offset);
            (n > 0 ==> positions[n - 1] < offset) && (n < |positions| ==> offset <= positions[n])
    ensures var n, r := Passed(positions, offset), SafeClearOffset(positions, offset, audioMode);
            r == Safe(if n > 1 then positions[n - 2] else Otherwise(offset, audioMode),
                      if n > 0 then positions[n - 1..] else positions)
    ensures var n, limit := Passed(positions, offset), SafeClearOffset(positions, offset, audioMode).limit;
            n > 1 || (n > 0 && !audioMode) ==> limit < positions[n - 1]
    ensures var rest := SafeClearOffset(positions, offset, audioMode).positions; Increasing(rest) && AllPositive(rest)
  {
    var n := Passed(positions, offset);
    PassedBounds(positions, offset);
    SuffixIncreasing(positions, if n > 0 then n - 1 else 0);
    if n > 0 {
      SafeSome(positions, offset, audioMode, n);
      LimitBelow(positions, n);
    } else {
      assert positions[0..] == positions;
    }
  }

  // ----- initCleanup -----

  const CLEAN_OFFSET := 30.0

  /** A buffered range, in seconds. */
  datatype Range = Range(start: real, end: real)

  function RangeOf(buffered: Range, limit: real): seq<Range> {
    if limit - buffered.start > CLEAN_OFFSET && buffered.start < limit - CLEAN_OFFSET
    then [Range(buffered.start, limit - CLEAN_OFFSET)] else []
  }

  function CleanRanges(buffered: seq<Range>, limit: real): seq<Range> {
    if buffered == [] then []
    else CleanRanges(buffered[..|buffered| - 1], limit) + RangeOf(buffered[|buffered| - 1], limit)
  }

  /** A time lies in one of the ranges. */
  predicate Within(ranges: seq<Range>, x: real) {
    ranges != [] &&
    (ranges[|ranges| - 1].start <= x < ranges[|ranges| - 1].end || Within(ranges[..|ranges| - 1], x))
  }

  /** A range starts at or before a time. */
  predicate StartedBy(buffered: seq<Range>, x: real) {
    buffered != [] && (buffered[|buffered| - 1].start <= x || StartedBy(buffered[..|buffered| - 1], x))
  }

  /** The ranges cut for a limit reach from the start of each buffered range to 30 seconds before the limit. */
  lemma {:induction false} CutsExactly(buffered: seq<Range>, limit: real, x: real)
    ensures Within(CleanRanges(buffered, limit), x) <==> x < limit - 30.0 && StartedBy(buffered, x)
    decreases |buffered|
  {
    if buffered != [] {
      var front, more := CleanRanges(buffered[..|buffered| - 1], limit), RangeOf(buffered[|buffered| - 1], limit);
      CutsExactly(buffered[..|buffered| - 1], limit, x);
      if more == [] {
        assert front + more == front;
      } else {
        assert (front + more)[..|front|] == front;
      }
    }
  }

  /** What a call queues. */
  function Queue(limit: real, blocked: bool, buffered: seq<Range>): seq<Range> {
    if blocked then [] else CleanRanges(buffered, limit)
  }

  class BufferController {
    var cleaning: bool
    var pendingCleaning: real
    var cleanRanges: seq<Range>
    /** The calls of `sourceBuffer.remove`. */
    var removed: seq<Range>

    constructor ()
      ensures !cleaning && pendingCleaning == 0.0 && cleanRanges == [] && removed == []
    {
      cleaning, pendingCleaning, cleanRanges, removed := false, 0.0, [], [];
    }

    method DoCleanup()
      modifies this`cleaning, this`cleanRanges, this`removed
      ensures cleaning == (old(cleanRanges) != [])
      ensures removed + cleanRanges == old(removed + cleanRanges)
      ensures |removed| == |old(removed)| + if old(cleanRanges) != [] then 1 else 0
    {
      if |cleanRanges| == 0 {
        cleaning := false;
        return;
      }
      var range := cleanRanges[0];
      cleanRanges := cleanRanges[1..];
      cleaning := true;
      removed := removed + [range];
    }

    /** `buffered` and `updating` are those of the source buffer. */
    method InitCleanup(cleanMaxLimit: real, updating: bool, buffered: seq<Range>)
      modifies this
      ensures updating ==> pendingCleaning == cleanMaxLimit
      ensures !updating ==> pendingCleaning == old(pendingCleaning)
      ensures removed + cleanRanges ==
              old(removed + cleanRanges) + Queue(cleanMaxLimit, updating || old(cleaning), buffered)
      ensures !updating && buffered != [] && !old(cleaning) ==>
                && cleaning == (old(cleanRanges) + CleanRanges(buffered, cleanMaxLimit) != [])
                && |removed| == |old(removed)| + if cleaning then 1 else 0
      ensures updating || buffered == [] || old(cleaning) ==>
                removed == old(removed) && cleanRanges == old(cleanRanges) && cleaning == old(cleaning)
    {
      if updating {
        pendingCleaning := cleanMaxLimit;
        return;
      }
      if |buffered| > 0 && !cleaning {
        var i := 0;
        assert buffered[..0] == [];
        while i < |buffered|
          invariant 0 <= i <= |buffered|
          invariant cleanRanges == old(cleanRanges) + CleanRanges(buffered[..i], cleanMaxLimit)
          invariant removed == old(removed) && pendingCleaning == old(pendingCleaning)
        {
          assert buffered[..i + 1][..i] == buffered[..i];
          var start, end := buffered[i].start, buffered[i].end;
          if cleanMaxLimit - start > CLEAN_OFFSET {
            end := cleanMaxLimit - CLEAN_OFFSET;
            if start < end {
              cleanRanges := cleanRanges + [Range(start, end)];
            }
          }
          i := i + 1;
        }
        assert buffered[..i] == buffered;
        DoCleanup();
      }
    }

    /** The listener of `updateend`. It starts a removal of its own, so there are two when the cleanup that
        it takes up has started one already. */
    method UpdateEnd(updating: bool, buffered: seq<Range>)
      modifies this
      ensures pendingCleaning == if old(pendingCleaning) > 0.0 then 0.0 else old(pendingCleaning)
      ensures var taken := TakesUp(old(pendingCleaning), updating, buffered, old(cleaning));
              var more := if old(pendingCleaning) > 0.0
                          then Queue(old(pendingCleaning), updating || old(cleaning), buffered) else [];
              var queue, removals := old(cleanRanges) + more, if taken then 2 else 1;
              && removed + cleanRanges == old(removed) + queue
              && |removed| == |old(removed)| + (if removals <= |queue| then removals else |queue|)
              && cleaning == (|queue| >= removals)
    {
      if pendingCleaning > 0.0 {
        InitCleanup(pendingCleaning, updating, buffered);
        pendingCleaning := 0.0;
      }
      cleaning := false;
      if |cleanRanges| > 0 {
        DoCleanup();
      }
    }
  }

  /** The pending limit is taken up by the listener of `updateend`. */
  predicate TakesUp(pending: real, updating: bool, buffered: seq<Range>, cleaning: bool) {
    pending > 0.0 && !updating && buffered != [] && !cleaning
  }

  /** Every range ends before a bound. */
  predicate EndBefore(ranges: seq<Range>, bound: real) {
    ranges == [] || (ranges[|ranges| - 1].end < bound && EndBefore(ranges[..|ranges| - 1], bound))
  }

  lemma {:induction false} RangesEndBefore(buffered: seq<Range>, limit: real, bound: real)
    requires limit < bound
    ensures EndBefore(CleanRanges(buffered, limit), bound)
    decreases |buffered|
  {
    if buffered != [] {
      var front, more := CleanRanges(buffered[..|buffered| - 1], limit), RangeOf(buffered[|buffered| - 1], limit);
      RangesEndBefore(buffered[..|buffered| - 1], limit, bound);
      if more == [] {
        assert front + more == front;
      } else {
        assert (front + more)[..|front|] == front;
      }
    }
  }
}
