/** The averaging filter: a circular buffer that refines "mean of the last N inputs". */
module Filter {

  const TWO_32 := 0x1_0000_0000

  function Sum(s: seq<real>): real {
    if s == [] then 0.0 else Sum(s[..|s| - 1]) + s[|s| - 1]
  }

  function Repeat(x: real, n: nat): (s: seq<real>)
    ensures |s| == n
  {
    seq(n, _ => x)
  }

  /** The last `n` inputs, padded on the left with the first input. */
  function Window(inputs: seq<real>, n: nat): (w: seq<real>)
    requires inputs != [] && n > 0
    ensures |w| == n
  {
    (Repeat(inputs[0], n) + inputs)[|inputs|..]
  }

  /** What the call that receives the last of `inputs` has to return. */
  function MeanOfLast(inputs: seq<real>, n: nat): real
    requires inputs != [] && n > 0
  {
    Sum(Window(inputs, n)) / n as real
  }

  lemma {:induction false} SumAppend(a: seq<real>, b: seq<real>)
    ensures Sum(a + b) == Sum(a) + Sum(b)
  {
    if b == [] {
      assert a + b == a;
    } else {
      SumAppend(a, b[..|b| - 1]);
      assert (a + b)[..|a + b| - 1] == a + b[..|b| - 1];
    }
  }

  /** The ring holds the window, oldest sample at `idx`. */
  function Ring(w: seq<real>, idx: nat): (s: seq<real>)
    requires idx < |w|
    ensures |s| == |w|
  {
    w[|w| - idx..] + w[..|w| - idx]
  }

  lemma SumSwap(a: seq<real>, b: seq<real>, w: seq<real>)
    requires a + b == w
    ensures Sum(b + a) == Sum(w)
  {
    SumAppend(a, b);
    SumAppend(b, a);
  }

  lemma RingSum(w: seq<real>, idx: nat)
    requires idx < |w|
    ensures Sum(Ring(w, idx)) == Sum(w)
  {
    SumSwap(w[..|w| - idx], w[|w| - idx..], w);
  }

  lemma WindowStep(inputs: seq<real>, x: real, n: nat)
    requires inputs != [] && n > 0
    ensures Window(inputs + [x], n) == Window(inputs, n)[1..] + [x]
  {
  }

  function Next(idx: nat, n: nat): nat {
    if idx + 1 == n then 0 else idx + 1
  }

  lemma RingStep(w: seq<real>, idx: nat, x: real)
    requires idx < |w|
    ensures Ring(w, idx)[idx := x] == Ring(w[1..] + [x], Next(idx, |w|))
  {
    var n, v := |w|, w[1..] + [x];
    var now, next := Ring(w, idx)[idx := x], Ring(v, Next(idx, n));
    forall j | 0 <= j < n
      ensures now[j] == next[j]
    {
      if j < idx {
        assert now[j] == w[n - idx + j] == v[n - idx - 1 + j];
      } else if j > idx {
        assert now[j] == w[j - idx] == v[j - idx - 1];
      }
    }
  }

  /** The number of the last call, among the first `k`, that wrote slot `j` of a ring of `n`. */
  function WriterOf(k: nat, j: nat, n: nat): (i: int)
    requires n > 0
    ensures k - n < i <= k
  {
    k - (k - 1 - j) % n
  }

  lemma ModShift(a: int, q: int, n: nat)
    requires n > 0
    ensures (a + q * n) % n == a % n
  {
    ModUnique(a + q * n, a / n + q, a % n, n);
    assert (a / n + q) * n == (a / n) * n + q * n;
  }

  lemma ModUnique(a: int, q: int, r: int, n: nat)
    requires n > 0 && a == q * n + r && 0 <= r < n
    ensures a % n == r && a / n == q
  {
    assert (q - a / n) * n == a % n - r;
    MulLarge(q - a / n, n);
  }

  lemma MulLarge(d: int, n: nat)
    requires n > 0
    ensures d >= 1 ==> d * n >= n
    ensures d <= -1 ==> d * n + n <= 0
  {
  }

  /** Slot `j` is written by call `k` exactly when `j` is the slot before the next index. */
  lemma WriterStep(k: nat, j: nat, n: nat)
    requires n > 0 && j < n
    ensures WriterOf(k + 1, j, n) == if j == k % n then k + 1 else WriterOf(k, j, n)
  {
    var d := k - j;
    if j == k % n {
      ModUnique(d, k / n, 0, n);
    } else if d % n == 0 {
      ModUnique(k, d / n, j, n);
    } else {
      ModUnique(d - 1, d / n, d % n - 1, n);
    }
  }

  /** What slot `j` of `output` holds after the calls with `inputs`. */
  function SlotOutput(inputs: seq<real>, j: nat, n: nat): real
    requires inputs != [] && n > 0
  {
    var i := WriterOf(|inputs|, j, n);
    if i >= 1 then MeanOfLast(inputs[..i], n) else inputs[0]
  }

  ghost predicate OutputsOf(output: seq<real>, inputs: seq<real>, n: nat)
    requires inputs != [] && n > 0
  {
    |output| == n && forall j :: 0 <= j < n ==> output[j] == SlotOutput(inputs, j, n)
  }

  /** The index `last` computes: an int plus a uint32_t is a uint32_t. */
  function LastIndex(combined: int, n: nat): (i: nat)
    requires n > 0
    ensures i < n
  {
    (combined % TWO_32) % n
  }

  /** It is the slot meant, `combined` modulo the size, if and only if `combined` is not negative or
      the size divides 2^32. */
  lemma LastIndexExact(combined: int, n: nat)
    requires n > 0 && -TWO_32 <= combined < TWO_32
    ensures LastIndex(combined, n) == combined % n <==> combined >= 0 || Wraps(n)
  {
    if combined < 0 {
      var u := combined + TWO_32;
      assert combined % TWO_32 == u % TWO_32;
      ModUnique(combined, -1, u, TWO_32);
      var r, s := combined % n, TWO_32 % n;
      if s == 0 {
        assert TWO_32 == (TWO_32 / n) * n;
        ModShift(combined, TWO_32 / n, n);
      } else if u % n == r {
        assert u - combined == (u / n - combined / n) * n;
        ModUnique(TWO_32, u / n - combined / n, 0, n);
      }
    }
  }

  /** The battery filter has 250 slots: right after its index wraps, `last(0)` reads slot 45, not 249. */
  lemma LastOfWrappedBatteryFilter()
    ensures LastIndex(-1, 250) == 45 && (-1) % 250 == 249
  {
  }

  class AveragingFilter {
    var samples: seq<real>
    var output: seq<real>
    var samplesIdx: nat
    const size: nat
    ghost var inputs: seq<real>

    /** `size` zero makes the first call index an empty vector. */
    constructor (size: nat)
      requires size > 0
      ensures Valid() && inputs == [] && this.size == size
    {
      this.size := size;
      samples, output, samplesIdx, inputs := [], [], 0, [];
    }

    ghost predicate Valid()
      reads this
    {
      && size > 0 && samplesIdx == |inputs| % size && (inputs != [] ==> |output| == size)
      && Holding(samples, output, inputs, size)
    }

    method Accumulate() returns (total: real)
      ensures total == Sum(samples)
    {
      total := 0.0;
      var i := 0;
      while i < |samples|
        invariant 0 <= i <= |samples|
        invariant total == Sum(samples[..i])
      {
        assert samples[..i + 1][..i] == samples[..i];
        total := total + samples[i];
        i := i + 1;
      }
      assert samples[..i] == samples;
    }

    /** The first call fills both vectors with its input. */
    method Fill(x: real)
      requires Valid()
      modifies this`samples, this`output
      ensures samples == Ring(Before(inputs, x, size), samplesIdx)
      ensures OutputsBefore(output, inputs, x, size)
    {
      if samples == [] {
        samples := Repeat(x, size);
        output := Repeat(x, size);
      }
    }

    /** `operator()`. */
    method Call(x: real) returns (mean: real)
      requires Valid()
      modifies this
      ensures Valid() && inputs == old(inputs) + [x]
      ensures mean == MeanOfLast(inputs, size)
    {
      Fill(x);
      CallKeeps(output, inputs, x, size);
      samples := samples[samplesIdx := x];
      var total := Accumulate();
      mean := total / |samples| as real;
      output := output[samplesIdx := mean];
      samplesIdx := (samplesIdx + 1) % |samples|;
      inputs := inputs + [x];
    }

    /** For a relative index that reaches back to an output that is still there, and a combined index that
        is not negative or wraps harmlessly: the output of `-back` calls earlier. */
    method Last(back: int) returns (mean: real)
      requires Valid() && inputs != []
      requires -TWO_32 / 2 <= back < TWO_32 / 2 && samplesIdx <= TWO_32 / 2
      ensures mean == output[LastIndex(samplesIdx - 1 + back, size)]
      ensures Reaches(back, |inputs|, size) && (samplesIdx - 1 + back >= 0 || Wraps(size)) ==>
                mean == MeanOfLast(inputs[..|inputs| + back], size)
      ensures back <= 0 <= samplesIdx - 1 + back ==> Reaches(back, |inputs|, size)
    {
      var idx := LastIndex(samplesIdx - 1 + back, size);
      mean := output[idx];
      LastReaches(|inputs|, back, size);
      if Reaches(back, |inputs|, size) && (samplesIdx - 1 + back >= 0 || Wraps(size)) {
        LastIs(output, inputs, back, size);
      }
    }
  }

  /** The output of `-back` calls earlier exists and has not been overwritten. */
  predicate Reaches(back: int, calls: nat, n: nat) {
    back <= 0 < back + n && calls + back >= 1
  }

  /** Indices modulo 2^32 are indices modulo `n`. */
  predicate Wraps(n: nat)
    requires n > 0
  {
    TWO_32 % n == 0
  }

  /** What the two vectors hold after the calls with `inputs`. */
  ghost predicate Holding(samples: seq<real>, output: seq<real>, inputs: seq<real>, n: nat)
    requires n > 0
  {
    if inputs == [] then samples == [] == output
    else samples == Ring(Window(inputs, n), |inputs| % n) && OutputsOf(output, inputs, n)
  }

  /** What one more call writes into them. */
  lemma CallKeeps(output: seq<real>, inputs: seq<real>, x: real, n: nat)
    requires n > 0 && OutputsBefore(output, inputs, x, n)
    ensures var samples, idx := Ring(Before(inputs, x, n), |inputs| % n), |inputs| % n;
            && |samples| == |output| == n && idx < n && (idx + 1) % n == |inputs + [x]| % n
            && Sum(samples[idx := x]) / n as real == MeanOfLast(inputs + [x], n)
            && Holding(samples[idx := x], output[idx := MeanOfLast(inputs + [x], n)], inputs + [x], n)
  {
    CallStep(inputs, x, n);
    OutputStep(output, inputs, x, n);
  }

  function Before(inputs: seq<real>, x: real, n: nat): (w: seq<real>)
    requires n > 0
    ensures |w| == n
  {
    if inputs == [] then Repeat(x, n) else Window(inputs, n)
  }

  ghost predicate OutputsBefore(output: seq<real>, inputs: seq<real>, x: real, n: nat)
    requires n > 0
  {
    if inputs == [] then output == Repeat(x, n) else OutputsOf(output, inputs, n)
  }

  /** Writing the newest input over the oldest sample moves the window by one. */
  lemma CallStep(inputs: seq<real>, x: real, n: nat)
    requires n > 0
    ensures var after, idx := Window(inputs + [x], n), |inputs| % n;
            && Ring(Before(inputs, x, n), idx)[idx := x] == Ring(after, (|inputs| + 1) % n)
            && Sum(Ring(Before(inputs, x, n), idx)[idx := x]) == Sum(after)
            && (idx + 1) % n == (|inputs| + 1) % n
  {
    var before := Before(inputs, x, n);
    WindowNext(inputs, x, n);
    NextIndex(|inputs|, n);
    RingCall(before, |inputs| % n, x, Window(inputs + [x], n));
  }

  lemma RingCall(before: seq<real>, idx: nat, x: real, after: seq<real>)
    requires idx < |before| && after == before[1..] + [x]
    ensures Ring(before, idx)[idx := x] == Ring(after, Next(idx, |before|))
    ensures Sum(Ring(before, idx)[idx := x]) == Sum(after)
  {
    RingStep(before, idx, x);
    RingSum(after, Next(idx, |before|));
  }

  lemma WindowNext(inputs: seq<real>, x: real, n: nat)
    requires n > 0
    ensures Window(inputs + [x], n) == Before(inputs, x, n)[1..] + [x]
  {
    if inputs != [] { WindowStep(inputs, x, n); }
  }

  lemma NextIndex(k: nat, n: nat)
    requires n > 0
    ensures (k % n + 1) % n == (k + 1) % n == Next(k % n, n)
  {
    if k % n + 1 == n {
      ModUnique(k % n + 1, 1, 0, n);
      ModUnique(k + 1, k / n + 1, 0, n);
    } else {
      ModUnique(k % n + 1, 0, k % n + 1, n);
      ModUnique(k + 1, k / n, k % n + 1, n);
    }
  }

  lemma OutputStep(output: seq<real>, inputs: seq<real>, x: real, n: nat)
    requires n > 0
    requires OutputsBefore(output, inputs, x, n)
    ensures OutputsOf(output[|inputs| % n := MeanOfLast(inputs + [x], n)], inputs + [x], n)
  {
    var k := |inputs|;
    forall j | 0 <= j < n
      ensures SlotOutput(inputs + [x], j, n) == if j == k % n then MeanOfLast(inputs + [x], n) else output[j]
    {
      WriterStep(k, j, n);
      var i := WriterOf(k + 1, j, n);
      if j == k % n {
        assert (inputs + [x])[..k + 1] == inputs + [x];
      } else if i >= 1 {
        assert (inputs + [x])[..i] == inputs[..i];
      }
    }
  }

  lemma LastReaches(k: nat, back: int, n: nat)
    requires n > 0
    ensures back <= 0 <= k % n - 1 + back ==> Reaches(back, k, n)
  {
    assert k / n * n >= 0;
  }

  /** Fewer than `n` calls back, the slot modulo `n` has been written by just that call. */
  lemma LastWriter(k: nat, m: nat, n: nat)
    requires m < n && m < k
    ensures WriterOf(k, (k % n - 1 - m) % n, n) == k - m
  {
    var q, c := k / n, k % n - 1 - m;
    if c >= 0 {
      ModUnique(c, 0, c, n);
      ModUnique(k - 1 - c, q, m, n);
    } else {
      ModUnique(c, -1, c + n, n);
      assert (q - 1) * n == q * n - n;
      ModUnique(k - 1 - (c + n), q - 1, m, n);
    }
  }

  lemma LastIs(output: seq<real>, inputs: seq<real>, back: int, n: nat)
    requires n > 0 && inputs != [] && OutputsOf(output, inputs, n) && Reaches(back, |inputs|, n)
    requires |inputs| % n - 1 + back >= 0 || Wraps(n)
    requires |inputs| % n <= TWO_32 / 2 && -TWO_32 / 2 <= back
    ensures output[LastIndex(|inputs| % n - 1 + back, n)] == MeanOfLast(inputs[..|inputs| + back], n)
  {
    LastIndexExact(|inputs| % n - 1 + back, n);
    LastWriter(|inputs|, -back, n);
    SlotIs(output, inputs, LastIndex(|inputs| % n - 1 + back, n), |inputs| + back, n);
  }

  lemma SlotIs(output: seq<real>, inputs: seq<real>, j: nat, call: nat, n: nat)
    requires n > 0 && inputs != [] && OutputsOf(output, inputs, n) && j < n
    requires 1 <= call <= |inputs| && WriterOf(|inputs|, j, n) == call
    ensures output[j] == MeanOfLast(inputs[..call], n)
  {
  }
}
