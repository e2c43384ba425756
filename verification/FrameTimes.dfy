/** How a chunk's duration is shared out over its frames. */
module FrameTimes {
  import opened Bytes
  import opened Framer

  /** The frames that get one unit more. */
  function Longer(n: nat, tt: int): (k: nat)
    ensures k <= n
  {
    if tt <= 0 then 0 else if tt < n then tt else n
  }

  lemma {:induction false} SpreadAt(n: nat, fd: int, tt: int, k: nat)
    requires k < n
    ensures Spread(n, fd, tt)[k] == if k < tt then fd + 1 else fd
    decreases n
  {
    if k > 0 { SpreadAt(n - 1, fd, if tt > 0 then tt - 1 else tt, k - 1); }
  }

  lemma OneShareMore(n: nat, fd: int)
    requires n > 0
    ensures n * fd == (n - 1) * fd + fd
  {
  }

  lemma {:induction false} SpreadSum(n: nat, fd: int, tt: int)
    ensures Sum(Spread(n, fd, tt)) == n * fd + Longer(n, tt)
    decreases n
  {
    if n > 0 {
      var rest := if tt > 0 then tt - 1 else tt;
      SpreadSum(n - 1, fd, rest);
      OneShareMore(n, fd);
      assert Spread(n, fd, tt)[1..] == Spread(n - 1, fd, rest);
    }
  }

  lemma DivFacts(a: nat, n: nat)
    requires n > 0
    ensures a == a / n * n + a % n && 0 <= a % n < n
    ensures a / n < TWO_31 <==> a < TWO_31 * n
  {
    var q := a / n;
    assert a == q * n + a % n;
    if q < TWO_31 {
      MulMono(q + 1, TWO_31, n);
    } else {
      MulMono(TWO_31, q, n);
    }
  }

  lemma MulMono(a: int, b: int, n: nat)
    requires a <= b
    ensures a * n <= b * n
  {
  }

  /** A share that leaves the range of a 32-bit conversion comes out too small by a multiple of 2^32. */
  lemma WrapsDown(x: int)
    requires x >= TWO_31
    ensures ToInt32(x) + TWO_31 <= x
  {
  }

  lemma WrapsUp(x: int)
    requires x < -TWO_31
    ensures ToInt32(x) > x
  {
  }

  /** When the shares add up: a non-negative duration of less than 2^31 a frame, or a negative one that
      divides evenly. */
  predicate Shareable(duration: int, n: nat)
    requires n > 0
  {
    if duration >= 0 then duration < TWO_31 * n else (-duration) % n == 0 && -duration <= TWO_31 * n
  }

  lemma Commute(a: int, b: int)
    ensures a * b == b * a
  {
  }

  lemma TwoMore(fd: int, q: int, n: nat)
    requires fd + 2 <= q
    ensures fd * n + n + n <= q * n
  {
    MulMono(fd + 2, q, n);
    assert (fd + 2) * n == fd * n + n + n;
  }

  /** With the rest `r` of the division and the share `p` of all frames together. */
  lemma AddsUp(duration: int, n: nat, fits: bool, p: int, m: int, r: int)
    requires duration == m + r && 0 <= r < n
    requires if fits then p == m else p + n + n <= m
    ensures p + Longer(n, duration - p) == duration <==> fits
  {
  }

  lemma ShareFits(q: nat, n: nat)
    ensures if q < TWO_31 then ToInt32(q) * n == q * n else ToInt32(q) * n + n + n <= q * n
  {
    if q >= TWO_31 {
      WrapsDown(q);
      TwoMore(ToInt32(q), q, n);
    }
  }

  lemma ShareUp(duration: int, n: nat)
    requires n > 0 && duration > 0
    ensures var fd := ToInt32(TruncDiv(duration, n));
            n * fd + Longer(n, duration - fd * n) == duration <==> Shareable(duration, n)
  {
    var q := duration / n;
    DivFacts(duration, n);
    ShareFits(q, n);
    Commute(ToInt32(q), n);
    AddsUp(duration, n, q < TWO_31, ToInt32(q) * n, q * n, duration % n);
  }

  lemma ShareDown(duration: int, n: nat)
    requires n > 0 && duration < 0
    ensures var fd := ToInt32(TruncDiv(duration, n));
            n * fd + Longer(n, duration - fd * n) == duration <==> Shareable(duration, n)
  {
    var q := (-duration) / n;
    var fd := ToInt32(-q);
    DivFacts(-duration, n);
    assert duration == (-q) * n - (-duration) % n;
    if q > TWO_31 {
      WrapsUp(-q);
      MulMono(-q + 1, fd, n);
      assert (-q + 1) * n == (-q) * n + n;
      assert fd * n > duration;
      MulMono(TWO_31 + 1, q, n);
      assert (TWO_31 + 1) * n == TWO_31 * n + n;
    } else {
      assert fd == -q;
      MulMono(q, TWO_31, n);
      if q == TWO_31 && (-duration) % n == 0 { assert -duration == TWO_31 * n; }
    }
  }

  /** The shares of a chunk with a duration add up to it if and only if it can be shared; they never
      differ by more than one, the longer ones coming first. */
  lemma DurationsSum(duration: int, n: nat, frameDuration: int)
    requires n > 0 && duration != 0
    ensures Sum(FrameDurations(duration, n, frameDuration)) == duration <==> Shareable(duration, n)
  {
    var fd := Share(duration, n, frameDuration);
    SpreadSum(n, fd, Rest(duration, n, fd));
    if duration > 0 { ShareUp(duration, n); } else { ShareDown(duration, n); }
  }

  lemma DurationsEven(duration: int, n: nat, frameDuration: int, j: nat, k: nat)
    requires j <= k < n
    ensures var ds := FrameDurations(duration, n, frameDuration); ds[k] <= ds[j] <= ds[k] + 1
  {
    var fd := Share(duration, n, frameDuration);
    SpreadAt(n, fd, Rest(duration, n, fd), j);
    SpreadAt(n, fd, Rest(duration, n, fd), k);
  }
}
